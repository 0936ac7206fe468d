# Verified model of the rls rate limiter

rls is a service that makes callers wait: a request is queued as a ticket and is
answered when the rate of its endpoint allows. This project models the parts where
that promise is decided, in Dafny, and proves what they guarantee. `dafny verify
dfyconfig.toml` checks everything.

## What is modelled

| file | part of rls |
|---|---|
| `tickets.dfy` | tickets, the serve order of the priority scheduler, and the meaning of a selective pop: a scan of the serve order with a predicate that carries state |
| `slices.dfy` | Go slices over a shared backing array: `append`, compaction, the in-place filter |
| `fifo.dfy`, `lifo.dfy`, `priority.dfy`, `random.dfy` | the four queues as mutable classes; the priority queue with the sift operations of Go's `container/heap` |
| `queues.dfy` | the queue interface, its contract, and the factory |
| `token_window.dfy` | the token budget of a window |
| `token_dispatch.dfy` | the dispatch protocol of a `token_window` endpoint as a step machine |
| `token_dispatch_invariants.dfy` | what each of its steps keeps |
| `token_dispatch_theorems.dfy` | what it guarantees over every run |
| `token_dispatch_fifo.dfy` | how long a ticket waits when the queue is first-in-first-out |
| `token_dispatch_witnesses.dfy` | runs that show where the guarantees end |
| `standard_dispatch.dfy` | the dispatch protocol of the other algorithms as a step machine |
| `packing.dfy` | what a scan packs into a window and what it could have packed, how many windows a queue takes, and the wait estimate |
| `endpoint.dfy`, `admission.dfy` | cost admission, one release pass on the real queues, and the estimate against the protocol |
| `sliding_window.dfy`, `limiters.dfy` | the sliding-window limiter; rate conversion and choice of limiter |
| `config.dfy`, `paths.dfy`, `registry.dfy` | configuration, Go's `path.Dir`, and the registry of dynamic endpoints |
| `mirror.dfy` | the endpoint list of an attached terminal, which infers dynamic endpoints on its own |

In the two dispatch machines every lock region, channel operation and atomic
operation is a step of its own, and any number of handlers, the dispatcher and the
ticker interleave freely. Blocking is the absence of an enabled step. A ticket is a
value with an identity; the `cancelled` flag and the `Release` channel are part of the
protocol state. In the token machine the queue lock is held from the first test of a
scan to the last, as in `PopWhere`, while refills, credits, disconnects and signals
may land between any two tests. A scan may visit the queue in any order, so the
theorems cover all four schedulers. A push that finds the queue full changes nothing
and may be tried again, so `overflow: block` is a repetition of that step.

## Main results

1. **No lost wake-up, and progress** (token window). In every reachable state a queued
   ticket that fits the budget is about to be tested. Left to themselves the processes
   come to rest within a computed number of steps, and then no queued ticket fits.
2. **Signal counting** (other algorithms). The queue holds exactly one ticket per signal
   in `work`, per handler that has yet to signal, and per signal in the dispatcher's
   hand; so the signal never blocks, no grant is wasted, and every ticket is served.
3. **Token ledger.** `pendingTokens` is credits minus debits at all times. With no
   process halfway through a change it equals the cost of the queued tickets that are
   not cancelled *if and only if* no `Cancel` ever came after the dispatcher's read.
4. **Budget.** Over every stretch of every run with k refills the released tickets cost
   at most k + 1 windows, with refills landing anywhere; for every k a run meets this.
5. **Every scheduler drains, and the estimate is within a factor of two.** With no
   arrivals a queue of total cost P is empty after N windows with
   ceil(P/C) <= N <= 2*ceil(P/C) - 1, whatever the orders of the scans. The draining is
   a conclusion, for free orders and for the four real queues; the upper bound is met
   for every estimate.
6. **Bounded wait.** Over every run of the protocol with scans in push order, a ticket
   with k tickets ahead is popped by the (k + 1)-th further scan that begins at a full
   window, whatever arrives, and with refills landing inside scans.
7. **The queues refine one contract.** Array filters that overwrite their own input,
   heap repair, reversal and swap-remove all yield the scan of the serve order.
8. **The sliding window is exact.** The pruned buffer decides every attempt as the full
   history would; no interval as long as the window ever holds more than the allowance.
9. **Dynamic resolution does not depend on history.** After any concurrent calls each
   canonical path has the settings of its longest *configured* prefix, and no endpoint
   exactly if no prefix is configured.
10. **The terminal's list agrees with the registry**, whichever events were dropped, on
    canonical paths, *if and only if* no path has two different configuration entries.

## Where the code and its own words differ

- The comment at `endpoint/endpoint.go:203-204` says that `work` can never be full. That
  holds for the ordinary dispatcher (`StandardDispatch.SignalNeverBlocks`). For
  `token_window` a scan removes tickets without taking their signals, and for every
  window and every queue size a handler can find `work` full right after its push
  (`TokenWitnesses.SendCanWait`); the comment holds if and only if no push can succeed
  (`TokenWitnesses.SendsNeverWaitIff`). The send never waits for good
  (`TokenTheorems.Progress`).
- `endpoint/README.md:63` calls the release pass best-fit. The code takes the first
  ticket in serve order that fits. With a ticket of one token ahead of one of a full
  window it releases one token where a full window would fit
  (`Packing.FirstFitIsNotBestFit`), so it is best-fit on every queue if and only if a
  window is one token (`Packing.FirstFitIsBestFitIff`). On each queue it falls short of
  the best choice by less than the cheapest ticket left behind, and not at all when
  everything fits or nothing of the window is left (`Packing.FirstFitShortfall`).
- `README.md:168` promises no more than N tokens per time window. That holds from one
  refill to the next. Around a refill two full windows can be released back to back
  (`TokenWitnesses.BudgetIsTight` with one refill).
- `endpoint/README.md:65` says that `pendingTokens` is the cost of all queued tickets.
  `TokenTheorems.LedgerAtAnyTime` says what it is in every reachable state. With no
  process halfway through a change the sentence is true if and only if no queued ticket
  is cancelled and no `Cancel` came after the dispatcher's read
  (`Admission.CounterAndQueue`). The counter can be negative
  (`TokenWitnesses.CounterCanBeNegative`), exactly when the tickets debited before their
  credit or debited twice outweigh the others (`TokenTheorems.CounterSign`).
- Validation accepts a negative `default_tokens` (`TokenEndpoints.NegativeDefaultIsAccepted`).
  Costs are in the range from one to a full window if and only if the default is at
  least one (`TokenEndpoints.ValidatedCostsInRange`). The token machine takes only costs
  in that range.
- `README.md:263` describes latency compensation as releasing early. Above 1000 requests
  per second it slows the endpoint down (`Limiters.CompensationReleasesEarly`).
- For a path with a trailing slash the registry and the terminal start their walks one
  step apart (`Mirrors.TrailingSlash`), and for a path configured twice the registry
  serves the last entry while the terminal shows the first (`Mirrors.MirrorAgrees`).

## Model

Rows marked as helpers follow from the definitions at once; they fix what the definitions
mean, field by field or branch by branch.

| member | source | states |
|---|---|---|
| TokenInvariants.InvStep | endpoint/endpoint.go:108-224 | every step of handlers, dispatcher and ticker keeps each ticket in one place, the ledger balanced, the budget whole, and every fitting ticket watched |
| TokenInvariants.InvRun | endpoint/endpoint.go:108-224 | the same over every run from every state that satisfies it |
| TokenTheorems.AdmissionIsExact | endpoint/endpoint.go:176-197 | in every reachable state without a scan a new ticket can enter the queue exactly if fewer than the maximum are queued, and is refused exactly at the maximum; entering changes only the queue, a refusal nothing |
| TokenWitnesses.QueueOfAnySize | queue/fifo.go:17-25 | every queue length up to the maximum is reached |
| TokenTheorems.ScanLocksQueue | queue/queue.go:48-49 | while a scan holds the queue no handler changes it and none is refused |
| TokenTheorems.HandlersWaitOnlyForChannels | endpoint/endpoint.go:198-224 | past its push a handler can take its next step unless it faces a full `work` or an empty release channel |
| TokenTheorems.SignalsAreTaken | endpoint/endpoint.go:110-117 | helper, immediate: at its select the dispatcher can take either kind of signal exactly if there is one |
| TokenTheorems.OutsideIsFree | endpoint/endpoint.go:214-223 | helper, immediate: a waiting client can always leave, a resting ticker always refill |
| TokenTheorems.CountersFollowRun | endpoint/endpoint.go:198-224 | after every run `work` is signals sent less received, the counter credits less debits, and the reset channel is full exactly if a reset was signalled after the last one was taken |
| TokenTheorems.NoLostWakeUp | endpoint/endpoint.go:108-134 | in every reachable state, if a queued ticket fits the remaining tokens, a wake-up is in flight or the scan under way has not reached it |
| TokenTheorems.SettledLeavesNoFit | endpoint/endpoint.go:108-134 | at rest no queued ticket fits, and a handler waits exactly if its ticket is queued and not cancelled |
| TokenTheorems.DispatcherMoves | endpoint/endpoint.go:123-134 | away from its select the dispatcher always has an enabled step |
| TokenTheorems.Progress | endpoint/endpoint.go:108-134 | until all is at rest an internal step is enabled |
| TokenWitnesses.SendCanWait | endpoint/endpoint.go:202-205 | for every positive window and queue size a reachable state in which a handler that has pushed and counted its ticket finds `work` full |
| TokenWitnesses.SendsNeverWaitIff | endpoint/endpoint.go:202-205 | the send after a push finds room in every reachable state if and only if no push can succeed |
| TokenTheorems.RankDecreases | endpoint/endpoint.go:108-134 | every internal step lowers a rank computed from signals, scan and handlers |
| TokenTheorems.InternalRunsAreBounded | endpoint/endpoint.go:108-134 | no interleaving of internal steps is longer than the rank of its start |
| TokenTheorems.EveryFittingTicketIsServed | endpoint/endpoint.go:121-134 | an internal run continued while possible ends within that bound, at rest, with no queued ticket that fits |
| TokenTheorems.SomeRunSettles | endpoint/endpoint.go:108-134 | from every state that keeps the invariant such a run exists |
| TokenTheorems.LedgerOfEachTicket | endpoint/endpoint.go:198-224 | the counter is costs credited minus costs debited; a finished ticket is debited once, or twice exactly if its cancel came after the read |
| TokenTheorems.CounterAtRest | endpoint/endpoint.go:127-133 | with the books closed the counter is the cost of queued uncancelled tickets minus that of late-cancelled ones; it is the former if and only if there are no latter |
| TokenTheorems.LedgerAtAnyTime | endpoint/endpoint.go:198-224 | in every reachable state the counter is the cost of the queue, plus what is popped and not debited, minus what is not credited yet, withdrawn while queued, or debited twice |
| TokenTheorems.NetOf | endpoint/endpoint.go:129-132 | a ticket weighs negatively on the counter if and only if the dispatcher debited it before its credit or besides its handler |
| TokenTheorems.CounterSign | endpoint/endpoint.go:198-224 | in every reachable state the counter is negative if and only if such tickets outweigh the counted ones, so never without one |
| TokenWitnesses.CounterCanBeNegative | endpoint/endpoint.go:198-201 | a reachable state in which a ticket was released before it was counted and the counter is below zero |
| TokenWitnesses.LateCancelIsDebitedTwice | endpoint/endpoint.go:129-132 | a reachable state with the books closed, an empty queue, and a counter at minus the cost of a ticket |
| TokenTheorems.BudgetSafety | limiter/token_window.go:54-76 | remaining plus consumed is the capacity at all times, remaining within bounds, and all popped tickets cost at most (resets + 1) windows |
| TokenTheorems.StretchBudget | limiter/token_window.go:54-76 | between any two states of a run with k refills between them, the tickets popped cost at most k + 1 windows |
| TokenWitnesses.BudgetIsTight | limiter/token_window.go:67-70 | for every k a reachable state after k refills in which k + 1 full windows have been popped |
| TokenTheorems.ReleasedExactlyOnce | endpoint/endpoint.go:127-128 | over a whole run a release channel receives one send if its ticket is released, none otherwise |
| TokenTheorems.ReleaseNeverBlocks | endpoint/endpoint.go:128 | the dispatcher's send always finds the channel empty |
| TokenTheorems.TicketsAreConserved | endpoint/endpoint.go:123-134 | every accepted ticket is queued, or held by the dispatcher once, or released; the queue stays within its maximum |
| TokenTheorems.UninterleavedScan | endpoint/endpoint.go:124-126 | a scan with nothing in between pops, keeps and charges exactly what the selective pop of the queue does |
| StandardDispatch.InvStep | endpoint/endpoint.go:90-104 | every step keeps the signal count and each ticket in one of queue, hand and release |
| StandardDispatch.AdmissionIsExact | endpoint/endpoint.go:176-197 | in every reachable state a new ticket finds a step into the queue exactly while fewer than the maximum are queued |
| StandardDispatch.QueueOfAnySize | queue/fifo.go:17-25 | every queue length up to the maximum is reached |
| StandardDispatch.OnlyChannelsHoldUp | endpoint/endpoint.go:90-104 | helper, immediate: handlers, dispatcher and limiter wait for channels and slots only |
| StandardDispatch.ClientsMayLeave | endpoint/endpoint.go:214-223 | helper, immediate: a waiting client can always leave |
| StandardDispatch.SignalsCountTickets | endpoint/endpoint.go:90-104 | in every reachable state the queue length is signals in `work` plus handlers yet to signal plus the signal in hand, within the maximum |
| StandardDispatch.SignalNeverBlocks | endpoint/endpoint.go:202-205 | a handler that has pushed always finds room in `work` |
| StandardDispatch.EveryGrantReleasesATicket | endpoint/endpoint.go:97-102 | a granted slot never meets an empty queue, the send never blocks, and grants equal released tickets between rounds |
| StandardDispatch.Progress | endpoint/endpoint.go:90-104 | while a ticket is queued or a handler waits, an internal step is enabled |
| StandardDispatch.InternalRunsAreBounded | endpoint/endpoint.go:90-104 | no interleaving of internal steps is longer than the rank of its start |
| StandardDispatch.EveryTicketIsServed | endpoint/endpoint.go:90-104 | an internal run continued while possible ends with an empty queue and no handler waiting |
| TokenWindows.TokenWindow.TryConsume | limiter/token_window.go:54-62 | takes the cost if and only if it fits, else changes nothing |
| TokenWindows.TokenWindow.ConsumeEach | endpoint/endpoint.go:124-126 | calling the method on each ticket in turn yields the scan with the pure predicate, which the queues are given |
| TokenWindows.TokenWindow.Reset | limiter/token_window.go:67-76 | full budget and one pending signal, however many resets came before |
| TokenWindows.TokenWindow.TakeReset | endpoint/endpoint.go:115-116 | takes the one pending signal if there is one |
| Packing.ScanIsMaximal | endpoint/endpoint.go:123-126 | tokens before are tokens after plus cost released; nothing left behind fits the remainder |
| Packing.OvertakingIsSmaller | queue/queue.go:47-53 | a ticket released after a deferred one is strictly cheaper |
| Packing.FirstIsReleased | queue/queue.go:50-52 | a scan that can afford its first ticket releases it first |
| Packing.TwoWindowsBeatOne | limiter/token_window.go:54-70 | two consecutive windows release more than one capacity, if the second has work |
| Packing.AllReleasedIffAllFits | endpoint/endpoint.go:123-126 | a scan releases everything if and only if everything fits |
| Packing.FirstFitShortfall | endpoint/endpoint.go:123-126 | a scan falls short of any choice that fits by less than the cheapest ticket left behind, and of none when everything fits or the window is used up |
| Packing.FirstFitIsNotBestFit | queue/fifo.go:46-60 | for every window of two tokens or more, a queue of two on which the scan releases one token and the other order a full window |
| Packing.FirstFitIsBestFitIff | endpoint/endpoint.go:123-126 | the scan is best-fit on every queue if and only if a window is one token |
| Packing.DrainLowerBound | endpoint/endpoint.go:293-300 | a queue that N windows empty costs at most N capacities |
| Packing.DrainUpperBound | endpoint/endpoint.go:293-300 | no chain of windows that find the queue non-empty is longer than twice the windows needed, less one |
| Packing.EverySchedulerDrains | endpoint/endpoint.go:108-134 | after that many windows the queue is empty, whatever the orders of the scans |
| Packing.EstimateWithinFactorTwo | endpoint/endpoint.go:286-300 | with an exact counter the queue is empty within twice the estimate less one window, and not before the estimate |
| Packing.EstimateAdmits | endpoint/endpoint.go:286-298 | with lifo or random, without a window, or with nothing pending, no timeout refuses a request |
| Packing.EstimateIsLeastCover | endpoint/endpoint.go:293-300 | otherwise the estimate is the least whole number of windows that cover what is pending, times their length |
| Packing.RefusedIffNotCovered | endpoint/endpoint.go:168-174 | and a request is refused if and only if more is pending than the whole windows within its timeout hold |
| Packing.UpperBoundIsTight | endpoint/endpoint.go:299 | for every m there is a queue estimated at m + 1 windows that takes 2(m + 1) - 1 |
| Packing.FifoDrains | queue/fifo.go:46-60 | every admissible FIFO queue drains in the windows of its own scans |
| FifoWaits.FifoBoundedWait | endpoint/endpoint.go:108-134 | over every run with scans in push order: k + 1 further scans begun at a full window have popped the ticket with k ahead once the last has made its first test, whatever arrives, wherever refills land |
| FifoWaits.HeadIsTaken | limiter/token_window.go:54-62 | the first test of a scan at a full window pops the head of the line |
| FifoWaits.PushStands | queue/fifo.go:17-25 | a push puts its ticket at the end of the line |
| FifoWaits.ScanStands | queue/fifo.go:46-60 | a front-to-back scan leaves the rejected tickets in push order |
| TokenEndpoints.AdmittedCostsInRange | endpoint/endpoint.go:145-159 | admission keeps every cost between one and a full window if and only if the default is at least one |
| TokenEndpoints.CostIsAsAsked | endpoint/endpoint.go:145-159 | helper, immediate: a positive cost within the window is admitted as asked, one above it refused, anything else costs the default |
| TokenEndpoints.ValidatedCostsInRange | config/config.go:115-125 | a validated token window stays valid under every default up to the window, and its costs are in range if and only if the default is at least one |
| TokenEndpoints.NegativeDefaultIsAccepted | config/config.go:122-124 | a validated configuration whose requests are admitted at a cost of minus one |
| TokenEndpoints.TokenEndpoint.PopFitting | endpoint/endpoint.go:124-126 | on each of the four queues the scan releases and keeps what the window allows in serve order |
| TokenEndpoints.TokenEndpoint.DebitReleased | endpoint/endpoint.go:127-133 | the counter drops by the cost of the released tickets that are not cancelled |
| TokenEndpoints.LiveMembers | endpoint/endpoint.go:127-133 | the tickets debited are those not cancelled, each as often as it was released |
| TokenEndpoints.TokenEndpoint.ReleaseTokenFitting | endpoint/endpoint.go:121-134 | an uninterrupted pass conserves tokens, leaves no queued ticket that fits, and debits what it released |
| TokenEndpoints.TokenEndpoint.DrainByWindows | endpoint/endpoint.go:106-134 | on each of the four queues refills and passes alternate until the queue is empty, in a number of windows between the estimate and twice the estimate less one; the counter loses the cost of the queue |
| Admission.CounterAndQueue | endpoint/endpoint.go:293-299 | with the books closed the counter is the queued cost less cancelled and late-cancelled cost; it is the queued cost if and only if there are neither |
| Admission.EstimateAtRest | endpoint/endpoint.go:293-300 | read with the books closed the estimate never exceeds the windows that empty the queue; without cancelled tickets the queue is empty before twice the estimate is over |
| Tickets.ScanConserves | queue/queue.go:47-53 | a selective pop tests every ticket once and puts it on exactly one side |
| Tickets.ScanSelects | queue/queue.go:47-53 | accepted and rejected tickets keep serve order, and each verdict is the predicate's answer in the state left by earlier tests |
| Tickets.SortedArrangementIsUnique | queue/priority.go:14-19 | without ties the serve order of the priority scheduler is determined |
| Tickets.SortedInFields | queue/priority.go:14-19 | helper, immediate: the serve order is by falling priority, among equals by rising arrival time |
| Queues.ServesFirst | queue/queue.go:45-53 | a scan begins with a ticket that a pop may return, and lists each queued ticket once |
| Queues.Queue.Push | queue/queue.go:43-44 | succeeds exactly while there is room, adds the ticket, else changes nothing |
| Queues.Queue.Pop | queue/queue.go:45-46 | nothing exactly if empty, else a ticket the scheduler may serve next, and only that one leaves |
| Queues.Queue.PopWhere | queue/queue.go:47-53 | for all four schedulers the result is the scan of a serve order, the queue holds the rejected tickets |
| Queues.New | queue/queue.go:11-24 | exactly four scheduler names give an empty queue of that kind and size |
| Slices.Append | queue/fifo.go:23 | the slice is extended by one, in place while capacity is left, else in a new array |
| Slices.WriteBack | queue/fifo.go:50-57 | the filter loop yields the scan although it writes over the array it reads |
| Slices.FilterInPlace | queue/fifo.go:46-60 | the front of the window holds the rejected tickets in order, with no nil |
| Fifos.FIFOQueue.Push | queue/fifo.go:17-25 | appends exactly while there is room |
| Fifos.FIFOQueue.Compact | queue/fifo.go:38-42 | copying to a smaller array leaves the queue as it is |
| Fifos.FIFOQueue.Pop | queue/fifo.go:27-44 | returns the head and keeps the tail, through nil-out and compaction |
| Fifos.FIFOQueue.PopWhere | queue/fifo.go:46-60 | the scan of the queue front to back |
| Lifos.LIFOQueue.Push | queue/lifo.go:17-25 | appends exactly while there is room |
| Lifos.LIFOQueue.Pop | queue/lifo.go:27-37 | returns the newest ticket and keeps the rest |
| Lifos.LIFOQueue.PopWhere | queue/lifo.go:39-59 | the scan back to front; what is left is in insertion order |
| Lifos.ScanBack | queue/lifo.go:44-52 | the backward loop collects accepted and rejected tickets as the scan of the stack does |
| Lifos.ReverseInPlace | queue/lifo.go:53-56 | every cell of the prefix ends up at its mirror position |
| Randoms.SwapRemoveTakesOne | queue/random.go:37-42 | whichever index is chosen, exactly the ticket there leaves |
| Randoms.RandomQueue.Pop | queue/random.go:30-44 | returns the ticket at the chosen index, the last one takes its place |
| Randoms.RandomQueue.PopWhere | queue/random.go:46-60 | the scan of the queue in array order |
| Priorities.RootIsFirst | queue/priority.go:12-19 | nothing in a heap has a higher priority than its root, and nothing of equal priority arrived earlier |
| Priorities.SiftUpStep | queue/priority.go:50-58 | one swap towards the root moves the only possible violation up |
| Priorities.SiftDownStep | queue/priority.go:60-67 | one swap with the first child moves the only possible violation down |
| Priorities.PriorityQueue.SiftUp | queue/priority.go:50-58 | restores the heap after an append, same tickets |
| Priorities.PriorityQueue.SiftDown | queue/priority.go:60-67 | restores the heap below the root, same tickets, cells beyond untouched |
| Priorities.PriorityQueue.HeapPop | queue/priority.go:26-34 | removes a ticket of the highest priority, among those one that arrived first, and leaves a heap of the others |
| Priorities.PriorityQueue.Push | queue/priority.go:50-58 | adds to a valid heap exactly while there is room |
| Priorities.PriorityQueue.Pop | queue/priority.go:60-67 | nothing if empty, else a ticket of the highest priority, among those one that arrived first |
| Priorities.PriorityQueue.TestAll | queue/priority.go:75-83 | empties the heap by falling priority and rising arrival time and splits it as the scan does |
| Priorities.PriorityQueue.PopWhere | queue/priority.go:69-88 | tests every ticket once, by falling priority and rising arrival time, and rebuilds a heap of exactly the rejected ones |
| SlidingWindows.SlidingWindowLimiter.TryGrant | limiter/sliding_window.go:44-66 | grants exactly if what is left after pruning is below the allowance; the buffer and the recorded history are those of the run model |
| SlidingWindows.AllowanceIsRateTimesWindow | limiter/sliding_window.go:56-60 | the allowance is the whole part of rate times window length, and one if that is below one |
| SlidingWindows.SlidingWindowLimiter.Wait | limiter/sliding_window.go:26-41 | the first retry at which the budget allows a grant is granted, and none before; the buffer and the history are those of the retries made, also after giving up |
| SlidingWindows.SlidingWindowLimiter.HistoryIsSafe | limiter/sliding_window.go:43-66 | whatever an object has done, no interval as long as the window holds more of its grants than rate times window length, or than one if that is below one |
| SlidingWindows.SlidingWindowLimiter.FirstOnesAreGranted | limiter/sliding_window.go:56-65 | as many first attempts of an object as rate times window length, or one, are all granted |
| SlidingWindows.PrunedIsRecent | limiter/sliding_window.go:48-54 | what pruning leaves is exactly the part of the history at most a window old |
| SlidingWindows.AttemptAgrees | limiter/sliding_window.go:56-65 | each attempt is decided as the full history would decide it |
| SlidingWindows.BufferIsExact | limiter/sliding_window.go:43-66 | over every run the limiter grants what the full history allows: all but the attempts at most a window after the grant `allowed` places back |
| SlidingWindows.FirstAttemptsSucceed | limiter/sliding_window.go:56-65 | the first `allowed` attempts succeed |
| SlidingWindows.GrantsAreSpaced | limiter/sliding_window.go:56-65 | grants `allowed` places apart are strictly more than a window apart |
| SlidingWindows.WindowSafety | limiter/sliding_window.go:43-66 | no closed interval as long as the window holds more than `allowed` grants of the full history |
| Limiters.CompensationReleasesEarly | limiter/limiter.go:39-42 | helper, immediate from the definition: compensation does not slow an endpoint down if and only if its rate is at most 1000 per second |
| Limiters.RateIsConverted | limiter/limiter.go:33-62 | helper, immediate: without compensation each algorithm gets the rate per second, sixty times less for `rpm`, with burst and window at least one |
| Limiters.CompensationShortensInterval | limiter/limiter.go:39-42 | helper, immediate: the interval shrinks by the compensation, but not below one millisecond |
| Configs.Config.ApplyDefaults | config/config.go:150-214 | inserts a root exactly if there is none and fills each endpoint, in place |
| Configs.DefaultsKeepPlaces | config/config.go:150-214 | every endpoint keeps its place and is filled; a missing root comes first |
| Configs.FillsEachField | config/config.go:176-213 | helper, immediate: field by field a set value survives and a zero one gets the default |
| Configs.SystemDefaultsEachField | config/config.go:56-62 | helper, immediate: the system values behind the configured defaults |
| Configs.AutoRootIsBlank | config/config.go:162-174 | helper, immediate: the inserted root is what an entry with nothing but its path becomes |
| Configs.InheritsEachField | config/config.go:218-256 | helper, immediate: field by field a set value survives and a zero one is the parent's |
| Configs.DefaultsAreIdempotent | config/config.go:150-214 | applying the defaults twice is applying them once; a root exists; no path is lost or invented |
| Configs.ValidateEndpoints | config/config.go:95-128 | reports the first problem of the first endpoint that has one, and nothing exactly if none has |
| Configs.ValidIff | config/config.go:95-128 | helper, immediate: validity as a conjunction over the fields |
| Configs.ProblemIsReal | config/config.go:95-128 | helper, immediate: a reported problem is one |
| Configs.StartsIff | endpoint/endpoint.go:33-64 | an endpoint starts exactly with a known scheduler, a queue size that is not negative, and a positive window or a limiter |
| Configs.ValidatedStarts | endpoint/endpoint.go:33-64 | helper, immediate from the definitions: every validated configuration starts, and a dynamic child starts exactly if its parent does |
| Paths.DirIsShorter | endpoint/registry.go:114-124 | on every string the parent is "/", ".", or shorter, so the walk ends |
| Paths.AbsIsCanonical | endpoint/registry.go:117 | a list of plain elements renders to a path that cleaning leaves alone |
| Paths.CleanNext | endpoint/registry.go:117 | cleaning one more element: nothing or "." is dropped, ".." takes the last element along, anything else is appended |
| Paths.DirOfAbs | endpoint/registry.go:117 | the parent of a canonical path drops its last element |
| Registries.Registry.New | endpoint/registry.go:44-63 | a registry exists exactly if every endpoint starts, and holds the last entry of each path |
| Registries.ParentIsLongestPrefix | endpoint/registry.go:114-130 | from a canonical path the walk picks the longest proper prefix in the table |
| Registries.SameSettingsEachField | config/config.go:31-46 | helper, immediate: same settings means every field but path and dynamic |
| Registries.NearestIsLongestPrefix | endpoint/registry.go:65-67 | the nearest configured ancestor of a canonical path is its longest configured prefix, and is missing exactly if no prefix is configured |
| Registries.Registry.FindParentLocked | endpoint/registry.go:114-130 | the loop yields the walk's result, on a canonical path the longest proper prefix in the table |
| Registries.Registry.Create | endpoint/registry.go:78-109 | the locked region looks again, then binds the path, or falls back to the ancestor |
| Registries.Registry.Match | endpoint/registry.go:68-110 | an undisturbed call has the effect of its locked region |
| Registries.WalkAgrees | endpoint/registry.go:114-130 | the walk through the table grown so far ends at the settings of the walk through the configured table |
| Registries.CurrentIsNearest | endpoint/registry.go:86-95 | what the table answers for a path are the settings of its nearest configured ancestor, also by fallback |
| Registries.LockedCreates | endpoint/registry.go:97-109 | creation never fails below the cap, because the parent started with the same settings |
| Registries.LockedKeepsSound | endpoint/registry.go:78-109 | every locked region keeps the derivation of settings, the count, the cap and all bindings |
| Registries.MatchIsHistoryIndependent | endpoint/registry.go:65-110 | after any concurrent calls, every result carries the settings of the nearest configured ancestor, and is missing exactly if there is none |
| Registries.MatchGivesLongestPrefix | endpoint/registry.go:65-110 | after any concurrent calls, a result for a canonical path carries the settings of its longest configured prefix, and is missing exactly if no prefix is configured |
| Registries.BindingsAreStable | endpoint/registry.go:68-110 | a bound path keeps its endpoint through every further step |
| Registries.OneEndpointPerPath | endpoint/registry.go:81-108 | two finished calls for one path got the same endpoint; `dynamicCount` counts the dynamic entries and respects the cap |
| Mirrors.IndexForPath | tui/model.go:252-259 | the first row of a path, or -1 |
| Mirrors.FindParentRow | tui/model.go:265-288 | the string-based walk to the nearest listed ancestor |
| Mirrors.InsertRow | tui/model.go:309-321 | the row goes before the first row of a greater path |
| Mirrors.AddDynamicEndpoint | tui/model.go:264-323 | inserts a row with the settings inferred from the nearest listed ancestor |
| Mirrors.HandleEvent | tui/model.go:197-206 | an event of an unknown path adds its row, any other leaves the list alone |
| Mirrors.InsertionKeepsOrder | tui/model.go:309-321 | a list in path order stays so and gains exactly the new row |
| Mirrors.LessIff | tui/model.go:313 | a proper prefix is less, else the first differing character decides |
| Mirrors.MinimalRowIsSystemDefault | tui/model.go:293-305 | helper, immediate: without a listed ancestor a row gets what the system defaults give an entry with nothing but a path |
| Mirrors.WalksAgree | tui/model.go:265-288 | from a canonical path both walks stop at the same settings |
| Mirrors.ObservedIsFaithful | tui/model.go:264-323 | after any events every row of a canonical path shows what the registry would serve |
| Mirrors.MirrorAgrees | tui/model.go:264-323 | list and registry always agree if and only if no path has different first and last entries |
| Mirrors.TrailingSlash | tui/model.go:268-276 | on a path with a trailing slash both walks agree if and only if the path without it is unconfigured or set like its ancestor |
| Mirrors.TrailingSlashDiffers | tui/model.go:269-274 | a configuration on which they differ |
| Mirrors.MirrorAgreesAfterAnyRun | tui/model.go:264-305 | after any run of concurrent calls and any events both sides agree on every canonical path that both know |

## Left out

- HTTP parsing, JSON responses, headers, logging and the event sink; cost, priority and
  timeout enter as inputs, and dropped events as missing ones.
- Real clocks, tickers and goroutine scheduling; ticks and interleavings are free steps
  and times are points on a non-decreasing integer clock.
- Shutdown: `Stop`, `StopAll`, context cancellation and what happens after it.
- The strict and token-bucket limiters; in the dispatch machine a grant is a free step.
- Floating point: rates are reals and `math.Ceil` is integer ceiling division; NaN,
  infinities and rounding are not part of this model.
- Machine integers: token costs and counters do not overflow.
- The branch of `estimateWait` for the other algorithms, which divides a queue length by
  a rate, and where the timeout of a request comes from.
- The random scheduler's distribution; the index is any index in range.
- The growth policy of `append`: a new array has any larger capacity.
- Go's `container/heap`, `path.Dir` and `path.Clean` are not in the repository; they
  follow Go's documentation. `heap.Init` on an empty heap does nothing.
- The mutexes of the queues: each method is one atomic region, and the token machine
  holds the queue lock across a scan.
- `Ticket.Cancel` and `IsCancelled` as methods: the flag lives in the protocol state,
  where setting and reading it are steps.
- Terminal rendering, statistics, tree labels and the selected row; attach, server, main,
  configuration loading and merging.
- The cap `max_dynamic_endpoints` is a parameter of the registry; how the server picks it
  is not part of this model.
- TokenEndpoints.TokenEndpoint.ReleaseTokenFitting: assumes that no refill, push or cancel
  lands inside the pass; the token machine covers those.
- TokenTheorems.UninterleavedScan: assumes that nothing lands inside the scan.
- TokenEndpoints.TokenEndpoint.PopFitting: assumes the same; it charges the window after
  the scan with what the predicate took, which `ConsumeEach` shows to be the same.
- TokenEndpoints.TokenEndpoint.DebitReleased: takes the cancelled tickets as a fixed set and
  leaves the sends out; the token machine reads each flag after each send.
- TokenEndpoints.TokenEndpoint.DrainByWindows: has no counterpart loop in the code; it is the
  dispatcher's loop with the ticker's when nothing arrives and no `work` signal is left.
- TokenWindows.TokenWindow.TakeReset: polls where the dispatcher's select blocks; blocking is
  part of the token machine.
- Packing.EstimateWithinFactorTwo: assumes scans that start from a full window, no
  arrivals, and no refill inside a scan; so do the other statements about windows in
  that file.
- Packing.FirstFitShortfall: does not say for every queue when first fit is the best
  choice, which is a subset-sum question; it bounds the shortfall and gives two conditions
  under which there is none.
- FifoWaits.FifoBoundedWait: takes scans in push order as a property of the run; that the
  FIFO queue keeps that order is stated for its operations one by one.
- Registries.Registry.New: requires that no configuration makes Go panic (a negative queue
  size, or a token window without length); validated configurations never do.
- Mirrors.MirrorAgrees: speaks of canonical or configured paths; trailing slashes have their
  own lemma, other paths that cleaning would change are left out.
- TokenTheorems.EveryFittingTicketIsServed: speaks of runs without new requests,
  disconnects or ticks, since a steady stream of these can delay rest for ever.
