/** What the token dispatch protocol guarantees in every reachable state and
    over every run. */
module TokenTheorems {
  import opened Tickets
  import opened TokenWindows
  import opened TokenDispatch
  import opened TokenInvariants

  // ----- Runs -----

  lemma ExecNext(p: Params, s: State, run: seq<Step>, u: State, step: Step)
    requires Exec(p, s, run) == Some(u) && Enabled(p, u, step)
    ensures Exec(p, s, run + [step]) == Some(Apply(p, u, step))
  {
    assert (run + [step])[..|run|] == run;
  }

  /** The last step of a run. */
  lemma ExecLast(p: Params, s: State, run: seq<Step>, step: Step)
    ensures Exec(p, s, run + [step]) ==
              match Exec(p, s, run)
              case None => None
              case Some(u) => if Enabled(p, u, step) then Some(Apply(p, u, step)) else None
  {
    assert (run + [step])[..|run|] == run;
  }

  lemma {:induction false} ExecFirst(p: Params, s: State, step: Step, run: seq<Step>)
    requires Enabled(p, s, step)
    ensures Exec(p, s, [step] + run) == Exec(p, Apply(p, s, step), run)
  {
    if run == [] {
      assert [step] + run == [] + [step];
      ExecNext(p, s, [], s, step);
    } else {
      var n := |run| - 1;
      assert [step] + run == ([step] + run[..n]) + [run[n]] && run == run[..n] + [run[n]];
      ExecFirst(p, s, step, run[..n]);
      ExecLast(p, s, [step] + run[..n], run[n]);
      ExecLast(p, Apply(p, s, step), run[..n], run[n]);
    }
  }

  // ----- Who gets in -----

  /** While no scan holds the queue, a new ticket of admissible cost can enter it
      exactly if fewer than the maximum are queued, and is refused exactly if the
      maximum is reached. */
  lemma AdmissionIsExact(p: Params, s: State, t: Ticket)
    requires Reachable(p, s) && !s.dispatcher.Scanning? && t !in s.lives && 1 <= t.cost <= p.capacity
    ensures (exists step :: Enabled(p, s, step) && t in Apply(p, s, step).queued) <==> |s.queued| < p.maxQueue
    ensures HandlerEnabled(p, s, t, RejectFull) <==> |s.queued| == p.maxQueue
    ensures HandlerEnabled(p, s, t, Push) ==>
              var s' := HandlerApply(p, s, t, Push);
              && s'.queued == s.queued + {t} && |s'.queued| == |s.queued| + 1 && At(s', t, Pushed)
              && s'.work == s.work && s'.pending == s.pending && s'.window == s.window && s'.dispatcher == s.dispatcher
    ensures HandlerEnabled(p, s, t, RejectFull) ==> HandlerApply(p, s, t, RejectFull) == s
  {
    InvReachable(p, s);
    assert t !in s.queued;
    if |s.queued| < p.maxQueue {
      assert Enabled(p, s, ByHandler(t, Push)) && t in Apply(p, s, ByHandler(t, Push)).queued;
    } else {
      forall step | Enabled(p, s, step) ensures t !in Apply(p, s, step).queued {
        OnlyPushAdds(p, s, step, t);
      }
    }
  }

  lemma OnlyPushAdds(p: Params, s: State, step: Step, t: Ticket)
    requires Enabled(p, s, step) && t !in s.queued
    ensures t in Apply(p, s, step).queued ==> step == ByHandler(t, Push) && |s.queued| < p.maxQueue
  {
  }

  /** While a scan holds the queue no handler changes it, and none is refused. */
  lemma ScanLocksQueue(p: Params, s: State, t: Ticket, h: HandlerStep)
    requires s.dispatcher.Scanning? && HandlerEnabled(p, s, t, h)
    ensures HandlerApply(p, s, t, h).queued == s.queued && !h.RejectFull?
  {
  }

  /** Between its push and its end a handler waits for nothing but its channels: for
      room in `work` once its ticket is counted, or for its release. */
  lemma HandlersWaitOnlyForChannels(p: Params, s: State, t: Ticket)
    requires t in s.lives && !s.lives[t].handler.Served? && !s.lives[t].handler.Gone?
    ensures (exists h: HandlerStep :: !h.Disconnect? && HandlerEnabled(p, s, t, h)) <==>
              && !(s.lives[t].handler.Accounted? && s.work >= p.maxQueue)
              && !(s.lives[t].handler.Waiting? && !s.lives[t].delivered)
  {
    var next := match s.lives[t].handler
      case Pushed => Account
      case Accounted => Signal
      case Waiting => TakeRelease
      case _ => CancelDebit;
    assert s.lives[t].handler.Accounted? || s.lives[t].handler.Waiting? || HandlerEnabled(p, s, t, next);
    assert s.lives[t].handler.Accounted? && s.work < p.maxQueue ==> HandlerEnabled(p, s, t, next);
    assert s.lives[t].handler.Waiting? && s.lives[t].delivered ==> HandlerEnabled(p, s, t, next);
  }

  /** At its select the dispatcher can take either kind of signal whenever there is
      one, and the ticker can signal whenever it has refilled. */
  lemma SignalsAreTaken(s: State)
    ensures s.dispatcher.Idle? ==>
              && (DispatcherEnabled(s, RecvWork) <==> s.work > 0)
              && (DispatcherEnabled(s, RecvReset) <==> s.window.resetFull)
    ensures s.window.ticker.Refilled? ==> TickerEnabled(s, SignalReset)
  {
  }

  /** The steps of the world outside are never held up: a waiting client can leave,
      which marks its ticket, and a resting ticker can refill the window. */
  lemma OutsideIsFree(p: Params, s: State)
    ensures forall t :: At(s, t, Waiting) ==>
              && HandlerEnabled(p, s, t, Disconnect)
              && At(HandlerApply(p, s, t, Disconnect), t, Cancelling)
              && HandlerApply(p, s, t, Disconnect).lives[t].cancelled
    ensures s.window.ticker.Resting? ==>
              && TickerEnabled(s, Refill)
              && TickerApply(p, s, Refill).window.remaining == p.capacity
  {
  }

  // ----- Wake-ups -----

  /** Nothing is left to do until a ticket arrives, a client leaves or the window
      is refilled. */
  ghost predicate Settled(s: State) {
    && s.dispatcher.Idle? && s.work == 0 && !s.window.resetFull && s.window.ticker.Resting?
    && forall t <- s.lives ::
         var l := s.lives[t];
         l.handler.Served? || l.handler.Gone? || (l.handler.Waiting? && !l.delivered)
  }

  /** In every reachable state a queued ticket that fits the budget is about to be
      tested: a wake-up is in flight, or the scan under way has not reached it. */
  lemma NoLostWakeUp(p: Params, s: State, t: Ticket)
    requires Reachable(p, s) && t in s.queued && t.cost <= s.window.remaining
    ensures WakeInFlight(s) || (s.dispatcher.Scanning? && t in s.dispatcher.todo)
  {
    InvReachable(p, s);
  }

  /** When everything has settled, no queued ticket fits, and every handler that
      still waits has its ticket in the queue. */
  lemma SettledLeavesNoFit(p: Params, s: State)
    requires Reachable(p, s) && Settled(s)
    ensures forall t <- s.queued :: t.cost > s.window.remaining
    ensures forall t <- s.lives :: s.lives[t].handler.Waiting? <==> t in s.queued && !s.lives[t].cancelled
  {
    InvReachable(p, s);
    SettledNoWake(s);
    forall t <- s.lives ensures s.lives[t].handler.Waiting? <==> t in s.queued && !s.lives[t].cancelled {
      assert LifeOk(s.lives[t]);
    }
  }

  lemma SettledNoWake(s: State)
    requires Settled(s)
    ensures !WakeInFlight(s)
  {
  }

  // ----- Progress -----

  /** A step that needs neither a new request, nor a disconnect, nor a tick. */
  predicate Internal(step: Step) {
    match step
    case ByHandler(_, h) => h.Account? || h.Signal? || h.TakeRelease? || h.CancelDebit?
    case ByDispatcher(_) => true
    case ByTicker(k) => k.SignalReset?
  }

  predicate AllInternal(run: seq<Step>) {
    forall step <- run :: Internal(step)
  }

  lemma {:induction false} ArrangeSet(s: set<Ticket>) returns (order: seq<Ticket>)
    ensures multiset(order) == multiset(s)
  {
    if s == {} {
      order := [];
    } else {
      var t :| t in s;
      var rest := ArrangeSet(s - {t});
      order := rest + [t];
      assert s == (s - {t}) + {t};
    }
  }

  /** The dispatcher is never stuck away from its select: its sends never block. */
  lemma DispatcherMoves(p: Params, s: State) returns (d: DispatcherStep)
    requires Placed(p, s) && !s.dispatcher.Idle?
    ensures DispatcherEnabled(s, d)
  {
    match s.dispatcher
    case Woken =>
      var order := ArrangeSet(s.queued);
      d := BeginScan(order);
    case Scanning(todo, _) =>
      d := if todo == [] then EndScan else Test;
      if todo != [] { assert todo[0] in s.queued; }
    case Releasing(rest) =>
      d := if rest == [] then Loop else Send;
      if rest != [] { assert rest[0] in Held(s.dispatcher) && LifeOk(s.lives[rest[0]]); }
    case Reading(_, _) => d := ReadFlag;
    case Debiting(_, _) => d := Debit;
  }

  /** Until everything has settled some internal step can be taken; in particular
      a handler blocked on a full `work` channel is never blocked for good. */
  lemma Progress(p: Params, s: State) returns (step: Step)
    requires Inv(p, s) && !Settled(s)
    ensures Internal(step) && Enabled(p, s, step)
  {
    if !s.dispatcher.Idle? {
      var d := DispatcherMoves(p, s);
      step := ByDispatcher(d);
    } else if s.work > 0 {
      step := ByDispatcher(RecvWork);
    } else if s.window.resetFull {
      step := ByDispatcher(RecvReset);
    } else if s.window.ticker.Refilled? {
      step := ByTicker(SignalReset);
    } else {
      var t :| t in s.lives && !s.lives[t].handler.Served? && !s.lives[t].handler.Gone? &&
        !(s.lives[t].handler.Waiting? && !s.lives[t].delivered);
      match s.lives[t].handler {
        case Pushed => step := ByHandler(t, Account);
        case Accounted => step := ByHandler(t, Signal);
        case Waiting => step := ByHandler(t, TakeRelease);
        case Cancelling => step := ByHandler(t, CancelDebit);
      }
    }
  }

  /** Bound on the internal steps one wake-up can cause. */
  function WakeCost(p: Params): nat {
    6 * p.maxQueue + 5
  }

  function LifeRank(p: Params, l: Life): nat {
    match l.handler
    case Pushed => WakeCost(p) + 3
    case Accounted => WakeCost(p) + 2
    case Waiting => if l.delivered then 1 else 0
    case Cancelling => 1
    case Served => 0
    case Gone => 0
  }

  function HandlerRank(p: Params): (Ticket, Life) -> int {
    (t: Ticket, l: Life) => LifeRank(p, l)
  }

  function DispatcherRank(p: Params, d: Dispatcher): nat {
    match d
    case Idle => 0
    case Woken => 6 * p.maxQueue + 4
    case Scanning(todo, matched) => 6 * |todo| + 5 * |matched| + 3
    case Releasing(rest) => 5 * |rest| + 2
    case Reading(_, rest) => 5 * |rest| + 5
    case Debiting(_, rest) => 5 * |rest| + 4
  }

  /** An upper bound on the internal steps that can still be taken. */
  ghost function Rank(p: Params, s: State): int {
    Weigh(s.lives, HandlerRank(p)) + WakeCost(p) * s.work
    + (if s.window.resetFull then WakeCost(p) else 0)
    + (if s.window.ticker.Refilled? then WakeCost(p) + 1 else 0)
    + DispatcherRank(p, s.dispatcher)
  }

  lemma RankNatural(p: Params, s: State)
    ensures Rank(p, s) >= 0
  {
    WeighPositive(s.lives, HandlerRank(p));
    assert WakeCost(p) * s.work >= 0;
  }

  lemma HandlerRankDecreases(p: Params, s: State, t: Ticket, h: HandlerStep)
    requires HandlerEnabled(p, s, t, h) && Internal(ByHandler(t, h))
    ensures Rank(p, HandlerApply(p, s, t, h)) < Rank(p, s)
  {
    var s' := HandlerApply(p, s, t, h);
    WeighUpdate(s.lives, HandlerRank(p), t, s'.lives[t]);
    assert s'.lives == s.lives[t := s'.lives[t]];
    assert WakeCost(p) * (s.work + 1) == WakeCost(p) * s.work + WakeCost(p);
    assert h.Signal? ==> LifeRank(p, s'.lives[t]) <= 1 && LifeRank(p, s.lives[t]) == WakeCost(p) + 2;
  }

  /** The dispatcher changes the rank of one handler only, by its delivery. */
  lemma DispatcherRankOfLives(p: Params, s: State, d: DispatcherStep)
    requires DispatcherEnabled(s, d)
    ensures Weigh(DispatcherApply(s, d).lives, HandlerRank(p)) <=
              Weigh(s.lives, HandlerRank(p)) + (if d.Send? then 1 else 0)
  {
    var s' := DispatcherApply(s, d);
    var touched := Touched(s, d);
    if touched.Some? {
      var t := touched.value;
      if s'.lives == s.lives[t := s'.lives[t]] {
        WeighUpdate(s.lives, HandlerRank(p), t, s'.lives[t]);
      }
    }
  }

  lemma TestWorksOff(p: Params, s: State)
    requires DispatcherEnabled(s, Test)
    ensures DispatcherRank(p, DispatcherApply(s, Test).dispatcher) < DispatcherRank(p, s.dispatcher)
  {
  }

  lemma BeginWorksOff(p: Params, s: State, order: seq<Ticket>)
    requires Placed(p, s) && DispatcherEnabled(s, BeginScan(order))
    ensures DispatcherRank(p, DispatcherApply(s, BeginScan(order)).dispatcher) < DispatcherRank(p, s.dispatcher)
  {
    PermutationOfSet(order, s.queued);
  }

  /** Past its wake-up the dispatcher works its own rank off. */
  lemma DispatcherWorksOff(p: Params, s: State, d: DispatcherStep)
    requires Placed(p, s) && DispatcherEnabled(s, d) && !d.RecvWork? && !d.RecvReset?
    ensures DispatcherRank(p, DispatcherApply(s, d).dispatcher) + (if d.Send? then 1 else 0)
          < DispatcherRank(p, s.dispatcher)
  {
    match d
    case BeginScan(order) => BeginWorksOff(p, s, order);
    case Test => TestWorksOff(p, s);
    case _ =>
  }

  lemma DispatcherRankDecreases(p: Params, s: State, d: DispatcherStep)
    requires Placed(p, s) && DispatcherEnabled(s, d)
    ensures Rank(p, DispatcherApply(s, d)) < Rank(p, s)
  {
    var s' := DispatcherApply(s, d);
    DispatcherRankOfLives(p, s, d);
    if d.RecvWork? {
      assert WakeCost(p) * s.work == WakeCost(p) * (s.work - 1) + WakeCost(p);
    } else if !d.RecvReset? {
      DispatcherWorksOff(p, s, d);
      assert s'.work == s.work && s'.window.resetFull == s.window.resetFull && s'.window.ticker == s.window.ticker;
    }
  }

  lemma RankDecreases(p: Params, s: State, step: Step)
    requires Inv(p, s) && Enabled(p, s, step) && Internal(step)
    ensures Rank(p, Apply(p, s, step)) < Rank(p, s)
  {
    match step
    case ByHandler(t, h) => HandlerRankDecreases(p, s, t, h);
    case ByDispatcher(d) => DispatcherRankDecreases(p, s, d);
    case ByTicker(_) =>
  }

  /** However the processes interleave, without new requests, disconnects and
      ticks they come to rest within `Rank` steps. */
  lemma {:induction false} InternalRunsAreBounded(p: Params, s: State, run: seq<Step>)
    requires Inv(p, s) && AllInternal(run) && Exec(p, s, run).Some?
    ensures |run| <= Rank(p, s) - Rank(p, Exec(p, s, run).value)
  {
    if run != [] {
      var n := |run| - 1;
      InternalRunsAreBounded(p, s, run[..n]);
      InvRun(p, s, run[..n]);
      RankDecreases(p, Exec(p, s, run[..n]).value, run[n]);
    }
  }

  /** From every reachable state, an internal run that is continued for as long as
      possible ends, after at most `Rank` steps, with no queued ticket that fits. */
  lemma EveryFittingTicketIsServed(p: Params, s: State, run: seq<Step>)
    requires Reachable(p, s) && AllInternal(run) && Exec(p, s, run).Some?
    requires forall step :: Internal(step) ==> !Enabled(p, Exec(p, s, run).value, step)
    ensures var u := Exec(p, s, run).value;
            Settled(u) && |run| <= Rank(p, s) && forall t <- u.queued :: t.cost > u.window.remaining
  {
    var u := Exec(p, s, run).value;
    InvReachable(p, s);
    InvRun(p, s, run);
    InternalRunsAreBounded(p, s, run);
    RankNatural(p, u);
    if !Settled(u) {
      var step := Progress(p, u);
      assert false;
    }
    SettledNoWake(u);
  }

  /** Such a run always exists. */
  lemma {:induction false} SomeRunSettles(p: Params, s: State) returns (run: seq<Step>)
    requires Inv(p, s)
    ensures AllInternal(run) && Exec(p, s, run).Some? && Settled(Exec(p, s, run).value)
    decreases Rank(p, s)
  {
    RankNatural(p, s);
    if Settled(s) {
      run := [];
    } else {
      var step := Progress(p, s);
      RankDecreases(p, s, step);
      InvStep(p, s, step);
      RankNatural(p, Apply(p, s, step));
      var rest := SomeRunSettles(p, Apply(p, s, step));
      run := [step] + rest;
      ExecFirst(p, s, step, rest);
    }
  }

  // ----- The counters against the run -----

  /** What the steps of a run add up to, each weighed in the state it is taken in. */
  ghost function Sum(p: Params, run: seq<Step>, w: (State, Step) -> int): int
    requires Exec(p, Init(p), run).Some?
  {
    if run == [] then 0 else
      var n := |run| - 1;
      Sum(p, run[..n], w) + w(Exec(p, Init(p), run[..n]).value, run[n])
  }

  function WorkChange(u: State, step: Step): int {
    if step.ByHandler? && step.h.Signal? then 1
    else if step.ByDispatcher? && step.d.RecvWork? then -1
    else 0
  }

  function PendingChange(u: State, step: Step): int {
    if step.ByHandler? && step.h.Account? then step.t.cost
    else if step.ByHandler? && step.h.CancelDebit? then -step.t.cost
    else if step.ByDispatcher? && step.d.Debit? && u.dispatcher.Debiting? then -u.dispatcher.t.cost
    else 0
  }

  function RefillCount(u: State, step: Step): int {
    if step.ByTicker? && step.k.Refill? then 1 else 0
  }

  /** A reset was signalled after the last one was taken. */
  predicate ResetIsNews(run: seq<Step>) {
    run != [] &&
    var last := run[|run| - 1];
    (last == ByTicker(SignalReset) || (last != ByDispatcher(RecvReset) && ResetIsNews(run[..|run| - 1])))
  }

  lemma CountersFollowStep(p: Params, u: State, step: Step)
    requires Enabled(p, u, step)
    ensures var u' := Apply(p, u, step);
            && u'.work == u.work + WorkChange(u, step) && u'.pending == u.pending + PendingChange(u, step)
            && u'.window.resets == u.window.resets + RefillCount(u, step)
            && (u'.window.resetFull <==>
                  step == ByTicker(SignalReset) || (step != ByDispatcher(RecvReset) && u.window.resetFull))
  {
  }

  /** After every run `work` holds the signals sent and not received, the counter is
      what handlers credited less what handlers and dispatcher debited, the resets are
      the refills, and the reset channel is full exactly if a reset was signalled
      after the last one was taken. */
  lemma {:induction false} CountersFollowRun(p: Params, run: seq<Step>)
    requires Exec(p, Init(p), run).Some?
    ensures var u := Exec(p, Init(p), run).value;
            && u.work == Sum(p, run, WorkChange) && u.pending == Sum(p, run, PendingChange)
            && u.window.resets == Sum(p, run, RefillCount) && (u.window.resetFull <==> ResetIsNews(run))
  {
    if run != [] {
      var n := |run| - 1;
      CountersFollowRun(p, run[..n]);
      CountersFollowStep(p, Exec(p, Init(p), run[..n]).value, run[n]);
    }
  }

  // ----- The token ledger -----

  /** Both sides are done with the ticket. */
  predicate Finished(l: Life) {
    (l.handler.Served? || l.handler.Gone?) && (l.verdict.SawCancelled? || l.verdict.Lowered?)
  }

  /** The counter is credits minus debits at all times. A finished ticket was
      credited once and debited once, by handler and dispatcher together, except
      twice when its `Cancel` came after the dispatcher's read. */
  lemma LedgerOfEachTicket(p: Params, s: State, t: Ticket)
    requires Reachable(p, s) && t in s.lives
    ensures s.pending == Weigh(s.lives, Net)
    ensures Finished(s.lives[t]) ==> s.lives[t].credits == 1 && s.lives[t].debits == (if s.lives[t].late then 2 else 1)
    ensures s.lives[t].place.Queued? ==> s.lives[t].debits == (if s.lives[t].handler.Gone? then 1 else 0)
  {
    InvReachable(p, s);
    assert LifeOk(s.lives[t]);
  }

  /** Credited and not debited: all the ticket can add to the counter. */
  function Counted(t: Ticket, l: Life): int {
    if !l.handler.Pushed? && l.debits == 0 then t.cost else 0
  }

  /** Debited by the dispatcher before its handler credited it, or debited by both. */
  predicate IsOverdrawn(l: Life) {
    l.verdict.Lowered? && (l.handler.Pushed? || l.handler.Gone?)
  }

  function Overdrawn(t: Ticket, l: Life): int {
    if IsOverdrawn(l) then t.cost else 0
  }

  lemma NetOf(t: Ticket, l: Life)
    requires LifeOk(l) && t.cost >= 1
    ensures Net(t, l) == Counted(t, l) - Overdrawn(t, l)
    ensures Net(t, l) < 0 <==> IsOverdrawn(l)
  {
    NetShift(t, l.(credits := 0, debits := 0), l, l.credits - l.debits);
  }

  /** In every reachable state: the counter is negative exactly when the overdrawn
      tickets outweigh the counted ones, so never while no ticket is overdrawn. */
  lemma CounterSign(p: Params, s: State)
    requires Reachable(p, s)
    ensures s.pending == Weigh(s.lives, Counted) - Weigh(s.lives, Overdrawn)
    ensures s.pending < 0 <==> Weigh(s.lives, Overdrawn) > Weigh(s.lives, Counted) >= 0
    ensures (forall t <- s.lives :: !IsOverdrawn(s.lives[t])) ==> s.pending >= 0
  {
    InvReachable(p, s);
    forall t <- s.lives ensures Net(t, s.lives[t]) == Counted(t, s.lives[t]) - Overdrawn(t, s.lives[t]) {
      NetOf(t, s.lives[t]);
    }
    WeighMinus(s.lives, Net, Counted, Overdrawn);
    WeighPositive(s.lives, Counted);
    WeighPositive(s.lives, Overdrawn);
  }

  function QueuedCost(t: Ticket, l: Life): int {
    if l.place.Queued? then t.cost else 0
  }

  /** Popped, and neither side has debited it. */
  function Undebited(t: Ticket, l: Life): int {
    if !l.place.Queued? && l.debits == 0 then t.cost else 0
  }

  /** Pushed, and not credited yet. */
  function Uncredited(t: Ticket, l: Life): int {
    if l.handler.Pushed? then t.cost else 0
  }

  /** Debited by its handler while it is still queued. */
  function Withdrawn(t: Ticket, l: Life): int {
    if l.place.Queued? && l.handler.Gone? then t.cost else 0
  }

  function DebitedTwice(t: Ticket, l: Life): int {
    if l.verdict.Lowered? && l.handler.Gone? then t.cost else 0
  }

  function Surplus(t: Ticket, l: Life): int {
    QueuedCost(t, l) + Undebited(t, l)
  }

  function Removed(t: Ticket, l: Life): int {
    Withdrawn(t, l) + DebitedTwice(t, l)
  }

  function Missing(t: Ticket, l: Life): int {
    Uncredited(t, l) + Removed(t, l)
  }

  lemma NetInParts(t: Ticket, l: Life)
    requires LifeOk(l)
    ensures Net(t, l) == Surplus(t, l) - Missing(t, l)
  {
    NetShift(t, l.(credits := 0, debits := 0), l, l.credits - l.debits);
  }

  /** In every reachable state the counter is the cost of the queue, plus what is
      popped and not debited, minus what is not credited yet, was withdrawn by its
      handler while queued, or was debited twice. */
  lemma LedgerAtAnyTime(p: Params, s: State)
    requires Reachable(p, s)
    ensures s.pending == Weigh(s.lives, QueuedCost) + Weigh(s.lives, Undebited)
                         - Weigh(s.lives, Uncredited) - Weigh(s.lives, Withdrawn) - Weigh(s.lives, DebitedTwice)
  {
    InvReachable(p, s);
    forall t <- s.lives ensures Net(t, s.lives[t]) == Surplus(t, s.lives[t]) - Missing(t, s.lives[t]) {
      assert LifeOk(s.lives[t]);
      NetInParts(t, s.lives[t]);
    }
    WeighMinus(s.lives, Net, Surplus, Missing);
    WeighMinus(s.lives, QueuedCost, Surplus, Undebited);
    WeighMinus(s.lives, Uncredited, Missing, Removed);
    WeighMinus(s.lives, Withdrawn, Removed, DebitedTwice);
  }

  function Owed(t: Ticket, l: Life): int {
    if l.place.Queued? && !l.cancelled then t.cost else 0
  }

  function LateCost(t: Ticket, l: Life): int {
    if l.late then t.cost else 0
  }

  ghost predicate NoneLate(lives: map<Ticket, Life>) {
    forall t <- lives :: !lives[t].late
  }

  /** No process is between two steps that belong to one change of the counter. */
  ghost predicate BooksClosed(s: State) {
    && (s.dispatcher.Idle? || s.dispatcher.Woken? || s.dispatcher == Releasing([]))
    && forall t <- s.lives :: !s.lives[t].handler.Pushed? && !s.lives[t].handler.Cancelling?
  }

  /** With the books closed the counter is the cost of the queued tickets that are
      not cancelled, minus the cost of the tickets debited twice; so it is exactly
      that cost if and only if no `Cancel` ever came after the dispatcher's read. */
  lemma CounterAtRest(p: Params, s: State)
    requires Reachable(p, s) && BooksClosed(s)
    ensures s.pending == Weigh(s.lives, Owed) - Weigh(s.lives, LateCost)
    ensures s.pending == Weigh(s.lives, Owed) <==> NoneLate(s.lives)
  {
    InvReachable(p, s);
    forall t <- s.lives ensures Net(t, s.lives[t]) == Owed(t, s.lives[t]) - LateCost(t, s.lives[t]) {
      ClosedNet(p, s, t);
    }
    WeighMinus(s.lives, Net, Owed, LateCost);
    NoLateCost(s.lives);
    assert s.pending == Weigh(s.lives, Owed) <==> Weigh(s.lives, LateCost) == 0;
  }

  lemma NoLateCost(lives: map<Ticket, Life>)
    requires forall t <- lives :: t.cost >= 1
    ensures Weigh(lives, LateCost) == 0 <==> NoneLate(lives)
  {
    WeighPositive(lives, LateCost);
    forall t <- lives ensures LateCost(t, lives[t]) == 0 <==> !lives[t].late {}
  }

  lemma ClosedNet(p: Params, s: State, t: Ticket)
    requires Placed(p, s) && BooksClosed(s) && t in s.lives
    ensures Net(t, s.lives[t]) == Owed(t, s.lives[t]) - LateCost(t, s.lives[t])
  {
    var l := s.lives[t];
    assert LifeOk(l);
    assert Held(s.dispatcher) == [];
    assert !l.place.Popped?;
    if l.place.Queued? {
      NetShift(t, l.(credits := 0, debits := 0), l, if l.cancelled then 0 else 1);
    } else {
      NetShift(t, l.(credits := 0, debits := 0), l, if l.late then -1 else 0);
    }
  }

  // ----- The token budget -----

  /** Over every run, with refills landing anywhere, the cost of all popped
      tickets is at most one window per refill plus the first window. */
  lemma BudgetSafety(p: Params, s: State)
    requires Reachable(p, s)
    ensures 0 <= s.window.remaining <= p.capacity
    ensures s.window.remaining + s.window.consumed == p.capacity
    ensures Weigh(s.lives, PoppedCost) <= (s.window.resets + 1) * p.capacity
  {
    InvReachable(p, s);
    assert (s.window.resets + 1) * p.capacity == s.window.resets * p.capacity + p.capacity;
  }

  /** Tokens spent beyond whole windows and the current one: never more than before. */
  function Excess(w: Window, capacity: int): int {
    w.spent - w.consumed - w.resets * capacity
  }

  lemma ExcessStep(p: Params, u: State, step: Step)
    requires 0 <= u.window.consumed <= p.capacity && Enabled(p, u, step)
    ensures Excess(Apply(p, u, step).window, p.capacity) <= Excess(u.window, p.capacity)
  {
    assert (u.window.resets + 1) * p.capacity == u.window.resets * p.capacity + p.capacity;
  }

  lemma WithinWindow(p: Params, s: State)
    requires Inv(p, s)
    ensures 0 <= s.window.consumed <= p.capacity && s.window.spent == Weigh(s.lives, PoppedCost)
  {
  }

  lemma {:induction false} ExcessNeverGrows(p: Params, s: State, run: seq<Step>)
    requires Inv(p, s) && Exec(p, s, run).Some?
    ensures Excess(Exec(p, s, run).value.window, p.capacity) <= Excess(s.window, p.capacity)
  {
    if run != [] {
      var n := |run| - 1;
      ExcessNeverGrows(p, s, run[..n]);
      InvRun(p, s, run[..n]);
      var u := Exec(p, s, run[..n]).value;
      WithinWindow(p, u);
      ExcessStep(p, u, run[n]);
    }
  }

  /** Over every stretch of every run: with k refills in the stretch, the tickets
      popped in it cost at most k + 1 windows. */
  lemma StretchBudget(p: Params, s: State, run: seq<Step>)
    requires Reachable(p, s) && Exec(p, s, run).Some?
    ensures var u := Exec(p, s, run).value;
            Weigh(u.lives, PoppedCost) - Weigh(s.lives, PoppedCost)
              <= (u.window.resets - s.window.resets + 1) * p.capacity
  {
    var u := Exec(p, s, run).value;
    InvReachable(p, s);
    InvRun(p, s, run);
    ExcessNeverGrows(p, s, run);
    WithinWindow(p, s);
    WithinWindow(p, u);
    SpentBetween(s.window, u.window, p.capacity);
  }

  lemma SpentBetween(w: Window, w': Window, capacity: int)
    requires Excess(w', capacity) <= Excess(w, capacity) && w.consumed >= 0 && w'.consumed <= capacity
    ensures w'.spent - w.spent <= (w'.resets - w.resets + 1) * capacity
  {
    var a, b := w.resets, w'.resets;
    assert (b - a + 1) * capacity == b * capacity - a * capacity + capacity;
  }

  // ----- Single release -----

  /** How many steps of a run send on the release channel of `t`. */
  function SendsTo(p: Params, s: State, run: seq<Step>, t: Ticket): nat
    requires Exec(p, s, run).Some?
  {
    if run == [] then 0 else
      var n := |run| - 1;
      var u := Exec(p, s, run[..n]).value;
      SendsTo(p, s, run[..n], t)
      + (if run[n] == ByDispatcher(Send) && u.dispatcher.rest[0] == t then 1 else 0)
  }

  /** Every release channel receives at most one send over a whole run: one if the
      ticket has been released, none before. */
  lemma {:induction false} ReleasedExactlyOnce(p: Params, run: seq<Step>, t: Ticket)
    requires Exec(p, Init(p), run).Some?
    ensures var u := Exec(p, Init(p), run).value;
            SendsTo(p, Init(p), run, t) == if t in u.lives && u.lives[t].place.Released? then 1 else 0
  {
    if run != [] {
      var n := |run| - 1;
      ReleasedExactlyOnce(p, run[..n], t);
      InvRun(p, Init(p), run[..n]);
      var u := Exec(p, Init(p), run[..n]).value;
      ReleaseStep(p, u, run[n], t);
    }
  }

  lemma ReleaseStep(p: Params, u: State, step: Step, t: Ticket)
    requires Placed(p, u) && Enabled(p, u, step)
    ensures var u' := Apply(p, u, step);
            var sent := step == ByDispatcher(Send) && u.dispatcher.rest[0] == t;
            && (sent ==> t in u.lives && u.lives[t].place.Popped?)
            && ((t in u'.lives && u'.lives[t].place.Released?) <==>
                sent || (t in u.lives && u.lives[t].place.Released?))
  {
    match step
    case ByHandler(v, h) =>
      if !h.Push? && !h.RejectFull? { HandlerKeepsLife(p, u, v, h); }
    case ByTicker(_) =>
    case ByDispatcher(d) =>
      if d.Send? {
        assert u.dispatcher.rest[0] in Held(u.dispatcher);
      } else if d.Test? {
        assert u.dispatcher.todo[0] in u.queued;
      }
  }

  /** The dispatcher's send finds the channel empty, so it never blocks. */
  lemma ReleaseNeverBlocks(p: Params, s: State)
    requires Reachable(p, s) && s.dispatcher.Releasing? && s.dispatcher.rest != []
    ensures DispatcherEnabled(s, Send)
  {
    InvReachable(p, s);
    var _ := DispatcherMoves(p, s);
    assert s.dispatcher.rest[0] in Held(s.dispatcher) && LifeOk(s.lives[s.dispatcher.rest[0]]);
  }

  /** Every accepted ticket is in the queue or popped and held, or released; the
      queue never exceeds its maximum. */
  lemma TicketsAreConserved(p: Params, s: State)
    requires Reachable(p, s)
    ensures |s.queued| <= p.maxQueue
    ensures forall t <- s.lives ::
              (t in s.queued <==> s.lives[t].place.Queued?) && (t in Held(s.dispatcher) <==> s.lives[t].place.Popped?)
    ensures forall t :: t in s.queued || t in Held(s.dispatcher) ==> t in s.lives
    ensures Distinct(Held(s.dispatcher))
  {
    InvReachable(p, s);
  }

  // ----- The scan of the protocol is the scan of the queue -----

  /** If nothing interleaves, testing the arranged tickets one step at a time
      pops what the selective pop of the queue yields. */
  lemma {:induction false} UninterleavedScan(p: Params, s: State, order: seq<Ticket>) returns (run: seq<Step>)
    requires Placed(p, s) && s.dispatcher.Woken? && multiset(order) == multiset(s.queued)
    ensures Exec(p, s, [ByDispatcher(BeginScan(order))] + run).Some?
    ensures var u := Exec(p, s, [ByDispatcher(BeginScan(order))] + run).value;
            var r := Scan(Consume, s.window.remaining, order);
            u.dispatcher == Releasing(r.matched) && u.window.remaining == r.state && u.queued == (set t | t in r.kept)
  {
    var begin := ByDispatcher(BeginScan(order));
    var a := Apply(p, s, begin);
    PermutationOfSet(order, s.queued);
    PlacedBegin(p, s, order);
    run := TestPrefix(p, a, order, |order|);
    var b := Exec(p, a, run).value;
    TestedAll(p, a, order, b);
    ExecNext(p, a, run, b, ByDispatcher(EndScan));
    run := run + [ByDispatcher(EndScan)];
    ExecFirst(p, s, begin, run);
  }

  /** After testing the first k tickets of the arrangement. */
  ghost predicate TestedUpTo(p: Params, a: State, order: seq<Ticket>, k: nat, u: State)
    requires k <= |order|
  {
    var r := Scan(Consume, a.window.remaining, order[..k]);
    && Placed(p, u)
    && u.dispatcher == Scanning(order[k..], r.matched) && u.window.remaining == r.state
    && (forall t :: t in u.queued <==> t in r.kept || t in order[k..])
  }

  lemma TestedAll(p: Params, a: State, order: seq<Ticket>, u: State)
    requires TestedUpTo(p, a, order, |order|, u)
    ensures var r := Scan(Consume, a.window.remaining, order);
            u.dispatcher == Scanning([], r.matched) && u.window.remaining == r.state &&
                u.queued == (set t | t in r.kept)
  {
    assert order[..|order|] == order && order[|order|..] == [];
  }

  lemma {:induction false} TestPrefix(p: Params, a: State, order: seq<Ticket>, k: nat) returns (run: seq<Step>)
    requires Placed(p, a) && a.dispatcher == Scanning(order, []) && k <= |order|
    requires forall t :: t in order <==> t in a.queued
    ensures Exec(p, a, run).Some? && TestedUpTo(p, a, order, k, Exec(p, a, run).value)
    decreases k
  {
    if k == 0 {
      run := [];
    } else {
      run := TestPrefix(p, a, order, k - 1);
      var u := Exec(p, a, run).value;
      TestNext(p, a, order, k - 1, u);
      ExecNext(p, a, run, u, ByDispatcher(Test));
      run := run + [ByDispatcher(Test)];
    }
  }

  lemma TestNext(p: Params, a: State, order: seq<Ticket>, k: nat, u: State)
    requires k < |order| && Distinct(order) && TestedUpTo(p, a, order, k, u)
    ensures DispatcherEnabled(u, Test) && TestedUpTo(p, a, order, k + 1, DispatcherApply(u, Test))
  {
    var t := order[k];
    assert order[k..] == [t] + order[k + 1..];
    assert t in u.queued;
    ScanNext(Consume, a.window.remaining, order, k);
    PlacedTest(p, u);
    TestedTicket(a.window.remaining, order, k);
    TestOne(u, t, order[k + 1..], Scan(Consume, a.window.remaining, order[..k]));
  }

  lemma TestOne(u: State, t: Ticket, rest: seq<Ticket>, r: ScanResult<int>)
    requires u.dispatcher == Scanning([t] + rest, r.matched) && u.window.remaining == r.state && t in u.lives
    requires forall v :: v in u.queued <==> v in r.kept || v in [t] + rest
    requires t !in r.kept && t !in rest
    ensures var u' := DispatcherApply(u, Test);
            var (hit, left) := Consume(r.state, t);
            && u'.dispatcher == Scanning(rest, if hit then r.matched + [t] else r.matched) &&
                u'.window.remaining == left
            && forall v :: v in u'.queued <==> v in (if hit then r.kept else r.kept + [t]) || v in rest
  {
    assert ([t] + rest)[1..] == rest;
    assert forall v :: v in [t] + rest <==> v == t || v in rest;
  }

  lemma TestedTicket(remaining: int, order: seq<Ticket>, k: nat)
    requires k < |order| && Distinct(order)
    ensures order[k] !in Scan(Consume, remaining, order[..k]).kept && order[k] !in order[k + 1..]
  {
    ScanConserves(Consume, remaining, order[..k]);
    var r := Scan(Consume, remaining, order[..k]);
    forall t <- r.kept ensures t in order[..k] {
      assert t in multiset(r.matched) + multiset(r.kept);
    }
  }
}
