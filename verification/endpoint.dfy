/** The sequential parts of a `token_window` endpoint: admission of a cost and one
    release pass of the dispatcher (endpoint/endpoint.go). */
module TokenEndpoints {
  import opened Tickets
  import opened TokenWindows
  import opened Queues
  import opened Packing
  import Configs

  // ----- Admission -----

  /** The cost of a request: a positive `?tokens=` value, else the default. */
  function CostOf(tokens: Option<int>, defaultTokens: int): int {
    if tokens.Some? && tokens.value > 0 then tokens.value else defaultTokens
  }

  function AdmittedCost(tokens: Option<int>, defaultTokens: int, capacity: int): Option<int> {
    var cost := CostOf(tokens, defaultTokens);
    if cost > capacity then None else Some(cost)
  }

  /** A positive number of tokens within the window is admitted at exactly that cost,
      one above the window is refused, and anything else costs the default. */
  lemma CostIsAsAsked(tokens: Option<int>, defaultTokens: int, capacity: int)
    ensures var admitted := AdmittedCost(tokens, defaultTokens, capacity);
            var asked := tokens.Some? && tokens.value > 0;
            && (asked && tokens.value <= capacity ==> admitted == tokens)
            && (asked && tokens.value > capacity ==> admitted == None)
            && (!asked && defaultTokens <= capacity ==> admitted == Some(defaultTokens))
            && (!asked && defaultTokens > capacity ==> admitted == None)
  {
  }

  /** Admission alone keeps every cost between one token and a full window exactly
      when the default is at least one; validation does not demand that. */
  lemma AdmittedCostsInRange(defaultTokens: int, capacity: int)
    requires 1 <= capacity && defaultTokens <= capacity
    ensures (forall tokens :: var c := AdmittedCost(tokens, defaultTokens, capacity);
                              c.Some? ==> 1 <= c.value <= capacity)
       <==> defaultTokens >= 1
  {
    if defaultTokens < 1 {
      assert AdmittedCost(None, defaultTokens, capacity) == Some(defaultTokens);
    }
  }

  /** Validation accepts a token window endpoint under a default of any value up to
      the window. So every admitted cost of a validated endpoint is in range if and
      only if its default is at least one, which validation leaves open. */
  lemma ValidatedCostsInRange(cfg: Configs.EndpointConfig, default': int)
    requires Configs.Check(cfg).None? && cfg.algorithm == "token_window"
    ensures Configs.Check(cfg.(defaultTokens := default')).None? <==> default' <= cfg.tokensPerWindow
    ensures (forall tokens :: var c := AdmittedCost(tokens, cfg.defaultTokens, cfg.tokensPerWindow);
                              c.Some? ==> 1 <= c.value <= cfg.tokensPerWindow)
       <==> cfg.defaultTokens >= 1
  {
    AdmittedCostsInRange(cfg.defaultTokens, cfg.tokensPerWindow);
  }

  /** For example, a default of minus one passes validation and is admitted. */
  lemma NegativeDefaultIsAccepted() returns (cfg: Configs.EndpointConfig)
    ensures Configs.Check(cfg).None? && cfg.algorithm == "token_window" && cfg.defaultTokens == -1
    ensures AdmittedCost(None, cfg.defaultTokens, cfg.tokensPerWindow) == Some(-1)
  {
    cfg := Configs.EndpointConfig("/", 1.0, "rps", "fifo", "token_window", 1, "reject", 0, 1, 0.0, 0.0, 1, -1, false);
  }

  // ----- One release pass -----

  /** The tickets of a list that are not cancelled. */
  function Live(ts: seq<Ticket>, cancelled: set<Ticket>): seq<Ticket> {
    if ts == [] then [] else
      Live(ts[..|ts| - 1], cancelled) + (if ts[|ts| - 1] in cancelled then [] else [ts[|ts| - 1]])
  }

  /** Each ticket that is not cancelled stays as often as it is listed, each cancelled
      one goes. */
  lemma {:induction false} LiveMembers(ts: seq<Ticket>, cancelled: set<Ticket>, t: Ticket)
    ensures multiset(Live(ts, cancelled))[t] == if t in cancelled then 0 else multiset(ts)[t]
  {
    if ts != [] {
      var n := |ts| - 1;
      LiveMembers(ts[..n], cancelled, t);
      assert ts == ts[..n] + [ts[n]];
      if ts[n] in cancelled { assert Live(ts, cancelled) == Live(ts[..n], cancelled); }
    }
  }

  lemma LiveNext(ts: seq<Ticket>, cancelled: set<Ticket>, i: nat)
    requires i < |ts|
    ensures Total(Live(ts[..i + 1], cancelled)) ==
              Total(Live(ts[..i], cancelled)) + (if ts[i] in cancelled then 0 else ts[i].cost)
  {
    assert ts[..i + 1][..i] == ts[..i];
    var live := Live(ts[..i], cancelled);
    assert (live + [ts[i]])[..|live|] == live;
    assert live + [] == live;
  }

  /** Conservation and maximality of a scan, for the tickets of the queue. */
  lemma PassIsMaximal(kind: Kind, view: seq<Ticket>, order: seq<Ticket>, remaining: int, view': seq<Ticket>)
    requires Serves(kind, view, order) && multiset(view') == multiset(Greedy(remaining, order).kept)
    ensures (forall t <- view :: t.cost >= 0) ==>
              var r := Greedy(remaining, order);
              remaining == r.state + Total(r.matched) && forall t <- view' :: t.cost > r.state
  {
    ServesFirst(kind, view, order);
    SameTickets(order, view);
    SameTickets(view', Greedy(remaining, order).kept);
    if forall t <- view :: t.cost >= 0 {
      ScanIsMaximal(remaining, order);
    }
  }

  class Counter {
    var value: int

    constructor ()
      ensures value == 0
    {
      value := 0;
    }

    method Add(delta: int)
      modifies this
      ensures value == old(value) + delta
    {
      value := value + delta;
    }
  }

  class TokenEndpoint {
    const queue: Queue
    const window: TokenWindow
    const pendingTokens: Counter

    ghost predicate Valid()
      reads queue.Object(), queue.Footprint()
    {
      queue.Valid() && window !in queue.Footprint() && pendingTokens !in queue.Footprint()
    }

    constructor (queue: Queue, window: TokenWindow)
      requires queue.Valid() && window !in queue.Footprint()
      ensures Valid() && this.queue == queue && this.window == window && pendingTokens.value == 0 &&
                fresh(pendingTokens)
    {
      this.queue := queue;
      this.window := window;
      pendingTokens := new Counter();
    }

    method QueueLen() returns (n: nat)
      requires Valid()
      ensures n == |queue.View()|
      ensures Valid() && queue.View() == old(queue.View()) && queue.Footprint() == old(queue.Footprint())
    {
      n := queue.Len();
    }

    /** What the predicate has taken out of the window. */
    method Charge(remaining: int)
      requires Valid()
      modifies window`remaining
      ensures Valid() && queue.View() == old(queue.View()) && queue.Footprint() == old(queue.Footprint())
      ensures window.remaining == remaining
    {
      window.remaining := remaining;
    }

    /** The scan of a pass: the predicate takes tokens out of the window. */
    method PopFitting() returns (released: seq<Ticket>, ghost order: seq<Ticket>)
      requires Valid()
      modifies window`remaining, queue.Footprint()
      ensures Valid() && fresh(queue.Footprint() - old(queue.Footprint()))
      ensures Serves(queue.Kind(), old(queue.View()), order)
      ensures var r := Greedy(old(window.remaining), order);
              released == r.matched && window.remaining == r.state && multiset(queue.View()) == multiset(r.kept)
    {
      var remaining;
      released, remaining, order := queue.PopWhere(Consume, window.remaining);
      Charge(remaining);
    }

    /** The counter's share of the release loop. */
    method DebitReleased(released: seq<Ticket>, cancelled: set<Ticket>)
      requires Valid()
      modifies pendingTokens
      ensures Valid() && queue.View() == old(queue.View()) && queue.Footprint() == old(queue.Footprint())
      ensures pendingTokens.value == old(pendingTokens.value) - Total(Live(released, cancelled))
    {
      for i := 0 to |released|
        invariant pendingTokens.value == old(pendingTokens.value) - Total(Live(released[..i], cancelled))
      {
        LiveNext(released, cancelled, i);
        if released[i] !in cancelled {
          pendingTokens.Add(-released[i].cost);
        }
      }
      assert released[..|released|] == released;
    }

    /** A pass with no refill, push or cancel in between, `cancelled` being the
        tickets whose clients have gone: everything that fits in serve order is
        released and leaves the counter, unless its handler took it off already. */
    method ReleaseTokenFitting(cancelled: set<Ticket>) returns (released: seq<Ticket>, ghost order: seq<Ticket>)
      requires Valid()
      modifies pendingTokens, window`remaining, queue.Footprint()
      ensures Valid() && fresh(queue.Footprint() - old(queue.Footprint()))
      ensures Serves(queue.Kind(), old(queue.View()), order)
      ensures var r := Greedy(old(window.remaining), order);
              released == r.matched && window.remaining == r.state && multiset(queue.View()) == multiset(r.kept)
      ensures pendingTokens.value == old(pendingTokens.value) - Total(Live(released, cancelled))
      ensures (forall t <- old(queue.View()) :: t.cost >= 0) ==>
                && old(window.remaining) == window.remaining + Total(released)
                && forall t <- queue.View() :: t.cost > window.remaining
    {
      released, order := PopFitting();
      PassIsMaximal(queue.Kind(), old(queue.View()), order, old(window.remaining), queue.View());
      DebitReleased(released, cancelled);
    }

    /** A refill and the receipt of its signal leave the queue alone. */
    method AwaitReset()
      requires Valid()
      modifies window
      ensures Valid() && queue.View() == old(queue.View()) && queue.Footprint() == old(queue.Footprint())
      ensures window.remaining == window.capacity && !window.resetFull
    {
      window.Reset();
      var taken := window.TakeReset();
    }

    /** One window without arrivals: the refill, its signal, and the pass it triggers. */
    method PassAfterReset(ghost view: seq<Ticket>) returns (ghost order: seq<Ticket>, ghost left: seq<Ticket>)
      requires Valid() && queue.View() == view && Admissible(window.capacity, view)
      modifies pendingTokens, window, queue.Footprint()
      ensures Valid() && fresh(queue.Footprint() - old(queue.Footprint()))
      ensures queue.View() == left && multiset(order) == multiset(view)
      ensures multiset(left) == multiset(Greedy(window.capacity, order).kept)
      ensures pendingTokens.value == old(pendingTokens.value) - Total(Greedy(window.capacity, order).matched)
    {
      AwaitReset();
      var released;
      released, order := ReleaseTokenFitting({});
      ServesFirst(queue.Kind(), view, order);
      AllLive(released);
      left := queue.View();
    }

    /** One more window of a queue that held `view` at first. */
    method NextPass(ghost view: seq<Ticket>, ghost orders: seq<seq<Ticket>>, ghost now: seq<Ticket>)
      returns (ghost orders': seq<seq<Ticket>>, ghost left: seq<Ticket>)
      requires Valid() && queue.View() == now != [] && Progressed(window.capacity, view, orders, now)
      modifies pendingTokens, window, queue.Footprint()
      ensures Valid() && fresh(queue.Footprint() - old(queue.Footprint()))
      ensures queue.View() == left && |left| < |now| && |orders'| == |orders| + 1
      ensures Progressed(window.capacity, view, orders', left)
      ensures pendingTokens.value - Total(left) == old(pendingTokens.value) - Total(now)
    {
      ghost var order;
      order, left := PassAfterReset(now);
      NextOrder(window.capacity, view, orders, now, order, left);
      PassTakesReleased(window.capacity, now, order, left);
      orders' := orders + [order];
    }

    /** Every scheduler empties its queue, in a number of windows that the estimate
        bounds on both sides, and the counter loses exactly the cost of the queue. */
    method DrainByWindows(ghost view: seq<Ticket>) returns (windows: nat)
      requires Valid() && queue.View() == view && Admissible(window.capacity, view)
      modifies pendingTokens, window, queue.Footprint()
      ensures Valid() && queue.View() == []
      ensures pendingTokens.value == old(pendingTokens.value) - Total(view)
      ensures view == [] ==> windows == 0
      ensures view != [] ==>
                && window.capacity > 0
                && CeilDiv(Total(view), window.capacity) <= windows <= 2 * CeilDiv(Total(view), window.capacity) - 1
    {
      windows := 0;
      ghost var orders: seq<seq<Ticket>>, now := [], view;
      var len := QueueLen();
      while len > 0
        invariant Valid() && fresh(queue.Footprint() - old(queue.Footprint()))
        invariant queue.View() == now && len == |now| && windows == |orders|
        invariant pendingTokens.value - Total(now) == old(pendingTokens.value) - Total(view)
        invariant Progressed(window.capacity, view, orders, now)
        decreases len
      {
        orders, now := NextPass(view, orders, now);
        windows := windows + 1;
        len := QueueLen();
      }
      DrainedInTime(window.capacity, view, orders);
    }
  }

  /** After the windows of `orders`, the queue that held `start` holds `view`. */
  ghost predicate Progressed(capacity: int, start: seq<Ticket>, orders: seq<seq<Ticket>>, view: seq<Ticket>) {
    && Admissible(capacity, view) && Admissible(capacity, start)
    && (orders == [] ==> view == start)
    && (orders != [] ==>
          && Chain(capacity, orders) && multiset(orders[0]) == multiset(start)
          && multiset(view) == multiset(Greedy(capacity, orders[|orders| - 1]).kept))
  }

  lemma NextOrder(capacity: int, start: seq<Ticket>, orders: seq<seq<Ticket>>, before: seq<Ticket>, order: seq<Ticket>,
                  view: seq<Ticket>)
    requires Progressed(capacity, start, orders, before) && before != [] && multiset(order) == multiset(before)
    requires multiset(view) == multiset(Greedy(capacity, order).kept)
    ensures Progressed(capacity, start, orders + [order], view) && |view| < |before|
  {
    SameTickets(order, before);
    assert |multiset(order)| == |order| && |multiset(before)| == |before|;
    if orders != [] { ChainGrows(capacity, orders, order); }
    PassShrinks(capacity, order, view);
  }

  lemma PassShrinks(capacity: int, order: seq<Ticket>, view: seq<Ticket>)
    requires Admissible(capacity, order) && order != [] && multiset(view) == multiset(Greedy(capacity, order).kept)
    ensures Admissible(capacity, view) && |view| < |order|
  {
    var kept := Greedy(capacity, order).kept;
    assert order[0] in order;
    KeptStaysAdmissible(capacity, capacity, order);
    SameTickets(view, kept);
    FirstIsReleased(capacity, order);
    assert |multiset(view)| == |view| && |multiset(kept)| == |kept|;
  }

  lemma DrainedInTime(capacity: int, start: seq<Ticket>, orders: seq<seq<Ticket>>)
    requires Progressed(capacity, start, orders, [])
    ensures start == [] <==> orders == []
    ensures start != [] ==>
              capacity > 0 && CeilDiv(Total(start), capacity) <= |orders| <= 2 * CeilDiv(Total(start), capacity) - 1
  {
    if orders != [] {
      var first := orders[0];
      SameTickets(first, start);
      assert first[0] in start;
      TotalOfPermutation(first, start);
      assert |multiset(first)| == |first| && |multiset(start)| == |start|;
      var kept := Greedy(capacity, orders[|orders| - 1]).kept;
      assert |multiset(kept)| == |kept|;
      DrainLowerBound(capacity, orders);
      CeilDivBelow(Total(start), capacity, |orders|);
      DrainUpperBound(capacity, orders);
    }
  }

  lemma PassTakesReleased(capacity: int, view: seq<Ticket>, order: seq<Ticket>, view': seq<Ticket>)
    requires Admissible(capacity, view) && multiset(order) == multiset(view)
    requires multiset(view') == multiset(Greedy(capacity, order).kept)
    ensures Total(view) == Total(view') + Total(Greedy(capacity, order).matched)
  {
    SameTickets(order, view);
    KeptStaysAdmissible(capacity, capacity, order);
    TotalOfPermutation(order, view);
    TotalOfPermutation(view', Greedy(capacity, order).kept);
  }

  lemma {:induction false} AllLive(ts: seq<Ticket>)
    ensures Live(ts, {}) == ts
  {
    if ts != [] { AllLive(ts[..|ts| - 1]); }
  }
}
