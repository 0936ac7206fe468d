/** What a scan of the queue against a token budget packs into a window, how many
    windows a queue takes, and how that compares with the admission estimate. */
module Packing {
  import opened Tickets
  import opened TokenWindows

  /** Every cost was checked on admission. */
  predicate Admissible(capacity: int, ts: seq<Ticket>) {
    forall t <- ts :: 1 <= t.cost <= capacity
  }

  /** One scan with no refill in between. */
  function Greedy(remaining: int, order: seq<Ticket>): ScanResult<int> {
    Scan(Consume, remaining, order)
  }

  // ----- One scan -----

  /** Tokens before are tokens after plus the cost released, and no ticket left
      behind fits what remains. */
  lemma {:induction false} ScanIsMaximal(remaining: int, order: seq<Ticket>)
    requires forall t <- order :: t.cost >= 0
    ensures var r := Greedy(remaining, order);
            && remaining == r.state + Total(r.matched)
            && r.state <= remaining && (remaining >= 0 ==> r.state >= 0)
            && forall t <- r.kept :: t.cost > r.state
  {
    if order != [] {
      var n := |order| - 1;
      ScanIsMaximal(remaining, order[..n]);
      var r := Greedy(remaining, order[..n]);
      assert (r.matched + [order[n]])[..|r.matched|] == r.matched;
    }
  }

  /** The budget only shrinks along a scan. */
  lemma BudgetShrinks(remaining: int, order: seq<Ticket>, i: nat, j: nat)
    requires i <= j <= |order| && forall t <- order :: t.cost >= 0
    ensures Greedy(remaining, order[..j]).state <= Greedy(remaining, order[..i]).state
  {
    assert order[..j] == order[..i] + order[i..j];
    ScanAppend(Consume, remaining, order[..i], order[i..j]);
    ScanIsMaximal(Greedy(remaining, order[..i]).state, order[i..j]);
  }

  /** A ticket overtakes a deferred one only if it is strictly smaller. */
  lemma OvertakingIsSmaller(remaining: int, order: seq<Ticket>, i: nat, j: nat)
    requires i < j < |order| && forall t <- order :: t.cost >= 0
    requires !Accepted(Consume, remaining, order, i) && Accepted(Consume, remaining, order, j)
    ensures order[j].cost < order[i].cost
  {
    BudgetShrinks(remaining, order, i, j);
  }

  /** A scan that starts with enough for its first ticket releases it first. */
  lemma FirstIsReleased(remaining: int, order: seq<Ticket>)
    requires order != [] && order[0].cost <= remaining
    ensures var r := Greedy(remaining, order);
            r.matched != [] && r.matched[0] == order[0] && |r.kept| < |order|
  {
    assert order == [order[0]] + order[1..];
    ScanAppend(Consume, remaining, [order[0]], order[1..]);
    assert [order[0]][..0] == [];
    ScanConserves(Consume, remaining, order);
  }

  lemma KeptStaysAdmissible(capacity: int, remaining: int, order: seq<Ticket>)
    requires Admissible(capacity, order)
    ensures Admissible(capacity, Greedy(remaining, order).kept)
    ensures Total(order) == Total(Greedy(remaining, order).matched) + Total(Greedy(remaining, order).kept)
  {
    var r := Greedy(remaining, order);
    ScanConserves(Consume, remaining, order);
    forall t <- r.kept ensures t in order {
      assert t in multiset(r.matched) + multiset(r.kept);
    }
    assert multiset(r.matched + r.kept) == multiset(order);
    TotalOfPermutation(r.matched + r.kept, order);
    TotalAppend(r.matched, r.kept);
  }

  // ----- First fit against best fit -----

  /** No choice of queued tickets that fits the budget costs more than what the scan
      releases. */
  ghost predicate BestFit(remaining: int, order: seq<Ticket>) {
    forall choice: seq<Ticket> :: multiset(choice) <= multiset(order) && Total(choice) <= remaining ==>
      Total(choice) <= Total(Greedy(remaining, order).matched)
  }

  /** A scan releases everything if and only if everything fits. */
  lemma AllReleasedIffAllFits(remaining: int, order: seq<Ticket>)
    requires Admissible(remaining, order) && remaining >= 0
    ensures Greedy(remaining, order).kept == [] <==> Total(order) <= remaining
  {
    var r := Greedy(remaining, order);
    KeptStaysAdmissible(remaining, remaining, order);
    ScanIsMaximal(remaining, order);
    if r.kept != [] {
      assert r.kept[0] in r.kept;
      TotalAtLeastFirst(remaining, r.kept);
    }
  }

  lemma TotalAtLeastFirst(capacity: int, ts: seq<Ticket>)
    requires Admissible(capacity, ts) && ts != []
    ensures Total(ts) >= ts[0].cost
  {
    assert ts == [ts[0]] + ts[1..];
    TotalAppend([ts[0]], ts[1..]);
    TotalPositive(ts[1..]);
    assert [ts[0]][..0] == [];
    assert Total([ts[0]]) == ts[0].cost;
  }

  lemma SubTotal(capacity: int, choice: seq<Ticket>, order: seq<Ticket>) returns (others: seq<Ticket>)
    requires Admissible(capacity, order) && multiset(choice) <= multiset(order)
    ensures multiset(choice + others) == multiset(order) && Admissible(capacity, others)
    ensures Total(choice) + Total(others) == Total(order) && Total(others) >= 0
  {
    others := Arranged(multiset(order) - multiset(choice));
    assert multiset(choice + others) == multiset(order);
    forall t <- others ensures t in order {
      assert t in multiset(others);
      assert t in multiset(order);
    }
    TotalOfPermutation(choice + others, order);
    TotalAppend(choice, others);
    TotalPositive(others);
  }

  lemma {:induction false} Arranged(m: multiset<Ticket>) returns (ts: seq<Ticket>)
    ensures multiset(ts) == m
  {
    if m == multiset{} {
      ts := [];
    } else {
      var t :| t in m;
      var rest := Arranged(m - multiset{t});
      ts := rest + [t];
    }
  }

  /** What first fit releases falls short of any choice by less than the cheapest
      ticket it leaves behind; it is the best possible when everything fits or the
      budget is used up. */
  lemma FirstFitShortfall(remaining: int, order: seq<Ticket>)
    requires Admissible(remaining, order) && remaining >= 0
    ensures var r := Greedy(remaining, order);
            && (forall choice: seq<Ticket>, t ::
                  multiset(choice) <= multiset(order) && Total(choice) <= remaining && t in r.kept ==>
                    Total(choice) < Total(r.matched) + t.cost)
            && (r.state == 0 || Total(order) <= remaining ==> BestFit(remaining, order))
  {
    var r := Greedy(remaining, order);
    ScanIsMaximal(remaining, order);
    AllReleasedIffAllFits(remaining, order);
    KeptStaysAdmissible(remaining, remaining, order);
    forall choice: seq<Ticket> | multiset(choice) <= multiset(order) && Total(order) <= remaining
      ensures Total(choice) <= Total(r.matched)
    {
      var others := SubTotal(remaining, choice, order);
    }
  }

  /** For example a window of two or more tokens facing a ticket of one token and
      then one of a full window: the scan releases one token where a full window
      would fit, and the other order releases the full window. */
  lemma FirstFitIsNotBestFit(capacity: int, a: Ticket, b: Ticket)
    requires capacity >= 2 && a.cost == 1 && b.cost == capacity
    ensures Total(Greedy(capacity, [a, b]).matched) == 1 && Total(Greedy(capacity, [b, a]).matched) == capacity
    ensures !BestFit(capacity, [a, b])
  {
    GreedyOfTwo(capacity, a, b);
    GreedyOfTwo(capacity, b, a);
    assert multiset([b]) <= multiset([a, b]);
    TotalOfOne(a);
    TotalOfOne(b);
  }

  lemma TotalOfOne(t: Ticket)
    ensures Total([t]) == t.cost
  {
    assert [t][..0] == [];
  }

  lemma GreedyOfTwo(capacity: int, a: Ticket, b: Ticket)
    requires a.cost <= capacity && a.cost + b.cost > capacity
    ensures Greedy(capacity, [a, b]) == ScanResult([a], [b], capacity - a.cost)
  {
    assert [a, b][..1] == [a] && [a][..0] == [];
    assert Greedy(capacity, []) == ScanResult([], [], capacity);
    assert Greedy(capacity, [a]) == ScanResult([a], [], capacity - a.cost);
  }

  /** First fit is best fit on every queue if and only if a window is one token. */
  lemma FirstFitIsBestFitIff(capacity: int)
    requires capacity >= 1
    ensures (forall order :: Admissible(capacity, order) ==> BestFit(capacity, order)) <==> capacity == 1
  {
    if capacity == 1 {
      forall order | Admissible(capacity, order) ensures BestFit(capacity, order) {
        OneTokenIsBest(order);
      }
    } else {
      var a, b := Ticket(0, 0, 0, 1), Ticket(1, 0, 0, capacity);
      FirstFitIsNotBestFit(capacity, a, b);
      assert Admissible(capacity, [a, b]);
    }
  }

  lemma OneTokenIsBest(order: seq<Ticket>)
    requires Admissible(1, order)
    ensures BestFit(1, order)
  {
    ScanIsMaximal(1, order);
    FirstFitShortfall(1, order);
    if Greedy(1, order).kept == [] {
      AllReleasedIffAllFits(1, order);
    } else {
      var t := Greedy(1, order).kept[0];
      KeptStaysAdmissible(1, 1, order);
      assert t in Greedy(1, order).kept;
      assert Greedy(1, order).state == 0;
    }
  }

  // ----- Draining the queue window by window -----

  /** Consecutive windows over a queue that nothing joins: each starts full and scans
      the queued tickets in some order, the next faces the ones it kept, and none
      faces an empty queue. The order is free in every window, so every scheduler is
      covered. */
  ghost predicate Chain(capacity: int, windows: seq<seq<Ticket>>) {
    && windows != []
    && (forall i :: 0 <= i < |windows| ==> windows[i] != [])
    && (forall i :: 0 < i < |windows| ==> Follows(capacity, windows[i - 1], windows[i]))
  }

  /** The last window leaves nothing. */
  predicate Drained(capacity: int, windows: seq<seq<Ticket>>)
    requires windows != []
  {
    Greedy(capacity, windows[|windows| - 1]).kept == []
  }

  predicate Follows(capacity: int, first: seq<Ticket>, second: seq<Ticket>) {
    multiset(second) == multiset(Greedy(capacity, first).kept)
  }

  /** A window splits the queued cost into what it releases and what it leaves. */
  lemma NextWindow(capacity: int, first: seq<Ticket>, second: seq<Ticket>)
    requires Admissible(capacity, first) && Follows(capacity, first, second) && capacity >= 0
    ensures Admissible(capacity, second)
    ensures Total(first) - Total(second) == Total(Greedy(capacity, first).matched) <= capacity
  {
    var kept := Greedy(capacity, first).kept;
    KeptStaysAdmissible(capacity, capacity, first);
    SameTickets(second, kept);
    TotalOfPermutation(second, kept);
    ScanIsMaximal(capacity, first);
  }

  /** A window releases at least its first ticket. */
  lemma FirstCostIsReleased(capacity: int, order: seq<Ticket>)
    requires Admissible(capacity, order) && order != []
    ensures Total(Greedy(capacity, order).matched) >= order[0].cost
  {
    FirstIsReleased(capacity, order);
    ReleasedAreAdmissible(capacity, capacity, order);
    var m := Greedy(capacity, order).matched;
    assert m == [order[0]] + m[1..];
    TotalAppend([order[0]], m[1..]);
    TotalPositive(m[1..]);
    assert [order[0]][..0] == [];
    assert Total([order[0]]) == order[0].cost;
  }

  /** Two consecutive windows release more than one window's worth of tokens. */
  lemma TwoWindowsBeatOne(capacity: int, first: seq<Ticket>, second: seq<Ticket>)
    requires Admissible(capacity, first) && second != [] && Follows(capacity, first, second) && capacity >= 0
    ensures Total(Greedy(capacity, first).matched) + Total(Greedy(capacity, second).matched) > capacity
  {
    NextWindow(capacity, first, second);
    ScanIsMaximal(capacity, first);
    SameTickets(second, Greedy(capacity, first).kept);
    assert second[0] in second;
    FirstCostIsReleased(capacity, second);
  }

  lemma SameTickets(a: seq<Ticket>, b: seq<Ticket>)
    requires multiset(a) == multiset(b)
    ensures forall t :: t in a <==> t in b
  {
    forall t ensures t in a <==> t in b {
      assert t in a <==> t in multiset(a);
    }
  }

  lemma ReleasedAreAdmissible(capacity: int, remaining: int, order: seq<Ticket>)
    requires Admissible(capacity, order)
    ensures Admissible(capacity, Greedy(remaining, order).matched)
  {
    var r := Greedy(remaining, order);
    ScanConserves(Consume, remaining, order);
    forall t <- r.matched ensures t in order {
      assert t in multiset(r.matched) + multiset(r.kept);
    }
  }

  /** `math.Ceil` of a quotient with a positive divisor. */
  function CeilDiv(a: int, b: int): int
    requires b > 0
  {
    -((-a) / b)
  }

  lemma CeilDivBounds(a: int, b: int)
    requires b > 0
    ensures (CeilDiv(a, b) - 1) * b < a <= CeilDiv(a, b) * b
  {
    assert -a == b * ((-a) / b) + (-a) % b;
  }

  lemma CeilDivUnique(a: int, b: int, k: int)
    requires b > 0 && (k - 1) * b < a <= k * b
    ensures CeilDiv(a, b) == k
  {
    CeilDivBounds(a, b);
    var c := CeilDiv(a, b);
    if c < k {
      MulMonotone(c, k - 1, b);
    } else if c > k {
      MulMonotone(k, c - 1, b);
    }
  }

  lemma MulMonotone(x: int, y: int, b: int)
    requires x <= y && b >= 0
    ensures x * b <= y * b
  {
    assert (y - x) * b >= 0;
  }

  /** More than one divisor more is at least one quotient more. */
  lemma CeilDivStep(a: int, a': int, b: int)
    requires b > 0 && a > b + a'
    ensures CeilDiv(a, b) >= CeilDiv(a', b) + 1
  {
    CeilDivBounds(a, b);
    CeilDivBounds(a', b);
    assert (CeilDiv(a', b) - 1) * b == CeilDiv(a', b) * b - b;
    if CeilDiv(a, b) <= CeilDiv(a', b) {
      CeilDivBelow(a, b, CeilDiv(a', b));
      assert false;
    }
  }

  lemma CeilDivBelow(a: int, b: int, k: int)
    requires b > 0
    ensures CeilDiv(a, b) <= k <==> a <= k * b
  {
    CeilDivBounds(a, b);
    if CeilDiv(a, b) <= k { MulMonotone(CeilDiv(a, b), k, b); } else { MulMonotone(k, CeilDiv(a, b) - 1, b); }
  }

  lemma ChainTail(capacity: int, windows: seq<seq<Ticket>>, n: nat)
    requires Chain(capacity, windows) && n < |windows|
    ensures Chain(capacity, windows[n..]) && Drained(capacity, windows[n..]) == Drained(capacity, windows)
  {
    var tail := windows[n..];
    forall i | 0 < i < |tail| ensures Follows(capacity, tail[i - 1], tail[i]) {
      assert tail[i] == windows[n + i] && tail[i - 1] == windows[n + i - 1];
    }
  }

  lemma ChainGrows(capacity: int, windows: seq<seq<Ticket>>, next: seq<Ticket>)
    requires Chain(capacity, windows) && next != [] && Follows(capacity, windows[|windows| - 1], next)
    ensures Chain(capacity, windows + [next])
  {
    var longer := windows + [next];
    forall i | 0 < i < |longer| ensures Follows(capacity, longer[i - 1], longer[i]) {
      if i < |windows| { assert longer[i] == windows[i] && longer[i - 1] == windows[i - 1]; }
    }
  }

  /** Each window releases at most its capacity. */
  lemma {:induction false} DrainLowerBound(capacity: int, windows: seq<seq<Ticket>>)
    requires capacity > 0 && Chain(capacity, windows) && Drained(capacity, windows) && Admissible(capacity, windows[0])
    ensures Total(windows[0]) <= |windows| * capacity
    decreases |windows|
  {
    if |windows| == 1 {
      NextWindow(capacity, windows[0], []);
    } else {
      ChainTail(capacity, windows, 1);
      assert windows[1..][0] == windows[1];
      NextWindow(capacity, windows[0], windows[1]);
      DrainLowerBound(capacity, windows[1..]);
      assert |windows| * capacity == (|windows| - 1) * capacity + capacity;
    }
  }

  /** Any two consecutive windows release more than one capacity, so no chain is
      longer than this, whether or not it leaves anything. */
  lemma {:induction false} DrainUpperBound(capacity: int, windows: seq<seq<Ticket>>)
    requires capacity > 0 && Chain(capacity, windows) && Admissible(capacity, windows[0])
    ensures |windows| <= 2 * CeilDiv(Total(windows[0]), capacity) - 1
    decreases |windows|
  {
    var first := windows[0];
    TotalPositive(first);
    if |windows| == 1 {
      CeilDivBelow(Total(first), capacity, 0);
    } else {
      TwoWindowsShrink(capacity, first, windows[1]);
      if |windows| == 2 {
        CeilDivBelow(Total(first), capacity, 1);
      } else {
        ChainTail(capacity, windows, 2);
        assert windows[2..][0] == windows[2];
        NextWindow(capacity, first, windows[1]);
        NextWindow(capacity, windows[1], windows[2]);
        CeilDivStep(Total(first), Total(windows[2]), capacity);
        DrainUpperBound(capacity, windows[2..]);
      }
    }
  }

  /** What two consecutive windows take out of the queue is more than one capacity. */
  lemma TwoWindowsShrink(capacity: int, first: seq<Ticket>, second: seq<Ticket>)
    requires Admissible(capacity, first) && second != [] && Follows(capacity, first, second) && capacity > 0
    ensures Total(first) > capacity
    ensures forall third :: Follows(capacity, second, third) ==> Total(first) > capacity + Total(third)
  {
    TwoWindowsBeatOne(capacity, first, second);
    NextWindow(capacity, first, second);
    var kept := Greedy(capacity, second).kept;
    NextWindow(capacity, second, kept);
    TotalPositive(kept);
    forall third | Follows(capacity, second, third) ensures Total(third) == Total(kept) {
      TotalOfPermutation(third, kept);
    }
  }

  /** Every scheduler drains: after that many windows the queue is empty, whatever
      the orders were. */
  lemma EverySchedulerDrains(capacity: int, windows: seq<seq<Ticket>>)
    requires capacity > 0 && Chain(capacity, windows) && Admissible(capacity, windows[0])
    ensures |windows| >= 2 * CeilDiv(Total(windows[0]), capacity) - 1 ==> Drained(capacity, windows)
  {
    if |windows| >= 2 * CeilDiv(Total(windows[0]), capacity) - 1 && !Drained(capacity, windows) {
      var longer := windows + [Greedy(capacity, windows[|windows| - 1]).kept];
      ChainGrows(capacity, windows, Greedy(capacity, windows[|windows| - 1]).kept);
      assert longer[0] == windows[0];
      DrainUpperBound(capacity, longer);
      assert false;
    }
  }

  // ----- The admission estimate -----

  /** The estimate for a token window, in seconds. */
  function EstimateWait(scheduler: string, pending: int, capacity: int, windowSeconds: int): int {
    if scheduler == "lifo" || scheduler == "random" then 0
    else if capacity <= 0 then 0
    else CeilDiv(pending, capacity) * windowSeconds
  }

  /** Admission refuses a request whose estimate exceeds a positive timeout. */
  predicate TooLate(estimate: int, timeout: real) {
    timeout > 0.0 && estimate as real > timeout
  }

  /** Some windows together hold that many tokens. */
  predicate Covers(windows: int, capacity: int, pending: int) {
    pending <= windows * capacity
  }

  /** With a scheduler that cannot be predicted, without a window, and with nothing
      pending, no timeout refuses a request. */
  lemma EstimateAdmits(scheduler: string, pending: int, capacity: int, windowSeconds: int, timeout: real)
    requires windowSeconds >= 0
    requires scheduler == "lifo" || scheduler == "random" || capacity <= 0 || pending <= 0
    ensures EstimateWait(scheduler, pending, capacity, windowSeconds) <= 0
    ensures !TooLate(EstimateWait(scheduler, pending, capacity, windowSeconds), timeout)
  {
    if capacity > 0 && pending <= 0 {
      CeilDivBelow(pending, capacity, 0);
      MulMonotone(CeilDiv(pending, capacity), 0, windowSeconds);
    }
  }

  /** Otherwise the estimate is the least whole number of windows that cover what is
      pending, times the length of a window. */
  lemma EstimateIsLeastCover(scheduler: string, pending: int, capacity: int, windowSeconds: int) returns (windows: int)
    requires scheduler != "lifo" && scheduler != "random" && capacity > 0
    ensures EstimateWait(scheduler, pending, capacity, windowSeconds) == windows * windowSeconds
    ensures Covers(windows, capacity, pending) && forall m :: Covers(m, capacity, pending) ==> windows <= m
    ensures pending > 0 ==> windows >= 1
  {
    windows := CeilDiv(pending, capacity);
    CeilDivBelow(pending, capacity, windows);
    CeilDivBelow(pending, capacity, 0);
    forall m | Covers(m, capacity, pending) ensures windows <= m {
      CeilDivBelow(pending, capacity, m);
    }
  }

  /** So a request is refused if and only if more is pending than the whole windows
      within its timeout can hold. */
  lemma RefusedIffNotCovered(scheduler: string, pending: int, capacity: int, windowSeconds: int, timeout: real,
                             whole: int)
    requires scheduler != "lifo" && scheduler != "random" && capacity > 0 && windowSeconds > 0 && timeout > 0.0
    requires (whole * windowSeconds) as real <= timeout < ((whole + 1) * windowSeconds) as real
    ensures TooLate(EstimateWait(scheduler, pending, capacity, windowSeconds), timeout) <==> pending > whole * capacity
  {
    var windows := EstimateIsLeastCover(scheduler, pending, capacity, windowSeconds);
    if Covers(whole, capacity, pending) {
      MulMonotone(windows, whole, windowSeconds);
    } else {
      if windows <= whole { MulMonotone(windows, whole, capacity); }
      MulMonotone(whole + 1, windows, windowSeconds);
    }
  }

  /** With the counter equal to the queued cost, the estimated time is within a factor
      of two of the time that empties the queue, whatever the scheduler does: no
      chain of windows takes as long as twice the estimate, a chain of that length
      leaves nothing, and none that leaves nothing is shorter than the estimate. */
  lemma EstimateWithinFactorTwo(scheduler: string, capacity: int, windowSeconds: int, windows: seq<seq<Ticket>>)
    requires scheduler != "lifo" && scheduler != "random" && windowSeconds > 0
    requires capacity > 0 && Chain(capacity, windows) && Admissible(capacity, windows[0])
    ensures var estimate := EstimateWait(scheduler, Total(windows[0]), capacity, windowSeconds);
            && |windows| * windowSeconds <= 2 * estimate - windowSeconds
            && (|windows| * windowSeconds == 2 * estimate - windowSeconds ==> Drained(capacity, windows))
            && (Drained(capacity, windows) ==> estimate <= |windows| * windowSeconds)
  {
    var needed := CeilDiv(Total(windows[0]), capacity);
    DrainUpperBound(capacity, windows);
    ScaleBounds(|windows|, 2 * needed - 1, windowSeconds);
    DoubleEstimate(needed, windowSeconds);
    if |windows| == 2 * needed - 1 { EverySchedulerDrains(capacity, windows); }
    if Drained(capacity, windows) {
      DrainLowerBound(capacity, windows);
      CeilDivBelow(Total(windows[0]), capacity, |windows|);
      ScaleBounds(needed, |windows|, windowSeconds);
    }
  }

  lemma DoubleEstimate(needed: int, seconds: int)
    ensures (2 * needed - 1) * seconds == 2 * (needed * seconds) - seconds
  {
  }

  lemma ScaleBounds(x: int, y: int, seconds: int)
    requires x <= y && seconds > 0
    ensures x * seconds <= y * seconds && (x * seconds == y * seconds ==> x == y)
  {
    MulMonotone(x, y, seconds);
    if x < y { MulMonotone(x + 1, y, seconds); }
  }

  // ----- Both bounds are met -----

  /** `n` tickets of the same cost. */
  function Uniform(n: nat, cost: int): seq<Ticket> {
    seq(n, i requires 0 <= i < n => Ticket(n - i, 0, 0, cost))
  }

  lemma {:induction false} UniformTotal(n: nat, cost: int)
    ensures Total(Uniform(n, cost)) == n * cost
  {
    if n > 0 {
      var first := Ticket(n, 0, 0, cost);
      assert Uniform(n, cost) == [first] + Uniform(n - 1, cost);
      TotalAppend([first], Uniform(n - 1, cost));
      assert [first][..0] == [];
      UniformTotal(n - 1, cost);
      assert n * cost == (n - 1) * cost + cost;
    }
  }

  lemma ChainStarts(capacity: int, first: seq<Ticket>, rest: seq<seq<Ticket>>)
    requires Chain(capacity, rest) && first != [] && Follows(capacity, first, rest[0])
    ensures Chain(capacity, [first] + rest) && Drained(capacity, [first] + rest) == Drained(capacity, rest)
  {
    var windows := [first] + rest;
    forall i | 0 < i < |windows| ensures Follows(capacity, windows[i - 1], windows[i]) {
      assert windows[i] == rest[i - 1];
    }
  }

  /** The windows in which a first-in-first-out queue drains. */
  function FifoWindows(capacity: int, items: seq<Ticket>): seq<seq<Ticket>>
    requires Admissible(capacity, items)
    decreases |items|
  {
    if items == [] then [] else
      FirstIsReleased(capacity, items);
      KeptStaysAdmissible(capacity, capacity, items);
      [items] + FifoWindows(capacity, Greedy(capacity, items).kept)
  }

  lemma FifoWindowsNext(capacity: int, items: seq<Ticket>, kept: seq<Ticket>)
    requires Admissible(capacity, items) && Admissible(capacity, kept)
    requires items != [] && Greedy(capacity, items).kept == kept
    ensures FifoWindows(capacity, items) == [items] + FifoWindows(capacity, kept)
  {
  }

  predicate DrainsFrom(capacity: int, items: seq<Ticket>, windows: seq<seq<Ticket>>) {
    windows != [] && windows[0] == items && Drained(capacity, windows)
  }

  lemma OneWindow(capacity: int, items: seq<Ticket>)
    requires items != [] && Greedy(capacity, items).kept == []
    ensures Chain(capacity, [items]) && DrainsFrom(capacity, items, [items])
  {
  }

  /** A first-in-first-out queue drains in these windows. */
  lemma {:induction false} FifoDrains(capacity: int, items: seq<Ticket>)
    requires Admissible(capacity, items) && items != []
    ensures Chain(capacity, FifoWindows(capacity, items)) && DrainsFrom(capacity, items, FifoWindows(capacity, items))
    decreases |items|
  {
    var kept := Greedy(capacity, items).kept;
    FirstIsReleased(capacity, items);
    KeptStaysAdmissible(capacity, capacity, items);
    FifoWindowsNext(capacity, items, kept);
    var rest := FifoWindows(capacity, kept);
    if kept == [] {
      assert rest == [] && [items] + rest == [items];
      OneWindow(capacity, items);
    } else {
      FifoDrains(capacity, kept);
      ChainStarts(capacity, items, rest);
    }
  }

  /** No further ticket fits behind one that takes more than half. */
  lemma {:induction false} HalfIsBlocked(remaining: int, items: seq<Ticket>)
    requires forall t <- items :: t.cost > remaining
    ensures Greedy(remaining, items) == ScanResult([], items, remaining)
  {
    if items != [] {
      HalfIsBlocked(remaining, items[..|items| - 1]);
    }
  }

  /** A scan that passes `t` in the middle. */
  lemma ScanPast(remaining: int, ahead: seq<Ticket>, t: Ticket, behind: seq<Ticket>)
    ensures var r := Greedy(remaining, ahead);
            var (hit, left) := Consume(r.state, t);
            var q := Greedy(left, behind);
            Greedy(remaining, ahead + [t] + behind) ==
              if hit then ScanResult(r.matched + [t] + q.matched, r.kept + q.kept, q.state)
              else ScanResult(r.matched + q.matched, r.kept + [t] + q.kept, q.state)
  {
    ScanAppend(Consume, remaining, ahead + [t], behind);
    assert (ahead + [t])[..|ahead|] == ahead;
  }

  lemma UniformWindow(n: nat, cost: int, capacity: int)
    requires n > 0 && 1 <= cost <= capacity < 2 * cost
    ensures Greedy(capacity, Uniform(n, cost)).kept == Uniform(n - 1, cost)
  {
    var first := Ticket(n, 0, 0, cost);
    ScanPast(capacity, [], first, Uniform(n - 1, cost));
    assert Uniform(n, cost) == [] + [first] + Uniform(n - 1, cost);
    HalfIsBlocked(capacity - cost, Uniform(n - 1, cost));
  }

  lemma UniformAdmissible(n: nat, cost: int, capacity: int)
    requires 1 <= cost <= capacity
    ensures Admissible(capacity, Uniform(n, cost)) && (Uniform(n, cost) == [] <==> n == 0)
  {
  }

  lemma {:induction false} UniformDrain(n: nat, cost: int, capacity: int)
    requires 1 <= cost <= capacity < 2 * cost
    ensures Admissible(capacity, Uniform(n, cost)) && |FifoWindows(capacity, Uniform(n, cost))| == n
  {
    UniformAdmissible(n, cost, capacity);
    if n > 0 {
      UniformWindow(n, cost, capacity);
      UniformDrain(n - 1, cost, capacity);
      FifoWindowsNext(capacity, Uniform(n, cost), Uniform(n - 1, cost));
    }
  }

  /** The factor two is exact: for every m some queue whose estimate is m + 1
      windows takes 2(m + 1) - 1. */
  lemma UpperBoundIsTight(m: nat)
    ensures var capacity := 4 * m + 2;
            var items := Uniform(2 * m + 1, 2 * m + 2);
            CeilDiv(Total(items), capacity) == m + 1 && |FifoWindows(capacity, items)| == 2 * (m + 1) - 1
  {
    UniformTotal(2 * m + 1, 2 * m + 2);
    ExactWindows(m);
    UniformDrain(2 * m + 1, 2 * m + 2, 4 * m + 2);
  }

  lemma ExactWindows(m: nat)
    ensures CeilDiv((2 * m + 1) * (2 * m + 2), 4 * m + 2) == m + 1
  {
    var c := 4 * m + 2;
    assert (2 * m + 1) * (2 * m + 2) == (m + 1) * c;
    assert (m + 1 - 1) * c < (m + 1) * c by { assert (m + 1) * c == m * c + c; }
    CeilDivUnique((2 * m + 1) * (2 * m + 2), c, m + 1);
  }
}
