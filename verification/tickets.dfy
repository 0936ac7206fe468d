/** Tickets, the serve order of the priority scheduler, and the meaning of a
    selective pop: the scan of a serve order with a predicate that carries state. */
module Tickets {

  datatype Option<+T> = None | Some(value: T)

  /** The immutable part of a queued request. `id` is its identity (the source
      compares pointers); `enqueuedAt` is a point on an integer clock. The
      `cancelled` flag and the `Release` channel belong to the protocol state. */
  datatype Ticket = Ticket(id: nat, priority: int, enqueuedAt: int, cost: int)

  // ----- Total cost -----

  function Total(ts: seq<Ticket>): int {
    if ts == [] then 0 else Total(ts[..|ts| - 1]) + ts[|ts| - 1].cost
  }

  lemma {:induction false} TotalAppend(a: seq<Ticket>, b: seq<Ticket>)
    ensures Total(a + b) == Total(a) + Total(b)
  {
    if b == [] {
      assert a + b == a;
    } else {
      var n := |b| - 1;
      assert (a + b)[..|a + b| - 1] == a + b[..n];
      TotalAppend(a, b[..n]);
    }
  }

  /** The total depends on the tickets only, not on their order. */
  lemma {:induction false} TotalOfPermutation(a: seq<Ticket>, b: seq<Ticket>)
    requires multiset(a) == multiset(b)
    ensures Total(a) == Total(b)
  {
    assert |multiset(a)| == |a| && |multiset(b)| == |b|;
    if a != [] {
      var t := a[|a| - 1];
      assert a == a[..|a| - 1] + [t];
      assert t in multiset(b);
      var i :| 0 <= i < |b| && b[i] == t;
      assert b == b[..i] + [t] + b[i + 1..];
      var rest := b[..i] + b[i + 1..];
      assert multiset(rest) == multiset(b) - multiset{t};
      assert multiset(a[..|a| - 1]) == multiset(a) - multiset{t};
      TotalOfPermutation(a[..|a| - 1], rest);
      TotalAppend(b[..i], b[i + 1..]);
      TotalAppend(b[..i], [t]);
      TotalAppend(b[..i] + [t], b[i + 1..]);
      assert [t][..0] == [];
      assert Total([t]) == t.cost;
    }
  }

  lemma {:induction false} TotalPositive(ts: seq<Ticket>)
    requires forall t <- ts :: t.cost >= 1
    ensures Total(ts) >= |ts|
  {
    if ts != [] {
      TotalPositive(ts[..|ts| - 1]);
    }
  }

  // ----- Serve order of the priority scheduler -----

  /** `t` is strictly ahead of `u`: a higher priority, or the same priority and
      an earlier arrival. */
  predicate Before(t: Ticket, u: Ticket) {
    t.priority > u.priority || (t.priority == u.priority && t.enqueuedAt < u.enqueuedAt)
  }

  predicate Sorted(ts: seq<Ticket>) {
    forall i, j :: 0 <= i < j < |ts| ==> !Before(ts[j], ts[i])
  }

  /** In a sorted arrangement priorities never rise, and among equals arrival times
      never fall; and any such arrangement is sorted. */
  lemma SortedInFields(ts: seq<Ticket>)
    ensures Sorted(ts) <==>
              forall i, j :: 0 <= i < j < |ts| ==>
                ts[i].priority >= ts[j].priority
                && (ts[i].priority == ts[j].priority ==> ts[i].enqueuedAt <= ts[j].enqueuedAt)
  {
  }

  /** Without ties there is only one sorted arrangement of the tickets. */
  lemma {:induction false} SortedArrangementIsUnique(a: seq<Ticket>, b: seq<Ticket>)
    requires Sorted(a) && Sorted(b) && multiset(a) == multiset(b)
    requires forall i, j :: 0 <= i < j < |a| ==> Before(a[i], a[j]) || Before(a[j], a[i])
    ensures a == b
  {
    assert |multiset(a)| == |a| && |multiset(b)| == |b|;
    if a != [] {
      SortedHeadIsUnique(a, b);
      TailsMatch(a, b);
      SortedArrangementIsUnique(a[1..], b[1..]);
    }
  }

  lemma TailsMatch(a: seq<Ticket>, b: seq<Ticket>)
    requires a != [] && b != [] && a[0] == b[0] && multiset(a) == multiset(b)
    ensures multiset(a[1..]) == multiset(b[1..])
    ensures a[1..] == b[1..] ==> a == b
  {
    assert a == [a[0]] + a[1..] && b == [b[0]] + b[1..];
    assert multiset(a[1..]) == multiset(a) - multiset{a[0]};
    assert multiset(b[1..]) == multiset(b) - multiset{b[0]};
  }

  lemma SortedHeadIsUnique(a: seq<Ticket>, b: seq<Ticket>)
    requires Sorted(a) && Sorted(b) && multiset(a) == multiset(b) && a != [] && b != []
    requires forall i, j :: 0 <= i < j < |a| ==> Before(a[i], a[j]) || Before(a[j], a[i])
    ensures a[0] == b[0]
  {
    assert a[0] in multiset(b) && b[0] in multiset(a);
    var i :| 0 <= i < |b| && b[i] == a[0];
    var j :| 0 <= j < |a| && a[j] == b[0];
  }

  /** The order in which a stack is served. */
  function Reversed(ts: seq<Ticket>): (rs: seq<Ticket>)
    ensures |rs| == |ts| && forall i :: 0 <= i < |ts| ==> rs[i] == ts[|ts| - 1 - i]
  {
    seq(|ts|, i requires 0 <= i < |ts| => ts[|ts| - 1 - i])
  }

  lemma {:induction false} ReversedConserves(ts: seq<Ticket>)
    ensures multiset(Reversed(ts)) == multiset(ts)
  {
    if ts != [] {
      var n := |ts| - 1;
      ReversedConserves(ts[..n]);
      assert ts == ts[..n] + [ts[n]];
      assert Reversed(ts) == [ts[n]] + Reversed(ts[..n]);
    }
  }

  // ----- Selective pop -----

  /** What a selective pop yields: the accepted tickets, the rejected ones, and
      the state of the predicate after the last test. */
  datatype ScanResult<S> = ScanResult(matched: seq<Ticket>, kept: seq<Ticket>, state: S)

  /** Tests the tickets of `order` one by one, front to back. A side-effecting
      predicate is a function from its state to a verdict and its next state. */
  function Scan<S>(fn: (S, Ticket) -> (bool, S), s: S, order: seq<Ticket>): ScanResult<S> {
    if order == [] then
      ScanResult([], [], s)
    else
      var t := order[|order| - 1];
      var r := Scan(fn, s, order[..|order| - 1]);
      var (hit, s') := fn(r.state, t);
      if hit then ScanResult(r.matched + [t], r.kept, s') else ScanResult(r.matched, r.kept + [t], s')
  }

  /** One more ticket at the end of the serve order. */
  lemma ScanNext<S>(fn: (S, Ticket) -> (bool, S), s: S, order: seq<Ticket>, i: nat)
    requires i < |order|
    ensures var r := Scan(fn, s, order[..i]);
            var (hit, s') := fn(r.state, order[i]);
            Scan(fn, s, order[..i + 1]) ==
              if hit then ScanResult(r.matched + [order[i]], r.kept, s')
                  else ScanResult(r.matched, r.kept + [order[i]], s')
  {
    assert order[..i + 1][..i] == order[..i];
  }

  /** A scan of two stretches is the scan of the first, then of the second from
      the state reached. */
  lemma {:induction false} ScanAppend<S>(fn: (S, Ticket) -> (bool, S), s: S, a: seq<Ticket>, b: seq<Ticket>)
    ensures var r := Scan(fn, s, a);
            var q := Scan(fn, r.state, b);
            Scan(fn, s, a + b) == ScanResult(r.matched + q.matched, r.kept + q.kept, q.state)
  {
    if b == [] {
      assert a + b == a;
    } else {
      var n := |b| - 1;
      assert (a + b)[..|a + b| - 1] == a + b[..n];
      ScanAppend(fn, s, a, b[..n]);
    }
  }

  /** Every ticket is tested exactly once and ends on exactly one side. */
  lemma {:induction false} ScanConserves<S>(fn: (S, Ticket) -> (bool, S), s: S, order: seq<Ticket>)
    ensures var r := Scan(fn, s, order);
            multiset(r.matched) + multiset(r.kept) == multiset(order) && |r.matched| + |r.kept| == |order|
  {
    if order != [] {
      var n := |order| - 1;
      assert order == order[..n] + [order[n]];
      ScanConserves(fn, s, order[..n]);
    }
  }

  /** The verdict on the i-th ticket of the serve order. */
  predicate Accepted<S>(fn: (S, Ticket) -> (bool, S), s: S, order: seq<Ticket>, i: nat)
    requires i < |order|
  {
    fn(Scan(fn, s, order[..i]).state, order[i]).0
  }

  /** The tickets of `order` at the positions in `at`, in order. */
  function Select(order: seq<Ticket>, at: set<nat>): seq<Ticket> {
    if order == [] then []
    else Select(order[..|order| - 1], at) + (if |order| - 1 in at then [order[|order| - 1]] else [])
  }

  lemma {:induction false} SelectAgrees(order: seq<Ticket>, a: set<nat>, b: set<nat>)
    requires forall i :: 0 <= i < |order| ==> (i in a <==> i in b)
    ensures Select(order, a) == Select(order, b)
  {
    if order != [] { SelectAgrees(order[..|order| - 1], a, b); }
  }

  /** The accepted tickets come back in serve order, the rejected ones stay in
      serve order, and each verdict is the predicate's answer in the state left
      by the tests before it. */
  lemma {:induction false} ScanSelects<S>(fn: (S, Ticket) -> (bool, S), s: S, order: seq<Ticket>)
    ensures var hits := set i | 0 <= i < |order| && Accepted(fn, s, order, i);
            var misses := set i | 0 <= i < |order| && !Accepted(fn, s, order, i);
            Scan(fn, s, order).matched == Select(order, hits) && Scan(fn, s, order).kept == Select(order, misses)
  {
    if order != [] {
      var n := |order| - 1;
      var init := order[..n];
      ScanSelects(fn, s, init);
      var hits: set<nat> := set i | 0 <= i < |order| && Accepted(fn, s, order, i);
      var misses: set<nat> := set i | 0 <= i < |order| && !Accepted(fn, s, order, i);
      var hits0: set<nat> := set i | 0 <= i < n && Accepted(fn, s, init, i);
      var misses0: set<nat> := set i | 0 <= i < n && !Accepted(fn, s, init, i);
      forall i: nat | i < n ensures Accepted(fn, s, order, i) == Accepted(fn, s, init, i) {
        assert init[..i] == order[..i];
      }
      SelectAgrees(init, hits, hits0);
      SelectAgrees(init, misses, misses0);
    }
  }

  /** An arrangement of a set lists each member exactly once. */
  lemma PermutationOfSet(order: seq<Ticket>, s: set<Ticket>)
    requires multiset(order) == multiset(s)
    ensures |order| == |s| && (forall t :: t in order <==> t in s)
    ensures forall i, j :: 0 <= i < j < |order| ==> order[i] != order[j]
  {
    assert |multiset(order)| == |order| && |multiset(s)| == |s|;
    forall t ensures t in order <==> t in s {
      assert t in order <==> t in multiset(order);
    }
    forall i, j | 0 <= i < j < |order| ensures order[i] != order[j] {
      assert order == order[..i] + [order[i]] + order[i + 1..];
      assert multiset(order)[order[i]] == 1;
      assert order[i] !in multiset(order[i + 1..]);
      assert order[j] in order[i + 1..];
    }
  }
}
