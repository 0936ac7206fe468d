/** The bounded priority queue over a binary heap (queue/priority.go with the
    sift operations of Go's container/heap). */
module Priorities {
  import opened Tickets

  // ----- Heaps -----

  function Parent(k: int): int { (k - 1) / 2 }

  /** `k` may sit below its parent. */
  predicate OrderedAt(h: seq<Ticket>, k: int)
    requires 0 < k < |h|
  {
    !Before(h[k], h[Parent(k)])
  }

  predicate Heap(h: seq<Ticket>) {
    forall k :: 0 < k < |h| ==> OrderedAt(h, k)
  }

  /** Nothing in a heap is ahead of its root. */
  lemma {:induction false} RootIsFirst(h: seq<Ticket>, k: nat)
    requires Heap(h) && k < |h|
    ensures !Before(h[k], h[0])
    ensures h[k].priority <= h[0].priority && (h[k].priority == h[0].priority ==> h[0].enqueuedAt <= h[k].enqueuedAt)
    decreases k
  {
    if k > 0 {
      assert OrderedAt(h, k);
      RootIsFirst(h, Parent(k));
    }
  }

  function Swapped(h: seq<Ticket>, i: int, j: int): seq<Ticket>
    requires 0 <= i < |h| && 0 <= j < |h|
  {
    h[i := h[j]][j := h[i]]
  }

  lemma SwappedConserves(h: seq<Ticket>, i: int, j: int)
    requires 0 <= i < |h| && 0 <= j < |h|
    ensures multiset(Swapped(h, i, j)) == multiset(h)
  {
    assert multiset(h[i := h[j]]) == multiset(h) - multiset{h[i]} + multiset{h[j]};
  }

  /** Everything is in order except that `j` may be ahead of its parent; what is
      below `j` is not ahead of what is above it. */
  predicate HeapExceptUp(h: seq<Ticket>, j: int) {
    && 0 <= j < |h|
    && (forall k :: 0 < k < |h| && k != j ==> OrderedAt(h, k))
    && (j > 0 ==> forall k :: 0 < k < |h| && Parent(k) == j ==> !Before(h[k], h[Parent(j)]))
  }

  /** Everything in the first `n` is in order except that children of `i` may be
      ahead of it; they are not ahead of what is above it. */
  predicate HeapExceptDown(h: seq<Ticket>, i: int, n: int) {
    && 0 <= i && n <= |h|
    && (forall k :: 0 < k < n && Parent(k) != i ==> OrderedAt(h, k))
    && (i > 0 ==> forall k :: 0 < k < n && Parent(k) == i ==> !Before(h[k], h[Parent(i)]))
  }

  lemma SiftUpStep(h: seq<Ticket>, j: int)
    requires HeapExceptUp(h, j) && j > 0 && Before(h[j], h[Parent(j)])
    ensures HeapExceptUp(Swapped(h, Parent(j), j), Parent(j))
  {
    var i := Parent(j);
    var g := Swapped(h, i, j);
    forall k | 0 < k < |g| && k != i ensures OrderedAt(g, k) {
      if k != j { assert OrderedAt(h, k); }
      if i > 0 { assert OrderedAt(h, i); }
    }
    if i > 0 {
      forall k | 0 < k < |g| && Parent(k) == i ensures !Before(g[k], g[Parent(i)]) {
        assert OrderedAt(h, i);
        if k != j { assert OrderedAt(h, k); }
      }
    }
  }

  lemma SiftDownStep(h: seq<Ticket>, i: int, j: int, n: int)
    requires HeapExceptDown(h, i, n) && i < j < n && Parent(j) == i && Before(h[j], h[i])
    requires forall k :: 0 < k < n && Parent(k) == i ==> !Before(h[k], h[j])
    ensures HeapExceptDown(Swapped(h, i, j), j, n)
  {
    var g := Swapped(h, i, j);
    forall k | 0 < k < n && Parent(k) != j ensures OrderedAt(g, k) {
      if Parent(k) != i { assert OrderedAt(h, k); }
    }
    forall k | 0 < k < n && Parent(k) == j ensures !Before(g[k], g[Parent(j)]) {
      assert OrderedAt(h, k);
    }
  }

  // ----- The queue -----

  class PriorityQueue {
    const maxSize: int
    var h: seq<Ticket>

    ghost predicate Valid()
      reads this
    {
      Heap(h)
    }

    constructor (maxSize: int)
      ensures Valid() && this.maxSize == maxSize && h == []
    {
      this.maxSize := maxSize;
      h := [];
    }

    method Swap(i: int, j: int)
      requires 0 <= i < |h| && 0 <= j < |h|
      modifies this`h
      ensures h == Swapped(old(h), i, j) && multiset(h) == multiset(old(h))
    {
      h := h[i := h[j]][j := h[i]];
      SwappedConserves(old(h), i, j);
    }

    method SiftUp(from: nat)
      requires HeapExceptUp(h, from)
      modifies this`h
      ensures Heap(h) && multiset(h) == multiset(old(h)) && |h| == |old(h)|
    {
      var j: int := from;
      while true
        invariant HeapExceptUp(h, j)
        invariant multiset(h) == multiset(old(h)) && |h| == |old(h)|
        decreases j
      {
        var i := if j == 0 then 0 else (j - 1) / 2;
        if i == j || !Before(h[j], h[i]) {
          break;
        }
        SiftUpStep(h, j);
        Swap(i, j);
        j := i;
      }
    }

    /** Leaves the cells from `n` on alone. */
    method SiftDown(n: nat)
      requires n <= |h| && HeapExceptDown(h, 0, n)
      modifies this`h
      ensures |h| == |old(h)| && Heap(h[..n]) && multiset(h) == multiset(old(h)) && h[n..] == old(h)[n..]
    {
      var i := 0;
      while true
        invariant n <= |h| == |old(h)| && HeapExceptDown(h, i, n)
        invariant multiset(h) == multiset(old(h)) && h[n..] == old(h)[n..]
        decreases n - i
      {
        var j1 := 2 * i + 1;
        if j1 >= n {
          break;
        }
        var j := j1;
        var j2 := j1 + 1;
        if j2 < n && Before(h[j2], h[j1]) {
          j := j2;
        }
        assert forall k :: 0 < k < n && Parent(k) == i ==> k == j1 || k == j2;
        if !Before(h[j], h[i]) {
          break;
        }
        SiftDownStep(h, i, j, n);
        Swap(i, j);
        i := j;
      }
      forall k | 0 < k < n ensures OrderedAt(h[..n], k) {
        assert OrderedAt(h, k);
      }
    }

    method HeapPush(t: Ticket)
      requires Valid()
      modifies this`h
      ensures Valid() && multiset(h) == multiset(old(h)) + multiset{t} && |h| == |old(h)| + 1
    {
      h := h + [t];
      forall k | 0 < k < |h| && k != |h| - 1 ensures OrderedAt(h, k) {
        assert OrderedAt(old(h), k);
      }
      SiftUp(|h| - 1);
    }

    /** Moves the root to the end, restores the order of the rest, and cuts. */
    method HeapPop() returns (t: Ticket)
      requires Valid() && h != []
      modifies this`h
      ensures Valid() && |h| == |old(h)| - 1
      ensures t == old(h)[0] && multiset(h) + multiset{t} == multiset(old(h))
      ensures forall u <- old(h) :: !Before(u, t)
      ensures forall u <- old(h) ::
                u.priority <= t.priority && (u.priority == t.priority ==> t.enqueuedAt <= u.enqueuedAt)
    {
      var n := |h| - 1;
      forall u <- h ensures !Before(u, h[0]) {
        var k: nat :| k < |h| && h[k] == u;
        RootIsFirst(h, k);
      }
      Swap(0, n);
      forall k | 0 < k < n && Parent(k) != 0 ensures OrderedAt(h, k) {
        assert OrderedAt(old(h), k);
      }
      SiftDown(n);
      t := h[n];
      assert h[n..][0] == t && h == h[..n] + [t];
      h := h[..n];
    }

    method Push(t: Ticket) returns (ok: bool)
      requires Valid()
      modifies this`h
      ensures Valid() && ok == (|old(h)| < maxSize)
      ensures if ok then multiset(h) == multiset(old(h)) + multiset{t} && |h| == |old(h)| + 1 else h == old(h)
    {
      if |h| >= maxSize {
        return false;
      }
      HeapPush(t);
      return true;
    }

    /** A ticket that no other precedes. */
    method Pop() returns (t: Option<Ticket>)
      requires Valid()
      modifies this`h
      ensures Valid()
      ensures old(h) == [] ==> t == None && h == []
      ensures old(h) != [] ==>
                && t.Some? && multiset(h) + multiset{t.value} == multiset(old(h))
                && (forall u <- old(h) :: !Before(u, t.value))
                && forall u <- old(h) ::
                     u.priority <= t.value.priority
                     && (u.priority == t.value.priority ==> t.value.enqueuedAt <= u.enqueuedAt)
    {
      if h == [] {
        return None;
      }
      var top := HeapPop();
      return Some(top);
    }

    /** The first half of a selective pop: pops everything in serve order, testing as
        it goes. */
    method TestAll<S>(fn: (S, Ticket) -> (bool, S), s: S)
      returns (matched: seq<Ticket>, keep: seq<Ticket>, s': S, ghost order: seq<Ticket>)
      requires Valid()
      modifies this`h
      ensures h == [] && Sorted(order) && multiset(order) == multiset(old(h))
      ensures forall i, j :: 0 <= i < j < |order| ==>
                order[i].priority >= order[j].priority
                && (order[i].priority == order[j].priority ==> order[i].enqueuedAt <= order[j].enqueuedAt)
      ensures Scan(fn, s, order) == ScanResult(matched, keep, s')
    {
      matched, keep, s', order := [], [], s, [];
      while |h| > 0
        invariant Heap(h)
        invariant multiset(order) + multiset(h) == multiset(old(h))
        invariant Sorted(order) && NoneAhead(h, order)
        invariant Scan(fn, s, order) == ScanResult(matched, keep, s')
        decreases |h|
      {
        ghost var before := h;
        var t := HeapPop();
        NextInOrder(order, before, h, t);
        assert (order + [t])[..|order|] == order;
        var (hit, next) := fn(s', t);
        s' := next;
        if hit {
          matched := matched + [t];
        } else {
          keep := keep + [t];
        }
        order := order + [t];
      }
    }

    /** The second half: pushes the rejected tickets back. */
    method PushAll(keep: seq<Ticket>)
      requires h == []
      modifies this`h
      ensures Valid() && multiset(h) == multiset(keep) && |h| == |keep|
    {
      for i := 0 to |keep|
        invariant Heap(h) && multiset(h) == multiset(keep[..i]) && |h| == i
      {
        assert keep[..i + 1] == keep[..i] + [keep[i]];
        HeapPush(keep[i]);
      }
      assert keep[..|keep|] == keep;
    }

    method PopWhere<S>(fn: (S, Ticket) -> (bool, S), s: S)
      returns (matched: seq<Ticket>, s': S, ghost order: seq<Ticket>, ghost rejected: seq<Ticket>)
      requires Valid()
      modifies this`h
      ensures Valid()
      ensures Sorted(order) && multiset(order) == multiset(old(h))
      ensures forall i, j :: 0 <= i < j < |order| ==>
                order[i].priority >= order[j].priority
                && (order[i].priority == order[j].priority ==> order[i].enqueuedAt <= order[j].enqueuedAt)
      ensures Scan(fn, s, order) == ScanResult(matched, rejected, s')
      ensures multiset(h) == multiset(rejected) && |h| == |rejected|
    {
      var keep;
      matched, keep, s', order := TestAll(fn, s);
      PushAll(keep);
      rejected := keep;
    }

    method Len() returns (n: nat)
      ensures n == |h|
    {
      n := |h|;
    }
  }

  /** Nothing still in the heap is ahead of a ticket popped before. */
  ghost predicate NoneAhead(h: seq<Ticket>, order: seq<Ticket>) {
    forall t <- order, u <- h :: !Before(u, t)
  }

  lemma NextInOrder(order: seq<Ticket>, before: seq<Ticket>, h: seq<Ticket>, t: Ticket)
    requires Sorted(order) && NoneAhead(before, order) && forall u <- before :: !Before(u, t)
    requires multiset(h) + multiset{t} == multiset(before)
    ensures Sorted(order + [t]) && NoneAhead(h, order + [t])
  {
    FewerInBag(h, before, t);
    assert forall i :: 0 <= i < |order| ==> order[i] in order;
  }

  lemma FewerInBag(h: seq<Ticket>, before: seq<Ticket>, t: Ticket)
    requires multiset(h) + multiset{t} == multiset(before)
    ensures t in before && forall u <- h :: u in before
  {
    assert t in multiset(before);
    forall u <- h ensures u in before {
      assert u in multiset(h);
      assert u in multiset(before);
    }
  }
}
