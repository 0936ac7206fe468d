/** The bounded last-in-first-out queue (queue/lifo.go). */
module Lifos {
  import opened Tickets
  import opened Slices

  class LIFOQueue {
    const maxSize: int
    var data: array<Cell>
    var len: nat

    ghost predicate Valid()
      reads this, data
    {
      len <= data.Length && Filled(data[..len])
    }

    /** The queued tickets in insertion order; the newest is served first. */
    ghost function Items(): (items: seq<Ticket>)
      reads this, data
      requires Valid()
      ensures |items| == len
    {
      Values(data[..len])
    }

    constructor (maxSize: int)
      ensures Valid() && fresh(data) && this.maxSize == maxSize && Items() == []
    {
      this.maxSize := maxSize;
      data := new Cell[0];
      len := 0;
    }

    method Push(t: Ticket) returns (ok: bool)
      requires Valid()
      modifies this, data
      ensures Valid() && (data == old(data) || fresh(data))
      ensures ok == (|old(Items())| < maxSize)
      ensures Items() == if ok then old(Items()) + [t] else old(Items())
    {
      if len >= maxSize {
        return false;
      }
      data := Grown(data, len, t);
      len := len + 1;
      return true;
    }

    method Pop() returns (t: Option<Ticket>)
      requires Valid()
      modifies this
      ensures Valid() && data == old(data)
      ensures old(Items()) == [] ==> t == None && Items() == []
      ensures old(Items()) != [] ==>
                var n := |old(Items())| - 1; t == Some(old(Items())[n]) && Items() == old(Items())[..n]
    {
      if len == 0 {
        return None;
      }
      t := data[len - 1];
      len := len - 1;
    }

    /** Scans back to front and reverses what is left in place, which restores
        insertion order. */
    method PopWhere<S>(fn: (S, Ticket) -> (bool, S), s: S) returns (matched: seq<Ticket>, s': S)
      requires Valid()
      modifies this
      ensures Valid() && fresh(data)
      ensures ScanResult(matched, Reversed(Items()), s') == Scan(fn, s, Reversed(old(Items())))
    {
      var remaining, kept;
      ghost var rejected;
      ServedBackwards(data[..len]);
      matched, remaining, rejected, s', kept := ScanBack(data, len, Reversed(Items()), fn, s);
      ReverseInPlace(remaining, kept, rejected);
      data, len := remaining, kept;
      RestoredOrder(data[..len], rejected);
    }

    method Len() returns (n: nat)
      requires Valid()
      ensures n == |Items()|
    {
      n := len;
    }
  }

  lemma ServedBackwards(cells: seq<Cell>)
    requires Filled(cells)
    ensures forall j :: 0 <= j < |cells| ==> cells[j] == Some(Reversed(Values(cells))[|cells| - 1 - j])
  {
  }

  lemma RestoredOrder(cells: seq<Cell>, ts: seq<Ticket>)
    requires |cells| == |ts| && forall j :: 0 <= j < |cells| ==> cells[j] == Some(ts[|ts| - 1 - j])
    ensures Filled(cells) && Reversed(Values(cells)) == ts
  {
  }

  /** The scan from back to front; the rejected tickets go to a new array, in the
      order in which they were tested. */
  method ScanBack<S>(data: array<Cell>, len: nat, ghost order: seq<Ticket>, fn: (S, Ticket) -> (bool, S), s: S)
    returns (matched: seq<Ticket>, remaining: array<Cell>, ghost rejected: seq<Ticket>, s': S, kept: nat)
    requires |order| == len <= data.Length && forall j :: 0 <= j < len ==> data[j] == Some(order[len - 1 - j])
    ensures fresh(remaining) && remaining.Length == len
    ensures ScanResult(matched, rejected, s') == Scan(fn, s, order)
    ensures kept == |rejected| <= len && forall j :: 0 <= j < kept ==> remaining[j] == Some(rejected[j])
  {
    remaining := new Cell[len](_ => None);
    var i := len;
    matched, rejected, s', kept := [], [], s, 0;
    while i > 0
      invariant 0 <= i <= len && kept == |rejected| <= len - i
      invariant ScanResult(matched, rejected, s') == Scan(fn, s, order[..len - i])
      invariant forall j :: 0 <= j < kept ==> remaining[j] == Some(rejected[j])
      modifies remaining
    {
      i := i - 1;
      assert data[i] == Some(order[len - 1 - i]);
      var t := data[i].value;
      ScanNext(fn, s, order, len - 1 - i);
      var (hit, next) := fn(s', t);
      s' := next;
      if hit {
        matched := matched + [t];
      } else {
        remaining[kept] := Some(t);
        kept := kept + 1;
        rejected := rejected + [t];
      }
    }
    assert order[..len] == order;
  }

  /** Swaps the ends of the first `n` cells towards the middle. */
  method ReverseInPlace(cells: array<Cell>, n: nat, ghost ts: seq<Ticket>)
    requires n == |ts| <= cells.Length && forall j :: 0 <= j < n ==> cells[j] == Some(ts[j])
    modifies cells
    ensures forall j :: 0 <= j < n ==> cells[j] == Some(ts[n - 1 - j])
  {
    var i, j := 0, n - 1;
    while i < j
      invariant 0 <= i <= n && i + j == n - 1
      invariant forall k :: 0 <= k < i ==> cells[k] == Some(ts[n - 1 - k])
      invariant forall k :: i <= k <= j ==> cells[k] == Some(ts[k])
      invariant forall k :: j < k < n ==> cells[k] == Some(ts[n - 1 - k])
    {
      cells[i], cells[j] := cells[j], cells[i];
      i, j := i + 1, j - 1;
    }
  }
}
