/** The bounded queue served in random order (queue/random.go). */
module Randoms {
  import opened Tickets
  import opened Slices

  /** Position `i` filled from the end, and the end dropped. */
  function SwapRemove(items: seq<Ticket>, i: nat): seq<Ticket>
    requires i < |items|
  {
    items[i := items[|items| - 1]][..|items| - 1]
  }

  /** Whichever position is chosen, exactly the ticket there leaves. */
  lemma SwapRemoveTakesOne(items: seq<Ticket>, i: nat)
    requires i < |items|
    ensures multiset(SwapRemove(items, i)) + multiset{items[i]} == multiset(items)
  {
    var last := |items| - 1;
    assert items == items[..last] + [items[last]];
    if i < last {
      assert items[..last] == items[..i] + [items[i]] + items[i + 1..last];
      assert SwapRemove(items, i) == items[..i] + [items[last]] + items[i + 1..last];
    } else {
      assert SwapRemove(items, i) == items[..last];
    }
  }

  class RandomQueue {
    const maxSize: int
    var data: array<Cell>
    var len: nat

    ghost predicate Valid()
      reads this, data
    {
      len <= data.Length && Filled(data[..len])
    }

    ghost function Items(): (items: seq<Ticket>)
      reads this, data
      requires Valid()
      ensures |items| == len
    {
      Values(data[..len])
    }

    constructor (maxSize: int)
      ensures Valid() && fresh(data) && this.maxSize == maxSize && Items() == []
    {
      this.maxSize := maxSize;
      data := new Cell[0];
      len := 0;
    }

    method Push(t: Ticket) returns (ok: bool)
      requires Valid()
      modifies this, data
      ensures Valid() && (data == old(data) || fresh(data))
      ensures ok == (|old(Items())| < maxSize)
      ensures Items() == if ok then old(Items()) + [t] else old(Items())
    {
      if len >= maxSize {
        return false;
      }
      data := Grown(data, len, t);
      len := len + 1;
      return true;
    }

    /** The random index is any index in range. */
    method Pop() returns (t: Option<Ticket>, ghost i: nat)
      requires Valid()
      modifies this, data
      ensures Valid() && data == old(data)
      ensures old(Items()) == [] ==> t == None && Items() == []
      ensures old(Items()) != [] ==>
                i < |old(Items())| && t == Some(old(Items())[i]) && Items() == SwapRemove(old(Items()), i)
    {
      if len == 0 {
        return None, 0;
      }
      var at: nat :| at < len;
      i := at;
      ghost var items := Items();
      t := data[at];
      data[at] := data[len - 1];
      data[len - 1] := None;
      len := len - 1;
      assert Values(data[..len]) == SwapRemove(items, at);
    }

    method PopWhere<S>(fn: (S, Ticket) -> (bool, S), s: S) returns (matched: seq<Ticket>, s': S)
      requires Valid()
      modifies this, data
      ensures Valid() && data == old(data)
      ensures ScanResult(matched, Items(), s') == Scan(fn, s, old(Items()))
    {
      var kept;
      assert data[0..0 + len] == data[..len];
      matched, kept, s' := FilterInPlace(data, 0, len, fn, s);
      len := kept;
      assert data[0..0 + len] == data[..len];
    }

    method Len() returns (n: nat)
      requires Valid()
      ensures n == |Items()|
    {
      n := len;
    }
  }
}
