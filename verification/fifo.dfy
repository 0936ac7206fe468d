/** The bounded first-in-first-out queue (queue/fifo.go). */
module Fifos {
  import opened Tickets
  import opened Slices

  class FIFOQueue {
    const maxSize: int
    var data: array<Cell>
    var start: nat
    var len: nat

    ghost predicate Valid()
      reads this, data
    {
      start + len <= data.Length && Filled(data[start..start + len])
    }

    /** The queued tickets, oldest first. */
    ghost function Items(): (items: seq<Ticket>)
      reads this, data
      requires Valid()
      ensures |items| == len
    {
      Values(data[start..start + len])
    }

    constructor (maxSize: int)
      ensures Valid() && fresh(data) && this.maxSize == maxSize && Items() == []
    {
      this.maxSize := maxSize;
      data := new Cell[0];
      start, len := 0, 0;
    }

    method Push(t: Ticket) returns (ok: bool)
      requires Valid()
      modifies this, data
      ensures Valid() && (data == old(data) || fresh(data))
      ensures ok == (|old(Items())| < maxSize)
      ensures Items() == if ok then old(Items()) + [t] else old(Items())
    {
      if len >= maxSize {
        return false;
      }
      data, start := Append(data, start, len, t);
      len := len + 1;
      return true;
    }

    /** Moves the tickets into a smaller array when the backing array has become far
        too large. */
    method Compact()
      requires Valid()
      modifies this
      ensures Valid() && (data == old(data) || fresh(data)) && Items() == old(Items())
    {
      var capacity := data.Length - start;
      if capacity > maxSize && len < capacity / 4 {
        ghost var window := data[start..start + len];
        data := Compacted(data, start, len);
        start := 0;
        assert data[0..0 + len] == window;
      }
    }

    /** Takes the head and clears its cell. */
    method Pop() returns (t: Option<Ticket>)
      requires Valid()
      modifies this, data
      ensures Valid() && (data == old(data) || fresh(data))
      ensures old(Items()) == [] ==> t == None && Items() == []
      ensures old(Items()) != [] ==> t == Some(old(Items())[0]) && Items() == old(Items())[1..]
    {
      if len == 0 {
        return None;
      }
      ghost var window := data[start..start + len];
      t := data[start];
      data[start] := None;
      start, len := start + 1, len - 1;
      assert data[start..start + len] == window[1..];
      assert Values(window[1..]) == Values(window)[1..];
      Compact();
    }

    method PopWhere<S>(fn: (S, Ticket) -> (bool, S), s: S) returns (matched: seq<Ticket>, s': S)
      requires Valid()
      modifies this, data
      ensures Valid() && data == old(data)
      ensures ScanResult(matched, Items(), s') == Scan(fn, s, old(Items()))
    {
      var kept;
      matched, kept, s' := FilterInPlace(data, start, len, fn, s);
      ghost var rest := data[start..start + kept];
      len := kept;
      assert data[start..start + len] == rest;
    }

    method Len() returns (n: nat)
      requires Valid()
      ensures n == |Items()|
    {
      n := len;
    }
  }
}
