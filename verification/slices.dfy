/** Slices over a shared backing array: the window [start, start + len) of `data`
    is the slice, the cells behind it up to `data.Length` are its spare capacity. */
module Slices {
  import opened Tickets

  type Cell = Option<Ticket> // None is the nil pointer

  predicate Filled(cells: seq<Cell>) {
    forall i :: 0 <= i < |cells| ==> cells[i].Some?
  }

  /** The tickets of a stretch of the backing array that holds no nil. */
  function Values(cells: seq<Cell>): (ts: seq<Ticket>)
    requires Filled(cells)
    ensures |ts| == |cells| && forall i :: 0 <= i < |cells| ==> cells[i] == Some(ts[i])
  {
    seq(|cells|, i requires 0 <= i < |cells| => cells[i].value)
  }

  /** `append`: in place while capacity is left, else into a larger new array. */
  method Append(data: array<Cell>, start: nat, len: nat, t: Ticket) returns (d: array<Cell>, s: nat)
    requires start + len <= data.Length
    modifies data
    ensures if start + len < data.Length then d == data && s == start else fresh(d) && s == 0
    ensures s + len + 1 <= d.Length
    ensures d[s..s + len + 1] == old(data[start..start + len]) + [Some(t)]
  {
    if start + len < data.Length {
      data[start + len] := Some(t);
      d, s := data, start;
    } else {
      var capacity: nat :| capacity > len;
      d, s := new Cell[capacity](_ => None), 0;
      for i := 0 to len
        invariant d[..i] == data[start..start + i]
        invariant data[..] == old(data[..])
      {
        d[i] := data[start + i];
      }
      d[len] := Some(t);
    }
  }

  /** `append` to a slice that starts at the beginning of its array. */
  method Grown(data: array<Cell>, len: nat, t: Ticket) returns (d: array<Cell>)
    requires len <= data.Length
    modifies data
    ensures d == data || fresh(d)
    ensures len + 1 <= d.Length && d[..len + 1] == old(data[..len]) + [Some(t)]
  {
    assert data[0..0 + len] == data[..len];
    var s;
    d, s := Append(data, 0, len, t);
    assert d[0..0 + len + 1] == d[..len + 1];
  }

  /** A copy of the window in an array of its own size. */
  method Compacted(data: array<Cell>, start: nat, len: nat) returns (d: array<Cell>)
    requires start + len <= data.Length
    ensures fresh(d) && d[..] == data[start..start + len]
  {
    d := new Cell[len](_ => None);
    for i := 0 to len
      invariant d[..i] == data[start..start + i]
    {
      d[i] := data[start + i];
    }
  }

  /** The loop of the in-place filter: rejected tickets are written back over the
      front of the window they are read from. The write index never passes the read
      index, so no unread cell is overwritten. */
  method WriteBack<S>(data: array<Cell>, start: nat, ghost items: seq<Ticket>, len: nat, fn: (S, Ticket) -> (bool,
                      S), s: S)
    returns (matched: seq<Ticket>, ghost rejected: seq<Ticket>, kept: nat, s': S)
    requires |items| == len && start + len <= data.Length
    requires forall j :: start <= j < start + len ==> data[j] == Some(items[j - start])
    modifies data
    ensures ScanResult(matched, rejected, s') == Scan(fn, s, items)
    ensures kept == |rejected| <= len && forall j :: start <= j < start + kept ==> data[j] == Some(rejected[j - start])
  {
    var w := start;
    matched, rejected, s' := [], [], s;
    for r := start to start + len
      invariant start <= w <= r && |rejected| == w - start
      invariant ScanResult(matched, rejected, s') == Scan(fn, s, items[..r - start])
      invariant forall j :: start <= j < w ==> data[j] == Some(rejected[j - start])
      invariant forall j :: r <= j < start + len ==> data[j] == Some(items[j - start]) // unread
    {
      var t := data[r].value;
      ScanNext(fn, s, items, r - start);
      var (hit, next) := fn(s', t);
      s' := next;
      if hit {
        matched := matched + [t];
      } else {
        data[w] := Some(t);
        w := w + 1;
        rejected := rejected + [t];
      }
    }
    kept := w - start;
    assert items[..len] == items;
  }

  /** Filters a window over its own backing array: what stays is what a scan of the
      window keeps, in order. */
  method FilterInPlace<S>(data: array<Cell>, start: nat, len: nat, fn: (S, Ticket) -> (bool, S), s: S)
    returns (matched: seq<Ticket>, kept: nat, s': S)
    requires start + len <= data.Length && Filled(data[start..start + len])
    modifies data
    ensures kept <= len && Filled(data[start..start + kept])
    ensures ScanResult(matched, Values(data[start..start + kept]), s')
         == Scan(fn, s, Values(old(data[start..start + len])))
  {
    ghost var window := data[start..start + len];
    ghost var items := Values(window);
    assert forall j :: start <= j < start + len ==> data[j] == window[j - start];
    ghost var rejected;
    matched, rejected, kept, s' := WriteBack(data, start, items, len, fn, s);
    assert Values(data[start..start + kept]) == rejected;
  }
}
