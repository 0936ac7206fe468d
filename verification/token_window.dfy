/** The token budget of a window (limiter/token_window.go). */
module TokenWindows {
  import opened Tickets

  /** One attempt to take a ticket's cost out of the budget. */
  function Consume(remaining: int, t: Ticket): (bool, int) {
    if t.cost <= remaining then (true, remaining - t.cost) else (false, remaining)
  }

  class TokenWindow {
    const capacity: int
    var remaining: int
    var resetFull: bool // the one slot of the reset channel

    constructor (capacity: int)
      ensures this.capacity == capacity && remaining == capacity && !resetFull
    {
      this.capacity := capacity;
      remaining := capacity;
      resetFull := false;
    }

    /** The lock region of `TryConsume`. */
    method TryConsume(t: Ticket) returns (ok: bool)
      modifies this`remaining
      ensures (ok, remaining) == Consume(old(remaining), t)
    {
      if t.cost <= remaining {
        remaining := remaining - t.cost;
        return true;
      }
      return false;
    }

    /** The predicate of a release pass, called on each ticket in turn: what a scan
        yields when its predicate is `TryConsume`. */
    method ConsumeEach(order: seq<Ticket>) returns (matched: seq<Ticket>, kept: seq<Ticket>)
      modifies this`remaining
      ensures ScanResult(matched, kept, remaining) == Scan(Consume, old(remaining), order)
    {
      matched, kept := [], [];
      for i := 0 to |order|
        invariant ScanResult(matched, kept, remaining) == Scan(Consume, old(remaining), order[..i])
      {
        ScanNext(Consume, old(remaining), order, i);
        var ok := TryConsume(order[i]);
        if ok {
          matched := matched + [order[i]];
        } else {
          kept := kept + [order[i]];
        }
      }
      assert order[..|order|] == order;
    }

    /** The refill, then the signal; a signal into a full channel is dropped. */
    method Reset()
      modifies this`remaining, this`resetFull
      ensures remaining == capacity && resetFull
    {
      remaining := capacity;
      if !resetFull {
        resetFull := true;
      }
    }

    /** Takes the signal that triggers a scan, if there is one. */
    method TakeReset() returns (taken: bool)
      modifies this`resetFull
      ensures taken == old(resetFull) && !resetFull
    {
      taken := resetFull;
      resetFull := false;
    }
  }
}
