/** The admission estimate against the protocol: what the counter says of the
    queue, and how many windows the queue takes. */
module Admission {
  import opened Tickets
  import opened TokenDispatch
  import opened TokenInvariants
  import opened TokenTheorems
  import opened Packing

  /** A cancelled ticket stays queued and will take tokens from a window. */
  function DeadCost(t: Ticket, l: Life): int {
    if l.place.Queued? && l.cancelled then t.cost else 0
  }

  ghost predicate NoneDead(s: State) {
    forall t <- s.queued :: t in s.lives ==> !s.lives[t].cancelled
  }

  lemma {:induction false} QueuedIsTotal(lives: map<Ticket, Life>, order: seq<Ticket>)
    requires Distinct(order)
    requires forall t <- order :: t in lives && lives[t].place.Queued?
    requires forall t <- lives :: lives[t].place.Queued? ==> t in order
    ensures Weigh(lives, QueuedCost) == Total(order)
  {
    if order == [] {
      forall t <- lives ensures QueuedCost(t, lives[t]) == 0 {}
      WeighPositive(lives, QueuedCost);
    } else {
      var n := |order| - 1;
      var t := order[n];
      assert order == order[..n] + [t];
      var popped := lives[t := lives[t].(place := Popped)];
      WeighUpdate(lives, QueuedCost, t, popped[t]);
      assert forall u <- order[..n] :: u in order && u != t;
      QueuedIsTotal(popped, order[..n]);
    }
  }

  /** With the books closed the counter is the cost of the whole queue, less the
      cost of the cancelled tickets in it and of the tickets debited twice; so it is
      the cost of the queue if and only if there are neither. */
  lemma CounterAndQueue(p: Params, s: State, order: seq<Ticket>)
    requires Reachable(p, s) && BooksClosed(s) && multiset(order) == multiset(s.queued)
    ensures s.pending == Total(order) - Weigh(s.lives, DeadCost) - Weigh(s.lives, LateCost)
    ensures s.pending <= Total(order)
    ensures s.pending == Total(order) <==> NoneDead(s) && NoneLate(s.lives)
    ensures Admissible(p.capacity, order)
  {
    CounterAtRest(p, s);
    InvReachable(p, s);
    PermutationOfSet(order, s.queued);
    QueuedIsTotal(s.lives, order);
    WeighMinus(s.lives, Owed, QueuedCost, DeadCost);
    WeighPositive(s.lives, LateCost);
    NoLateCost(s.lives);
    NoDeadCost(s);
  }

  lemma NoDeadCost(s: State)
    requires forall t <- s.lives :: t.cost >= 1 && (s.lives[t].place.Queued? <==> t in s.queued)
    ensures Weigh(s.lives, DeadCost) >= 0 && (Weigh(s.lives, DeadCost) == 0 <==> NoneDead(s))
  {
    WeighPositive(s.lives, DeadCost);
    forall t <- s.lives ensures DeadCost(t, s.lives[t]) == 0 <==> !(t in s.queued && s.lives[t].cancelled) {}
  }

  /** A request that reads the counter with the books closed never sees an estimate
      above the number of windows that empty the queue. If no queued ticket is
      cancelled and none was debited twice, the queue is empty before twice the
      estimate is over, whatever the orders of the scans. */
  lemma EstimateAtRest(p: Params, s: State, windows: seq<seq<Ticket>>)
    requires Reachable(p, s) && BooksClosed(s) && p.capacity > 0
    requires Chain(p.capacity, windows) && multiset(windows[0]) == multiset(s.queued)
    ensures Drained(p.capacity, windows) ==> CeilDiv(s.pending, p.capacity) <= |windows|
    ensures NoneDead(s) && NoneLate(s.lives) ==>
              && |windows| <= 2 * CeilDiv(s.pending, p.capacity) - 1
              && (|windows| == 2 * CeilDiv(s.pending, p.capacity) - 1 ==> Drained(p.capacity, windows))
  {
    CounterAndQueue(p, s, windows[0]);
    if Drained(p.capacity, windows) {
      DrainLowerBound(p.capacity, windows);
      CeilDivBelow(s.pending, p.capacity, |windows|);
    }
    DrainUpperBound(p.capacity, windows);
    if |windows| == 2 * CeilDiv(Total(windows[0]), p.capacity) - 1 { EverySchedulerDrains(p.capacity, windows); }
  }
}
