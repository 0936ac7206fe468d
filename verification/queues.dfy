/** The queue interface, its contract, and the factory (queue/queue.go). */
module Queues {
  import opened Tickets
  import opened Fifos
  import opened Lifos
  import opened Priorities
  import opened Randoms

  datatype Kind = FifoKind | LifoKind | PriorityKind | RandomKind

  /** `order` is an order in which the scheduler may serve the tickets that its
      queue holds as `view`. */
  predicate Serves(kind: Kind, view: seq<Ticket>, order: seq<Ticket>) {
    match kind
    case FifoKind => order == view
    case LifoKind => order == Reversed(view)
    case PriorityKind => Sorted(order) && multiset(order) == multiset(view)
    case RandomKind => multiset(order) == multiset(view)
  }

  /** The scheduler may serve `t` next. */
  predicate MayServe(kind: Kind, view: seq<Ticket>, t: Ticket) {
    match kind
    case FifoKind => view != [] && t == view[0]
    case LifoKind => view != [] && t == view[|view| - 1]
    case PriorityKind => t in view && forall u <- view :: !Before(u, t)
    case RandomKind => t in view
  }

  /** Popping and scanning agree on who is served first; and a serve order lists
      the queued tickets, each once. */
  lemma ServesFirst(kind: Kind, view: seq<Ticket>, order: seq<Ticket>)
    requires Serves(kind, view, order)
    ensures multiset(order) == multiset(view)
    ensures order != [] ==> MayServe(kind, view, order[0])
  {
    ReversedConserves(view);
    if order != [] {
      assert order[0] in multiset(view);
      forall u <- view ensures kind.PriorityKind? ==> !Before(u, order[0]) {
        assert u in multiset(order);
        var j :| 0 <= j < |order| && order[j] == u;
      }
    }
  }

  lemma RemoveOne(ts: seq<Ticket>, i: nat)
    requires i < |ts|
    ensures multiset(ts[..i] + ts[i + 1..]) + multiset{ts[i]} == multiset(ts)
    ensures i == 0 ==> ts[..i] + ts[i + 1..] == ts[1..]
    ensures i == |ts| - 1 ==> ts[..i] + ts[i + 1..] == ts[..i]
  {
    assert ts == ts[..i] + [ts[i]] + ts[i + 1..];
  }

  lemma OneOf(ts: seq<Ticket>, rest: seq<Ticket>, t: Ticket)
    requires multiset(rest) + multiset{t} == multiset(ts)
    ensures t in ts
  {
    assert t in multiset(ts);
  }

  datatype Queue =
    | Fifo(fifo: FIFOQueue)
    | Lifo(lifo: LIFOQueue)
    | Prio(prio: PriorityQueue)
    | Rand(rand: RandomQueue)
  {
    function Kind(): Kind {
      match this
      case Fifo(_) => FifoKind
      case Lifo(_) => LifoKind
      case Prio(_) => PriorityKind
      case Rand(_) => RandomKind
    }

    function Object(): object {
      match this
      case Fifo(q) => q
      case Lifo(q) => q
      case Prio(q) => q
      case Rand(q) => q
    }

    function MaxSize(): int {
      match this
      case Fifo(q) => q.maxSize
      case Lifo(q) => q.maxSize
      case Prio(q) => q.maxSize
      case Rand(q) => q.maxSize
    }

    ghost function Footprint(): set<object>
      reads Object()
    {
      match this
      case Fifo(q) => {q, q.data}
      case Lifo(q) => {q, q.data}
      case Prio(q) => {q}
      case Rand(q) => {q, q.data}
    }

    ghost predicate Valid()
      reads Object(), Footprint()
    {
      match this
      case Fifo(q) => q.Valid()
      case Lifo(q) => q.Valid()
      case Prio(q) => q.Valid()
      case Rand(q) => q.Valid()
    }

    /** The tickets as the queue holds them. */
    ghost function View(): seq<Ticket>
      reads Object(), Footprint()
      requires Valid()
    {
      match this
      case Fifo(q) => q.Items()
      case Lifo(q) => q.Items()
      case Prio(q) => q.h
      case Rand(q) => q.Items()
    }

    /** A bounded bag: a push succeeds exactly while there is room. */
    method Push(t: Ticket) returns (ok: bool)
      requires Valid()
      modifies Footprint()
      ensures Valid() && fresh(Footprint() - old(Footprint()))
      ensures ok == (|old(View())| < MaxSize())
      ensures ok ==> multiset(View()) == multiset(old(View())) + multiset{t}
      ensures !ok ==> View() == old(View())
      ensures ok && (Fifo? || Lifo?) ==> View() == old(View()) + [t]
    {
      match this
      case Fifo(q) => ok := q.Push(t);
      case Lifo(q) => ok := q.Push(t);
      case Prio(q) => ok := q.Push(t);
      case Rand(q) => ok := q.Push(t);
    }

    /** Takes a ticket the scheduler may serve next, and only that one. */
    method Pop() returns (t: Option<Ticket>)
      requires Valid()
      modifies Footprint()
      ensures Valid() && fresh(Footprint() - old(Footprint()))
      ensures t.None? <==> old(View()) == []
      ensures t.None? ==> View() == []
      ensures t.Some? ==> MayServe(Kind(), old(View()), t.value)
      ensures t.Some? && Fifo? ==> t.value == old(View())[0]
      ensures t.Some? && Lifo? ==> t.value == old(View())[|old(View())| - 1]
      ensures t.Some? && Prio? ==>
                forall u <- old(View()) ::
                  u.priority <= t.value.priority
                  && (u.priority == t.value.priority ==> t.value.enqueuedAt <= u.enqueuedAt)
      ensures t.Some? ==> multiset(View()) + multiset{t.value} == multiset(old(View()))
    {
      ghost var before := View();
      match this
      case Fifo(q) =>
        t := q.Pop();
        if t.Some? { RemoveOne(before, 0); }
      case Lifo(q) =>
        t := q.Pop();
        if t.Some? { RemoveOne(before, |before| - 1); }
      case Prio(q) =>
        t := q.Pop();
        if t.Some? { OneOf(before, q.h, t.value); }
      case Rand(q) =>
        ghost var i;
        t, i := q.Pop();
        if t.Some? { SwapRemoveTakesOne(before, i); }
    }

    /** Tests every ticket once in an order the scheduler may serve, takes the
        accepted ones, and holds exactly the rejected ones afterwards. */
    method PopWhere<S>(fn: (S, Ticket) -> (bool, S), s: S)
      returns (matched: seq<Ticket>, s': S, ghost order: seq<Ticket>)
      requires Valid()
      modifies Footprint()
      ensures Valid() && fresh(Footprint() - old(Footprint()))
      ensures Serves(Kind(), old(View()), order)
      ensures Prio? ==> forall i, j :: 0 <= i < j < |order| ==>
                order[i].priority >= order[j].priority
                && (order[i].priority == order[j].priority ==> order[i].enqueuedAt <= order[j].enqueuedAt)
      ensures var r := Scan(fn, s, order);
              r.matched == matched && r.state == s' && multiset(View()) == multiset(r.kept)
      ensures Fifo? || Rand? ==> View() == Scan(fn, s, order).kept
      ensures Lifo? ==> View() == Reversed(Scan(fn, s, order).kept)
    {
      ghost var before := View();
      match this
      case Fifo(q) =>
        order := before;
        matched, s' := q.PopWhere(fn, s);
      case Lifo(q) =>
        order := Reversed(before);
        matched, s' := q.PopWhere(fn, s);
        assert View() == Reversed(Reversed(View()));
        ReversedConserves(View());
      case Prio(q) =>
        ghost var rejected;
        matched, s', order, rejected := q.PopWhere(fn, s);
      case Rand(q) =>
        order := before;
        matched, s' := q.PopWhere(fn, s);
    }

    method Len() returns (n: nat)
      requires Valid()
      ensures n == |View()|
    {
      match this
      case Fifo(q) => n := q.Len();
      case Lifo(q) => n := q.Len();
      case Prio(q) => n := q.Len();
      case Rand(q) => n := q.Len();
    }
  }

  /** The factory knows four schedulers and refuses every other name. */
  method New(scheduler: string, maxSize: int) returns (q: Option<Queue>)
    ensures q.Some? <==> scheduler in {"fifo", "lifo", "priority", "random"}
    ensures q.Some? ==> q.value.Valid() && fresh(q.value.Footprint())
    ensures q.Some? ==> q.value.View() == [] && q.value.MaxSize() == maxSize
    ensures q.Some? ==>
              && (scheduler == "fifo" <==> q.value.Fifo?) && (scheduler == "lifo" <==> q.value.Lifo?)
              && (scheduler == "priority" <==> q.value.Prio?) && (scheduler == "random" <==> q.value.Rand?)
  {
    if scheduler == "fifo" {
      var f := new FIFOQueue(maxSize);
      return Some(Fifo(f));
    } else if scheduler == "lifo" {
      var l := new LIFOQueue(maxSize);
      return Some(Lifo(l));
    } else if scheduler == "priority" {
      var p := new PriorityQueue(maxSize);
      return Some(Prio(p));
    } else if scheduler == "random" {
      var r := new RandomQueue(maxSize);
      return Some(Rand(r));
    } else {
      return None;
    }
  }
}
