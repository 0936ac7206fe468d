/** The dispatch protocol of an endpoint with an ordinary limiter as a step
    machine: one signal on `work` per push, one grant and one pop per signal.
    Handlers, dispatcher and limiter interleave freely. */
module StandardDispatch {
  import opened Tickets

  datatype Handler =
    | Pushed  // in the queue, `work` not yet signalled
    | Waiting // at the select
    | Served  // took the value from its release channel
    | Gone    // client disconnected

  datatype Dispatcher =
    | Idle               // at the select
    | Signalled          // took a signal, waits for the limiter
    | Granted            // got a slot, about to pop
    | Sending(t: Ticket) // popped t, about to send on its release channel

  /** `grants` and `released` are history. */
  datatype State = State(
    queued: set<Ticket>, handlers: map<Ticket, Handler>, delivered: set<Ticket>, work: nat, dispatcher: Dispatcher,
    grants: nat, released: set<Ticket>)

  datatype Step =
    | Push(t: Ticket) | Signal(t: Ticket) | TakeRelease(t: Ticket) | Disconnect(t: Ticket)
    | RecvWork | Grant | Pop(t: Ticket) | PopNothing | Send

  function Init(): State {
    State({}, map[], {}, 0, Idle, 0, {})
  }

  predicate At(s: State, t: Ticket, h: Handler) {
    t in s.handlers && s.handlers[t] == h
  }

  /** `Pop` may take any queued ticket, so every scheduler is covered; on an empty
      queue it yields nothing. Sends block while their channel is full. */
  predicate Enabled(maxQueue: nat, s: State, step: Step) {
    match step
    case Push(t) => t !in s.handlers && |s.queued| < maxQueue
    case Signal(t) => At(s, t, Pushed) && s.work < maxQueue
    case TakeRelease(t) => At(s, t, Waiting) && t in s.delivered
    case Disconnect(t) => At(s, t, Waiting)
    case RecvWork => s.dispatcher.Idle? && s.work > 0
    case Grant => s.dispatcher.Signalled?
    case Pop(t) => s.dispatcher.Granted? && t in s.queued
    case PopNothing => s.dispatcher.Granted? && s.queued == {}
    case Send => s.dispatcher.Sending? && s.dispatcher.t !in s.delivered
  }

  function Apply(maxQueue: nat, s: State, step: Step): State
    requires Enabled(maxQueue, s, step)
  {
    match step
    case Push(t) => s.(queued := s.queued + {t}, handlers := s.handlers[t := Pushed])
    case Signal(t) => s.(work := s.work + 1, handlers := s.handlers[t := Waiting])
    case TakeRelease(t) => s.(handlers := s.handlers[t := Served], delivered := s.delivered - {t})
    case Disconnect(t) => s.(handlers := s.handlers[t := Gone])
    case RecvWork => s.(work := s.work - 1, dispatcher := Signalled)
    case Grant => s.(dispatcher := Granted, grants := s.grants + 1)
    case Pop(t) => s.(queued := s.queued - {t}, dispatcher := Sending(t))
    case PopNothing => s.(dispatcher := Idle)
    case Send =>
      var t := s.dispatcher.t;
      s.(delivered := s.delivered + {t}, released := s.released + {t}, dispatcher := Idle)
  }

  function Exec(maxQueue: nat, s: State, run: seq<Step>): Option<State> {
    if run == [] then
      Some(s)
    else
      match Exec(maxQueue, s, run[..|run| - 1])
      case None => None
      case Some(u) =>
        var step := run[|run| - 1];
        if Enabled(maxQueue, u, step) then Some(Apply(maxQueue, u, step)) else None
  }

  // ----- Invariants -----

  /** Handlers that pushed but have not signalled. */
  ghost function Unsignalled(s: State): set<Ticket> {
    set t | t in s.handlers && s.handlers[t].Pushed?
  }

  /** A signal the dispatcher took and has not popped for. */
  function InHand(d: Dispatcher): nat {
    if d.Signalled? || d.Granted? then 1 else 0
  }

  /** Each queued ticket is announced exactly once. */
  ghost predicate Counted(maxQueue: nat, s: State) {
    && |s.queued| <= maxQueue
    && |s.queued| == s.work + |Unsignalled(s)| + InHand(s.dispatcher)
  }

  function Carried(d: Dispatcher): set<Ticket> {
    if d.Sending? then {d.t} else {}
  }

  /** Every accepted ticket is queued, carried by the dispatcher, or released, and
      only one of these; a release channel holds its value until it is taken. */
  ghost predicate Placed(s: State) {
    && Partition(s.handlers.Keys, s.queued, s.released, Carried(s.dispatcher))
    && Delivery(s.handlers, s.released, s.delivered)
    && s.grants == |s.released| + |Carried(s.dispatcher)| + (if s.dispatcher.Granted? then 1 else 0)
  }

  ghost predicate Partition(all: set<Ticket>, a: set<Ticket>, b: set<Ticket>, c: set<Ticket>) {
    a !! b && a !! c && b !! c && all == a + b + c
  }

  ghost predicate Delivery(handlers: map<Ticket, Handler>, released: set<Ticket>, delivered: set<Ticket>) {
    delivered <= released && forall t <- handlers :: handlers[t].Served? <==> t in released && t !in delivered
  }

  ghost predicate Inv(maxQueue: nat, s: State) {
    Counted(maxQueue, s) && Placed(s)
  }

  predicate IsHandlerStep(step: Step) {
    step.Push? || step.Signal? || step.TakeRelease? || step.Disconnect?
  }

  lemma UnsignalledAfterUpdate(s: State, t: Ticket, h: Handler)
    ensures var s' := s.(handlers := s.handlers[t := h]);
            Unsignalled(s') == if h.Pushed? then Unsignalled(s) + {t} else Unsignalled(s) - {t}
  {
  }

  /** Only a push adds to the handlers that have yet to signal, only a signal
      takes one off. */
  lemma UnsignalledAfter(maxQueue: nat, s: State, step: Step)
    requires Enabled(maxQueue, s, step)
    ensures |Unsignalled(Apply(maxQueue, s, step))|
         == |Unsignalled(s)| + (if step.Push? then 1 else if step.Signal? then -1 else 0)
  {
    var s' := Apply(maxQueue, s, step);
    if IsHandlerStep(step) {
      UnsignalledAfterUpdate(s, step.t, s'.handlers[step.t]);
      assert Unsignalled(s') == Unsignalled(s.(handlers := s'.handlers));
      assert step.t in Unsignalled(s) <==> step.Signal?;
    } else {
      assert Unsignalled(s') == Unsignalled(s);
    }
  }

  lemma CountedStep(maxQueue: nat, s: State, step: Step)
    requires Inv(maxQueue, s) && Enabled(maxQueue, s, step)
    ensures Counted(maxQueue, Apply(maxQueue, s, step))
  {
    UnsignalledAfter(maxQueue, s, step);
    if step.Push? {
      assert |s.queued + {step.t}| == |s.queued| + 1;
    } else if step.Pop? {
      assert |s.queued - {step.t}| == |s.queued| - 1;
    }
  }

  lemma PlacedPush(maxQueue: nat, s: State, t: Ticket)
    requires Placed(s) && Enabled(maxQueue, s, Push(t))
    ensures Placed(Apply(maxQueue, s, Push(t)))
  {
    AddPushed(s.handlers, s.queued, s.released, Carried(s.dispatcher), s.delivered, t);
  }

  lemma AddPushed(handlers: map<Ticket, Handler>, queued: set<Ticket>, released: set<Ticket>, carried: set<Ticket>,
                  delivered: set<Ticket>, t: Ticket)
    requires Partition(handlers.Keys, queued, released, carried) && Delivery(handlers, released, delivered) &&
              t !in handlers
    ensures Partition(handlers[t := Pushed].Keys, queued + {t}, released, carried)
    ensures Delivery(handlers[t := Pushed], released, delivered)
  {
    assert handlers[t := Pushed].Keys == handlers.Keys + {t};
    assert t !in queued + released + carried;
  }

  /** A handler past its push changes its own record only. */
  lemma PlacedUpdate(s: State, t: Ticket, h: Handler, delivered: set<Ticket>)
    requires Placed(s) && t in s.handlers && !s.handlers[t].Served?
    requires delivered == if h.Served? then s.delivered - {t} else s.delivered
    requires h.Served? ==> t in s.delivered
    ensures Placed(s.(handlers := s.handlers[t := h], delivered := delivered))
  {
    assert s.handlers[t := h].Keys == s.handlers.Keys;
    assert Delivery(s.handlers[t := h], s.released, delivered);
  }

  lemma PlacedHandler(maxQueue: nat, s: State, step: Step)
    requires Placed(s) && Enabled(maxQueue, s, step) && IsHandlerStep(step)
    ensures Placed(Apply(maxQueue, s, step))
  {
    match step
    case Push(t) => PlacedPush(maxQueue, s, t);
    case Signal(t) => PlacedUpdate(s, t, Waiting, s.delivered);
    case TakeRelease(t) => PlacedUpdate(s, t, Served, s.delivered - {t});
    case Disconnect(t) => PlacedUpdate(s, t, Gone, s.delivered);
  }

  lemma MovePartition(all: set<Ticket>, a: set<Ticket>, b: set<Ticket>, t: Ticket)
    ensures t in a && Partition(all, a, b, {}) ==> Partition(all, a - {t}, b, {t})
    ensures Partition(all, a, b, {t}) ==> Partition(all, a, b + {t}, {})
  {
    if t in a { assert a == a - {t} + {t}; }
  }

  lemma PlacedSend(s: State)
    requires Placed(s) && Enabled(0, s, Send)
    ensures Placed(Apply(0, s, Send))
  {
    var t := s.dispatcher.t;
    MovePartition(s.handlers.Keys, s.queued, s.released, t);
    assert |s.released + {t}| == |s.released| + 1;
    assert !s.handlers[t].Served?;
    assert Delivery(s.handlers, s.released + {t}, s.delivered + {t});
  }

  lemma PlacedPop(s: State, t: Ticket)
    requires Placed(s) && Enabled(0, s, Pop(t))
    ensures Placed(Apply(0, s, Pop(t)))
  {
    MovePartition(s.handlers.Keys, s.queued, s.released, t);
  }

  lemma PlacedStep(maxQueue: nat, s: State, step: Step)
    requires Inv(maxQueue, s) && Enabled(maxQueue, s, step)
    ensures Placed(Apply(maxQueue, s, step))
  {
    if IsHandlerStep(step) {
      PlacedHandler(maxQueue, s, step);
    } else if step.Send? {
      PlacedSend(s);
    } else if step.Pop? {
      PlacedPop(s, step.t);
    }
  }

  lemma InvStep(maxQueue: nat, s: State, step: Step)
    requires Inv(maxQueue, s) && Enabled(maxQueue, s, step)
    ensures Inv(maxQueue, Apply(maxQueue, s, step))
  {
    CountedStep(maxQueue, s, step);
    PlacedStep(maxQueue, s, step);
  }

  lemma {:induction false} InvRun(maxQueue: nat, s: State, run: seq<Step>)
    requires Inv(maxQueue, s) && Exec(maxQueue, s, run).Some?
    ensures Inv(maxQueue, Exec(maxQueue, s, run).value)
  {
    if run != [] {
      var n := |run| - 1;
      InvRun(maxQueue, s, run[..n]);
      InvStep(maxQueue, Exec(maxQueue, s, run[..n]).value, run[n]);
    }
  }

  ghost predicate Reachable(maxQueue: nat, s: State) {
    exists run :: Exec(maxQueue, Init(), run) == Some(s)
  }

  lemma InvReachable(maxQueue: nat, s: State)
    requires Reachable(maxQueue, s)
    ensures Inv(maxQueue, s)
  {
    var run :| Exec(maxQueue, Init(), run) == Some(s);
    assert Unsignalled(Init()) == {};
    InvRun(maxQueue, Init(), run);
  }

  // ----- What every run guarantees -----

  /** In every reachable state the queue holds one ticket per signal in `work`, per
      handler that has yet to signal, and per signal in the dispatcher's hand. */
  lemma SignalsCountTickets(maxQueue: nat, s: State)
    requires Reachable(maxQueue, s)
    ensures |s.queued| == s.work + |Unsignalled(s)| + InHand(s.dispatcher) <= maxQueue
  {
    InvReachable(maxQueue, s);
  }

  /** A handler that has pushed finds room in `work`: its send never blocks. */
  lemma SignalNeverBlocks(maxQueue: nat, s: State, t: Ticket)
    requires Reachable(maxQueue, s) && At(s, t, Pushed)
    ensures Enabled(maxQueue, s, Signal(t))
  {
    InvReachable(maxQueue, s);
    assert t in Unsignalled(s);
  }

  /** A granted slot is never wasted on an empty queue, and the send that follows
      never blocks; so grants and released tickets correspond one to one. */
  lemma EveryGrantReleasesATicket(maxQueue: nat, s: State)
    requires Reachable(maxQueue, s)
    ensures !Enabled(maxQueue, s, PopNothing)
    ensures s.dispatcher.Sending? ==> Enabled(maxQueue, s, Send) && s.dispatcher.t !in s.released
    ensures s.dispatcher.Idle? || s.dispatcher.Signalled? ==> s.grants == |s.released|
  {
    InvReachable(maxQueue, s);
  }

  // ----- Progress -----

  /** A step that needs neither a new request nor a disconnect; grants count as
      internal, since the limiter issues them on its own. */
  predicate Internal(step: Step) {
    !step.Push? && !step.Disconnect?
  }

  function DispatcherRank(d: Dispatcher): nat {
    match d
    case Idle => 0
    case Signalled => 4
    case Granted => 3
    case Sending(_) => 2
  }

  ghost function Rank(s: State): nat {
    6 * |Unsignalled(s)| + 5 * s.work + DispatcherRank(s.dispatcher) + |s.delivered|
  }

  lemma DeliveredShifts(maxQueue: nat, s: State, step: Step)
    requires Placed(s) && Enabled(maxQueue, s, step)
    ensures |Apply(maxQueue, s, step).delivered|
         == |s.delivered| + (if step.Send? then 1 else if step.TakeRelease? then -1 else 0)
  {
    if step.TakeRelease? {
      assert |s.delivered - {step.t}| == |s.delivered| - 1;
    } else if step.Send? {
      assert |s.delivered + {s.dispatcher.t}| == |s.delivered| + 1;
    }
  }

  lemma RankDecreases(maxQueue: nat, s: State, step: Step)
    requires Inv(maxQueue, s) && Enabled(maxQueue, s, step) && Internal(step)
    ensures Rank(Apply(maxQueue, s, step)) < Rank(s)
  {
    UnsignalledAfter(maxQueue, s, step);
    DeliveredShifts(maxQueue, s, step);
  }

  lemma {:induction false} InternalRunsAreBounded(maxQueue: nat, s: State, run: seq<Step>)
    requires Inv(maxQueue, s) && Exec(maxQueue, s, run).Some? && forall step <- run :: Internal(step)
    ensures |run| + Rank(Exec(maxQueue, s, run).value) <= Rank(s)
  {
    if run != [] {
      var n := |run| - 1;
      InternalRunsAreBounded(maxQueue, s, run[..n]);
      InvRun(maxQueue, s, run[..n]);
      RankDecreases(maxQueue, Exec(maxQueue, s, run[..n]).value, run[n]);
    }
  }

  /** As long as a ticket is queued or a handler waits, some internal step can be
      taken. */
  lemma Progress(maxQueue: nat, s: State) returns (step: Step)
    requires Inv(maxQueue, s)
    requires s.queued != {} || exists t :: At(s, t, Waiting)
    ensures Internal(step) && Enabled(maxQueue, s, step)
  {
    match s.dispatcher
    case Signalled => step := Grant;
    case Granted =>
      var t :| t in s.queued;
      step := Pop(t);
    case Sending(t) => step := Send;
    case Idle =>
      if s.work > 0 {
        step := RecvWork;
      } else if t :| t in Unsignalled(s) {
        step := Signal(t);
      } else {
        assert Unsignalled(s) == {} && |s.queued| == 0;
        var t :| At(s, t, Waiting);
        step := TakeRelease(t);
      }
  }

  /** However the processes interleave, an internal run continued for as long as
      possible ends after at most `Rank` steps with an empty queue and no handler
      left waiting. */
  lemma EveryTicketIsServed(maxQueue: nat, s: State, run: seq<Step>)
    requires Reachable(maxQueue, s) && Exec(maxQueue, s, run).Some? && forall step <- run :: Internal(step)
    requires forall step :: Internal(step) ==> !Enabled(maxQueue, Exec(maxQueue, s, run).value, step)
    ensures var u := Exec(maxQueue, s, run).value;
            |run| <= Rank(s) && u.queued == {} && forall t :: !At(u, t, Waiting)
  {
    InvReachable(maxQueue, s);
    InvRun(maxQueue, s, run);
    InternalRunsAreBounded(maxQueue, s, run);
    var u := Exec(maxQueue, s, run).value;
    if u.queued != {} || exists t :: At(u, t, Waiting) {
      var step := Progress(maxQueue, u);
      assert false;
    }
  }

  // ----- Who gets in -----

  /** A new ticket finds a step that puts it in the queue exactly while fewer than the
      maximum are queued; the step changes nothing else. */
  lemma AdmissionIsExact(maxQueue: nat, s: State, t: Ticket)
    requires Reachable(maxQueue, s) && t !in s.handlers
    ensures t !in s.queued
    ensures (exists step :: Enabled(maxQueue, s, step) && t in Apply(maxQueue, s, step).queued)
       <==> |s.queued| < maxQueue
    ensures Enabled(maxQueue, s, Push(t)) ==>
              var s' := Apply(maxQueue, s, Push(t));
              && s'.queued == s.queued + {t} && At(s', t, Pushed) && s'.work == s.work && s'.dispatcher == s.dispatcher
              && s'.delivered == s.delivered && s'.released == s.released && s'.grants == s.grants
  {
    InvReachable(maxQueue, s);
    assert t !in s.queued;
    if |s.queued| < maxQueue {
      assert Enabled(maxQueue, s, Push(t)) && t in Apply(maxQueue, s, Push(t)).queued;
    } else {
      forall step | Enabled(maxQueue, s, step) ensures t !in Apply(maxQueue, s, step).queued {
        OnlyPushAdds(maxQueue, s, step, t);
      }
    }
  }

  lemma OnlyPushAdds(maxQueue: nat, s: State, step: Step, t: Ticket)
    requires Enabled(maxQueue, s, step) && t !in s.queued
    ensures t in Apply(maxQueue, s, step).queued ==> step == Push(t) && |s.queued| < maxQueue
  {
  }

  function NewTicket(i: nat): Ticket {
    Ticket(i, 0, 0, 0)
  }

  /** Every length up to the maximum is reached, the maximum included. */
  lemma {:induction false} PushedUpTo(maxQueue: nat, n: nat) returns (run: seq<Step>, s: State)
    requires n <= maxQueue
    ensures Exec(maxQueue, Init(), run) == Some(s) && |s.queued| == n
    ensures forall i: nat :: i >= n ==> NewTicket(i) !in s.handlers && NewTicket(i) !in s.queued
  {
    if n == 0 {
      run, s := [], Init();
    } else {
      run, s := PushedUpTo(maxQueue, n - 1);
      var t := NewTicket(n - 1);
      assert |s.queued + {t}| == n;
      assert forall i: nat :: i >= n ==> NewTicket(i) != t;
      assert (run + [Push(t)])[..|run|] == run;
      run, s := run + [Push(t)], Apply(maxQueue, s, Push(t));
    }
  }

  lemma QueueOfAnySize(maxQueue: nat, n: nat) returns (s: State)
    requires n <= maxQueue
    ensures Reachable(maxQueue, s) && |s.queued| == n
  {
    var run;
    run, s := PushedUpTo(maxQueue, n);
  }

  /** Nobody waits for more than a channel or a slot: a waiting handler takes its
      release as soon as it is there, an idle dispatcher takes a signal whenever there
      is one, and one with a signal can be granted a slot. */
  lemma OnlyChannelsHoldUp(maxQueue: nat, s: State)
    ensures forall t :: At(s, t, Waiting) ==> (Enabled(maxQueue, s, TakeRelease(t)) <==> t in s.delivered)
    ensures s.dispatcher.Idle? ==> (Enabled(maxQueue, s, RecvWork) <==> s.work > 0)
    ensures s.dispatcher.Signalled? ==> Enabled(maxQueue, s, Grant)
    ensures s.dispatcher.Granted? ==> forall t :: t in s.queued ==> Enabled(maxQueue, s, Pop(t))
  {
  }

  /** A waiting client can always leave. */
  lemma ClientsMayLeave(maxQueue: nat, s: State, t: Ticket)
    requires At(s, t, Waiting)
    ensures Enabled(maxQueue, s, Disconnect(t)) && At(Apply(maxQueue, s, Disconnect(t)), t, Gone)
    ensures Apply(maxQueue, s, Disconnect(t)).queued == s.queued
  {
  }
}
