/** What every step of the token dispatch protocol keeps. */
module TokenInvariants {
  import opened Tickets
  import opened TokenDispatch

  // ----- Where each ticket is -----

  /** The popped tickets the dispatcher has not sent yet. */
  function Held(d: Dispatcher): seq<Ticket> {
    match d
    case Idle => []
    case Woken => []
    case Scanning(_, matched) => matched
    case Releasing(rest) => rest
    case Reading(_, rest) => rest
    case Debiting(_, rest) => rest
  }

  predicate Distinct(ts: seq<Ticket>) {
    forall i, j :: 0 <= i < j < |ts| ==> ts[i] != ts[j]
  }

  predicate LifeOk(l: Life) {
    && l.credits == (if l.handler.Pushed? then 0 else 1)
    && l.debits == (if l.handler.Gone? then 1 else 0) + (if l.verdict.Lowered? then 1 else 0)
    && (l.cancelled <==> l.handler.Cancelling? || l.handler.Gone?)
    && (l.late <==> l.cancelled && (l.verdict.SawLive? || l.verdict.Lowered?))
    && (l.verdict.SawCancelled? ==> l.cancelled)
    && (!l.verdict.Unread? ==> l.place.Released?)
    && (l.delivered ==> l.place.Released?)
    && (l.place.Released? ==> (l.delivered <==> !l.handler.Served?))
    && (l.handler.Served? ==> l.place.Released?)
  }

  ghost predicate LivesOk(p: Params, lives: map<Ticket, Life>) {
    forall t <- lives :: 1 <= t.cost <= p.capacity && p.maxQueue >= 1 && LifeOk(lives[t])
  }

  /** The queue holds exactly the tickets that were never popped, within bounds. */
  ghost predicate QueueOk(p: Params, queued: set<Ticket>, lives: map<Ticket, Life>) {
    && |queued| <= p.maxQueue
    && (forall t <- queued :: t in lives && lives[t].place.Queued?)
    && (forall t <- lives :: lives[t].place.Queued? ==> t in queued)
  }

  /** The dispatcher holds exactly the popped tickets it has not sent, each once. */
  ghost predicate HeldOk(lives: map<Ticket, Life>, held: seq<Ticket>) {
    && Distinct(held)
    && (forall t <- held :: t in lives && lives[t].place.Popped?)
    && (forall t <- lives :: lives[t].place.Popped? ==> t in held)
  }

  ghost predicate ScanOk(queued: set<Ticket>, d: Dispatcher) {
    d.Scanning? ==> Distinct(d.todo) && forall t <- d.todo :: t in queued
  }

  /** A released ticket whose bookkeeping is not finished is the current one. */
  ghost predicate CurrentOk(lives: map<Ticket, Life>, d: Dispatcher) {
    && (d.Reading? ==> d.t in lives && lives[d.t].place.Released? && lives[d.t].verdict.Unread?)
    && (d.Debiting? ==> d.t in lives && lives[d.t].verdict.SawLive?)
    && (forall t <- lives :: lives[t].place.Released? && lives[t].verdict.Unread? ==> d.Reading? && d.t == t)
    && (forall t <- lives :: lives[t].verdict.SawLive? ==> d.Debiting? && d.t == t)
  }

  ghost predicate Placed(p: Params, s: State) {
    && LivesOk(p, s.lives)
    && QueueOk(p, s.queued, s.lives)
    && HeldOk(s.lives, Held(s.dispatcher))
    && ScanOk(s.queued, s.dispatcher)
    && CurrentOk(s.lives, s.dispatcher)
  }

  // ----- Every step keeps every ticket in its place -----

  lemma SamePlace(p: Params, queued: set<Ticket>, lives: map<Ticket, Life>, held: seq<Ticket>, t: Ticket, l: Life)
    requires QueueOk(p, queued, lives) && HeldOk(lives, held)
    requires t in lives && l.place == lives[t].place
    ensures QueueOk(p, queued, lives[t := l]) && HeldOk(lives[t := l], held)
  {
  }

  lemma SameVerdict(lives: map<Ticket, Life>, d: Dispatcher, t: Ticket, l: Life)
    requires CurrentOk(lives, d)
    requires t in lives && l.place == lives[t].place && l.verdict == lives[t].verdict
    ensures CurrentOk(lives[t := l], d)
  {
  }

  lemma PlacedPush(p: Params, s: State, t: Ticket)
    requires Placed(p, s) && HandlerEnabled(p, s, t, Push)
    ensures Placed(p, HandlerApply(p, s, t, Push))
  {
    var s' := HandlerApply(p, s, t, Push);
    assert QueueOk(p, s'.queued, s'.lives);
    assert HeldOk(s'.lives, Held(s'.dispatcher));
  }

  /** A handler past its push changes its own record and neither the place of
      the ticket nor the verdict. */
  lemma HandlerKeepsLife(p: Params, s: State, t: Ticket, h: HandlerStep)
    requires LivesOk(p, s.lives) && HandlerEnabled(p, s, t, h) && !h.Push? && !h.RejectFull?
    ensures var s' := HandlerApply(p, s, t, h);
            && t in s.lives && t in s'.lives && s'.lives == s.lives[t := s'.lives[t]]
            && LifeOk(s'.lives[t]) && s'.lives[t].place == s.lives[t].place && s'.lives[t].verdict == s.lives[t].verdict
            && s'.queued == s.queued && s'.dispatcher == s.dispatcher && s'.window == s.window
  {
    assert LifeOk(s.lives[t]);
  }

  lemma PlacedHandler(p: Params, s: State, t: Ticket, h: HandlerStep)
    requires Placed(p, s) && HandlerEnabled(p, s, t, h)
    ensures Placed(p, HandlerApply(p, s, t, h))
  {
    if h.Push? {
      PlacedPush(p, s, t);
    } else if !h.RejectFull? {
      HandlerKeepsLife(p, s, t, h);
      var l := HandlerApply(p, s, t, h).lives[t];
      SamePlace(p, s.queued, s.lives, Held(s.dispatcher), t, l);
      SameVerdict(s.lives, s.dispatcher, t, l);
    }
  }

  lemma PopPlaces(p: Params, queued: set<Ticket>, lives: map<Ticket, Life>, held: seq<Ticket>, t: Ticket)
    requires QueueOk(p, queued, lives) && HeldOk(lives, held) && t in queued
    ensures var lives' := lives[t := lives[t].(place := Popped)];
            QueueOk(p, queued - {t}, lives') && HeldOk(lives', held + [t])
  {
    assert |queued - {t}| == |queued| - 1;
  }

  lemma PlacedTest(p: Params, s: State)
    requires Placed(p, s) && DispatcherEnabled(s, Test)
    ensures Placed(p, DispatcherApply(s, Test))
  {
    var Scanning(todo, matched) := s.dispatcher;
    var t := todo[0];
    assert t in s.queued;
    var s' := DispatcherApply(s, Test);
    ScanShrinks(s.queued, todo, matched);
    if t.cost <= s.window.remaining {
      PopPlaces(p, s.queued, s.lives, matched, t);
      QueuedIsNotCurrent(s.lives, s.dispatcher, t, s'.dispatcher);
      assert LivesOk(p, s'.lives);
    }
  }

  lemma ScanShrinks(queued: set<Ticket>, todo: seq<Ticket>, matched: seq<Ticket>)
    requires todo != [] && ScanOk(queued, Scanning(todo, matched))
    ensures ScanOk(queued, Scanning(todo[1..], matched))
    ensures ScanOk(queued - {todo[0]}, Scanning(todo[1..], matched + [todo[0]]))
  {
    assert todo == [todo[0]] + todo[1..];
  }

  lemma QueuedIsNotCurrent(lives: map<Ticket, Life>, d: Dispatcher, t: Ticket, d': Dispatcher)
    requires CurrentOk(lives, d) && d.Scanning? && d'.Scanning? && t in lives && lives[t].place.Queued?
    ensures CurrentOk(lives[t := lives[t].(place := Popped)], d')
  {
  }

  lemma PlacedBegin(p: Params, s: State, order: seq<Ticket>)
    requires Placed(p, s) && DispatcherEnabled(s, BeginScan(order))
    ensures Placed(p, DispatcherApply(s, BeginScan(order)))
  {
    PermutationOfSet(order, s.queued);
  }

  lemma SendPlaces(p: Params, queued: set<Ticket>, lives: map<Ticket, Life>, rest: seq<Ticket>)
    requires QueueOk(p, queued, lives) && HeldOk(lives, rest) && rest != []
    ensures var lives' := lives[rest[0] := lives[rest[0]].(place := Released, delivered := true)];
            QueueOk(p, queued, lives') && HeldOk(lives', rest[1..])
  {
    assert rest == [rest[0]] + rest[1..];
  }

  lemma PlacedSend(p: Params, s: State)
    requires Placed(p, s) && DispatcherEnabled(s, Send)
    ensures Placed(p, DispatcherApply(s, Send))
  {
    var s' := DispatcherApply(s, Send);
    SendPlaces(p, s.queued, s.lives, s.dispatcher.rest);
    assert CurrentOk(s'.lives, s'.dispatcher);
  }

  lemma PlacedRead(p: Params, s: State)
    requires Placed(p, s) && DispatcherEnabled(s, ReadFlag)
    ensures Placed(p, DispatcherApply(s, ReadFlag))
  {
    var s' := DispatcherApply(s, ReadFlag);
    var Reading(t, rest) := s.dispatcher;
    SamePlace(p, s.queued, s.lives, rest, t, s'.lives[t]);
    ReadIsCurrent(s.lives, t, rest, s'.lives[t]);
    assert LifeOk(s.lives[t]) && LifeOk(s'.lives[t]);
  }

  lemma ReadIsCurrent(lives: map<Ticket, Life>, t: Ticket, rest: seq<Ticket>, l: Life)
    requires CurrentOk(lives, Reading(t, rest)) && l.place.Released?
    ensures l.verdict.SawCancelled? ==> CurrentOk(lives[t := l], Releasing(rest))
    ensures l.verdict.SawLive? ==> CurrentOk(lives[t := l], Debiting(t, rest))
  {
  }

  lemma PlacedDebit(p: Params, s: State)
    requires Placed(p, s) && DispatcherEnabled(s, Debit)
    ensures Placed(p, DispatcherApply(s, Debit))
  {
    var s' := DispatcherApply(s, Debit);
    var t := s.dispatcher.t;
    SamePlace(p, s.queued, s.lives, Held(s.dispatcher), t, s'.lives[t]);
    assert LivesOk(p, s'.lives);
    assert CurrentOk(s'.lives, s'.dispatcher);
  }

  lemma PlacedStep(p: Params, s: State, step: Step)
    requires Placed(p, s) && Enabled(p, s, step)
    ensures Placed(p, Apply(p, s, step))
  {
    match step
    case ByHandler(t, h) => PlacedHandler(p, s, t, h);
    case ByTicker(k) =>
    case ByDispatcher(d) =>
      match d {
        case BeginScan(order) => PlacedBegin(p, s, order);
        case Test => PlacedTest(p, s);
        case Send => PlacedSend(p, s);
        case ReadFlag => PlacedRead(p, s);
        case Debit => PlacedDebit(p, s);
        case RecvWork => case RecvReset => case EndScan => case Loop =>
      }
  }

  // ----- Sums over the accepted tickets -----

  ghost function Weigh(lives: map<Ticket, Life>, w: (Ticket, Life) -> int): int {
    if lives == map[] then 0 else
      var t :| t in lives;
      w(t, lives[t]) + Weigh(lives - {t}, w)
  }

  lemma {:induction false} WeighTake(lives: map<Ticket, Life>, w: (Ticket, Life) -> int, t: Ticket)
    requires t in lives
    ensures Weigh(lives, w) == w(t, lives[t]) + Weigh(lives - {t}, w)
    decreases lives
  {
    var u :| u in lives && Weigh(lives, w) == w(u, lives[u]) + Weigh(lives - {u}, w);
    if u != t {
      WeighTake(lives - {u}, w, t);
      WeighTake(lives - {t}, w, u);
      assert lives - {u} - {t} == lives - {t} - {u};
    }
  }

  /** Replacing one record shifts the sum by the difference of its weights. */
  lemma WeighUpdate(lives: map<Ticket, Life>, w: (Ticket, Life) -> int, t: Ticket, l: Life)
    ensures Weigh(lives[t := l], w) == Weigh(lives, w) + w(t, l) - (if t in lives then w(t, lives[t]) else 0)
  {
    WeighTake(lives[t := l], w, t);
    if t in lives {
      WeighTake(lives, w, t);
      assert lives[t := l] - {t} == lives - {t};
    } else {
      assert lives[t := l] - {t} == lives;
    }
  }

  lemma {:induction false} WeighMinus(lives: map<Ticket, Life>, u: (Ticket, Life) -> int, v: (Ticket, Life) -> int,
                                      w: (Ticket, Life) -> int)
    requires forall t <- lives :: u(t, lives[t]) == v(t, lives[t]) - w(t, lives[t])
    ensures Weigh(lives, u) == Weigh(lives, v) - Weigh(lives, w)
    decreases lives
  {
    if lives != map[] {
      var t :| t in lives;
      WeighTake(lives, u, t);
      WeighTake(lives, v, t);
      WeighTake(lives, w, t);
      WeighMinus(lives - {t}, u, v, w);
    }
  }

  /** A sum of non-negative weights is zero exactly when every weight is. */
  lemma {:induction false} WeighPositive(lives: map<Ticket, Life>, w: (Ticket, Life) -> int)
    requires forall t <- lives :: w(t, lives[t]) >= 0
    ensures Weigh(lives, w) >= 0
    ensures Weigh(lives, w) == 0 <==> forall t <- lives :: w(t, lives[t]) == 0
    decreases lives
  {
    if lives != map[] {
      var t :| t in lives;
      var rest := lives - {t};
      WeighTake(lives, w, t);
      WeighPositive(rest, w);
      assert forall u <- lives :: u != t ==> u in rest && rest[u] == lives[u];
    }
  }

  // ----- The token ledger -----

  function Net(t: Ticket, l: Life): int {
    t.cost * (l.credits - l.debits)
  }

  /** The counter is the costs credited minus the costs debited. */
  ghost predicate Booked(s: State) {
    s.pending == Weigh(s.lives, Net)
  }

  lemma NetShift(t: Ticket, l: Life, l': Life, d: int)
    requires l'.credits - l'.debits == l.credits - l.debits + d
    ensures Net(t, l') == Net(t, l) + t.cost * d
  {
    assert t.cost * (l.credits - l.debits + d) == t.cost * (l.credits - l.debits) + t.cost * d;
  }

  lemma BookedHandler(p: Params, s: State, t: Ticket, h: HandlerStep)
    requires Booked(s) && HandlerEnabled(p, s, t, h)
    ensures Booked(HandlerApply(p, s, t, h))
  {
    var s' := HandlerApply(p, s, t, h);
    if !h.RejectFull? {
      WeighUpdate(s.lives, Net, t, s'.lives[t]);
      if !h.Push? {
        NetShift(t, s.lives[t], s'.lives[t], if h.Account? then 1 else if h.CancelDebit? then -1 else 0);
      }
    }
  }

  /** The one ticket whose record a dispatcher step may change. */
  function Touched(s: State, d: DispatcherStep): Option<Ticket>
    requires DispatcherEnabled(s, d)
  {
    match d
    case Test => Some(s.dispatcher.todo[0])
    case Send => Some(s.dispatcher.rest[0])
    case ReadFlag => Some(s.dispatcher.t)
    case Debit => Some(s.dispatcher.t)
    case _ => None
  }

  lemma BookedDispatcher(s: State, d: DispatcherStep)
    requires Booked(s) && DispatcherEnabled(s, d)
    ensures Booked(DispatcherApply(s, d))
  {
    var s' := DispatcherApply(s, d);
    var touched := Touched(s, d);
    if touched.Some? {
      var t := touched.value;
      if s'.lives == s.lives[t := s'.lives[t]] {
        WeighUpdate(s.lives, Net, t, s'.lives[t]);
        NetShift(t, s.lives[t], s'.lives[t], if d.Debit? then -1 else 0);
      }
    }
  }

  // ----- The token budget -----

  function PoppedCost(t: Ticket, l: Life): int {
    if l.place.Queued? then 0 else t.cost
  }

  /** Tokens are neither lost nor invented: the window is split into what is left
      and what was consumed since the last refill, and everything ever consumed
      was the cost of a popped ticket. */
  ghost predicate Budgeted(p: Params, s: State) {
    && 0 <= s.window.remaining <= p.capacity
    && s.window.remaining + s.window.consumed == p.capacity
    && s.window.spent <= s.window.resets * p.capacity + s.window.consumed
    && s.window.spent == Weigh(s.lives, PoppedCost)
  }

  lemma BudgetedHandler(p: Params, s: State, t: Ticket, h: HandlerStep)
    requires Placed(p, s) && Budgeted(p, s) && HandlerEnabled(p, s, t, h)
    ensures Budgeted(p, HandlerApply(p, s, t, h))
  {
    if !h.RejectFull? {
      WeighUpdate(s.lives, PoppedCost, t, HandlerApply(p, s, t, h).lives[t]);
      if !h.Push? { HandlerKeepsLife(p, s, t, h); }
    }
  }

  lemma BudgetedTest(p: Params, s: State)
    requires Placed(p, s) && Budgeted(p, s) && DispatcherEnabled(s, Test)
    ensures Budgeted(p, DispatcherApply(s, Test))
  {
    var t := s.dispatcher.todo[0];
    assert t in s.queued;
    WeighUpdate(s.lives, PoppedCost, t, s.lives[t].(place := Popped));
  }

  lemma BudgetedDispatcher(p: Params, s: State, d: DispatcherStep)
    requires Placed(p, s) && Budgeted(p, s) && DispatcherEnabled(s, d) && !d.Test?
    ensures Budgeted(p, DispatcherApply(s, d))
  {
    var s' := DispatcherApply(s, d);
    match d
    case Send =>
      var t := s.dispatcher.rest[0];
      WeighUpdate(s.lives, PoppedCost, t, s'.lives[t]);
    case ReadFlag => WeighUpdate(s.lives, PoppedCost, s.dispatcher.t, s'.lives[s.dispatcher.t]);
    case Debit => WeighUpdate(s.lives, PoppedCost, s.dispatcher.t, s'.lives[s.dispatcher.t]);
    case _ =>
  }

  lemma BudgetedTicker(p: Params, s: State, k: TickerStep)
    requires Budgeted(p, s) && TickerEnabled(s, k)
    ensures Budgeted(p, TickerApply(p, s, k))
  {
    assert (s.window.resets + 1) * p.capacity == s.window.resets * p.capacity + p.capacity;
  }

  // ----- Wake-ups -----

  /** A scan that has not started yet is on its way. */
  ghost predicate WakeInFlight(s: State) {
    || s.work > 0
    || s.window.resetFull
    || s.window.ticker.Refilled?
    || s.dispatcher.Woken?
    || exists t :: At(s, t, Pushed) || At(s, t, Accounted)
  }

  /** No wake-up is lost: a queued ticket that fits is about to be tested, by the
      scan under way or by one on its way. */
  ghost predicate Watched(s: State) {
    forall t <- s.queued :: t.cost <= s.window.remaining ==>
      WakeInFlight(s) || (s.dispatcher.Scanning? && t in s.dispatcher.todo)
  }

  lemma WatchedHandler(p: Params, s: State, t: Ticket, h: HandlerStep)
    requires Watched(s) && HandlerEnabled(p, s, t, h)
    ensures Watched(HandlerApply(p, s, t, h))
  {
    var s' := HandlerApply(p, s, t, h);
    match h
    case Push => assert At(s', t, Pushed);
    case RejectFull =>
    case Account => assert At(s', t, Accounted);
    case Signal =>
    case _ =>
      if WakeInFlight(s) {
        if u :| At(s, u, Pushed) || At(s, u, Accounted) {
          assert At(s', u, s.lives[u].handler);
        }
      }
  }

  lemma SameHandlersSameWake(s: State, s': State)
    requires forall t :: t in s.lives ==> t in s'.lives && s'.lives[t].handler == s.lives[t].handler
    requires s'.work == s.work && s'.window.resetFull == s.window.resetFull && s'.window.ticker == s.window.ticker
    requires !s.dispatcher.Woken? && WakeInFlight(s)
    ensures WakeInFlight(s')
  {
    if t :| At(s, t, Pushed) || At(s, t, Accounted) {
      assert At(s', t, s.lives[t].handler);
    }
  }

  lemma WatchedDispatcher(p: Params, s: State, d: DispatcherStep)
    requires Placed(p, s) && Watched(s) && DispatcherEnabled(s, d)
    ensures Watched(DispatcherApply(s, d))
  {
    var s' := DispatcherApply(s, d);
    match d
    case RecvWork =>
    case RecvReset =>
    case BeginScan(order) => PermutationOfSet(order, s.queued);
    case Test =>
      var todo := s.dispatcher.todo;
      assert todo == [todo[0]] + todo[1..];
      assert todo[0] in s.queued;
      if WakeInFlight(s) { SameHandlersSameWake(s, s'); }
    case _ =>
      if WakeInFlight(s) { SameHandlersSameWake(s, s'); }
  }

  // ----- The invariant of every run -----

  ghost predicate Inv(p: Params, s: State) {
    Placed(p, s) && Booked(s) && Budgeted(p, s) && Watched(s)
  }

  lemma InvStep(p: Params, s: State, step: Step)
    requires Inv(p, s) && Enabled(p, s, step)
    ensures Inv(p, Apply(p, s, step))
  {
    PlacedStep(p, s, step);
    match step
    case ByHandler(t, h) =>
      BookedHandler(p, s, t, h);
      BudgetedHandler(p, s, t, h);
      WatchedHandler(p, s, t, h);
    case ByDispatcher(d) =>
      BookedDispatcher(s, d);
      if d.Test? { BudgetedTest(p, s); } else { BudgetedDispatcher(p, s, d); }
      WatchedDispatcher(p, s, d);
    case ByTicker(k) =>
      BudgetedTicker(p, s, k);
  }

  /** Every step of every run keeps every ticket in one place, the books
      balanced, the budget whole and every fitting ticket watched. */
  lemma {:induction false} InvRun(p: Params, s: State, run: seq<Step>)
    requires Inv(p, s) && Exec(p, s, run).Some?
    ensures Inv(p, Exec(p, s, run).value)
  {
    if run != [] {
      var n := |run| - 1;
      InvRun(p, s, run[..n]);
      InvStep(p, Exec(p, s, run[..n]).value, run[n]);
    }
  }

  lemma InvReachable(p: Params, s: State)
    requires Reachable(p, s)
    ensures Inv(p, s)
  {
    var run :| Exec(p, Init(p), run) == Some(s);
    InvRun(p, Init(p), run);
  }
}
