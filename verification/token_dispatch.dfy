/** The dispatch protocol of a `token_window` endpoint as a step machine. Any
    number of handlers, one dispatcher and the reset ticker share a queue, a
    token budget, the `work` channel, a one-slot reset channel and the counter of
    pending tokens. Every lock region, channel operation and atomic operation is
    a step of its own, and steps interleave freely. */
module TokenDispatch {
  import opened Tickets
  import opened TokenWindows

  /** Capacity of the window, and of the queue (hence of the `work` channel). */
  datatype Params = Params(capacity: nat, maxQueue: nat)

  /** Where the handler of a ticket stands after its push succeeded. */
  datatype Handler =
    | Pushed      // counter not yet raised
    | Accounted   // counter raised, `work` not yet signalled
    | Waiting     // at the select
    | Served      // took the value from its release channel
    | Cancelling  // client gone and ticket marked, counter not yet lowered
    | Gone        // counter lowered, handler returned

  datatype Place = Queued | Popped | Released // Released: sent on its release channel

  /** What the dispatcher did about the counter after releasing the ticket. */
  datatype Verdict = Unread | SawCancelled | SawLive | Lowered

  /** One accepted ticket. The last three fields are history: how often the
      counter was raised and lowered for it, and whether its `Cancel` came after
      the dispatcher had read it as not cancelled. */
  datatype Life = Life(
    handler: Handler, place: Place, delivered: bool, cancelled: bool, verdict: Verdict,
    credits: nat, debits: nat, late: bool)

  datatype Dispatcher =
    | Idle                                              // at the select
    | Woken                                             // received a signal, queue lock not yet taken
    | Scanning(todo: seq<Ticket>, matched: seq<Ticket>) // in PopWhere, holding the queue lock
    | Releasing(rest: seq<Ticket>)                      // at the head of the release loop
    | Reading(t: Ticket, rest: seq<Ticket>)             // sent to t, flag not yet read
    | Debiting(t: Ticket, rest: seq<Ticket>)            // read "not cancelled", counter not yet lowered

  datatype Ticker = Resting | Refilled // Refilled: budget restored, reset channel not yet signalled

  /** The token window; the last three fields are history. */
  datatype Window = Window(
    remaining: int, resetFull: bool, ticker: Ticker, consumed: int, resets: nat, spent: int)

  datatype State = State(
    window: Window, queued: set<Ticket>, lives: map<Ticket, Life>, work: nat, pending: int, dispatcher: Dispatcher)

  datatype HandlerStep = Push | RejectFull | Account | Signal | TakeRelease | Disconnect | CancelDebit
  datatype DispatcherStep =
    | RecvWork | RecvReset | BeginScan(order: seq<Ticket>) | Test | EndScan | Send | ReadFlag | Debit | Loop
  datatype TickerStep = Refill | SignalReset
  datatype Step = ByHandler(t: Ticket, h: HandlerStep) | ByDispatcher(d: DispatcherStep) | ByTicker(k: TickerStep)

  function Init(p: Params): State {
    State(Window(p.capacity, false, Resting, 0, 0, 0), {}, map[], 0, 0, Idle)
  }

  predicate At(s: State, t: Ticket, h: Handler) {
    t in s.lives && s.lives[t].handler == h
  }

  // ----- Handlers -----

  /** A push needs the queue lock, which a scan holds from its first test to its
      last. Costs were checked on admission: at least one token, at most a full
      window. A send on `work` blocks while the channel is full. */
  predicate HandlerEnabled(p: Params, s: State, t: Ticket, h: HandlerStep) {
    match h
    case Push => t !in s.lives && 1 <= t.cost <= p.capacity && !s.dispatcher.Scanning? && |s.queued| < p.maxQueue
    case RejectFull => t !in s.lives && !s.dispatcher.Scanning? && |s.queued| >= p.maxQueue
    case Account => At(s, t, Pushed)
    case Signal => At(s, t, Accounted) && s.work < p.maxQueue
    case TakeRelease => At(s, t, Waiting) && s.lives[t].delivered
    case Disconnect => At(s, t, Waiting)
    case CancelDebit => At(s, t, Cancelling)
  }

  function HandlerApply(p: Params, s: State, t: Ticket, h: HandlerStep): State
    requires HandlerEnabled(p, s, t, h)
  {
    match h
    case Push =>
      s.(queued := s.queued + {t}, lives := s.lives[t := Life(Pushed, Queued, false, false, Unread, 0, 0, false)])
    case RejectFull => s
    case Account =>
      var l := s.lives[t];
      s.(pending := s.pending + t.cost, lives := s.lives[t := l.(handler := Accounted, credits := l.credits + 1)])
    case Signal => s.(work := s.work + 1, lives := s.lives[t := s.lives[t].(handler := Waiting)])
    case TakeRelease => s.(lives := s.lives[t := s.lives[t].(handler := Served, delivered := false)])
    case Disconnect =>
      var l := s.lives[t];
      s.(lives := s.lives[t := l.(handler := Cancelling, cancelled := true,
                                  late := l.verdict.SawLive? || l.verdict.Lowered?)])
    case CancelDebit =>
      var l := s.lives[t];
      s.(pending := s.pending - t.cost, lives := s.lives[t := l.(handler := Gone, debits := l.debits + 1)])
  }

  // ----- Dispatcher -----

  /** The scan may visit the queue in any order, so every scheduler is covered.
      A send on a release channel blocks while the channel holds a value. */
  predicate DispatcherEnabled(s: State, d: DispatcherStep) {
    match d
    case RecvWork => s.dispatcher.Idle? && s.work > 0
    case RecvReset => s.dispatcher.Idle? && s.window.resetFull
    case BeginScan(order) => s.dispatcher.Woken? && multiset(order) == multiset(s.queued)
    case Test => s.dispatcher.Scanning? && s.dispatcher.todo != [] && s.dispatcher.todo[0] in s.lives
    case EndScan => s.dispatcher.Scanning? && s.dispatcher.todo == []
    case Send =>
      s.dispatcher.Releasing? && s.dispatcher.rest != [] &&
      s.dispatcher.rest[0] in s.lives && !s.lives[s.dispatcher.rest[0]].delivered
    case ReadFlag => s.dispatcher.Reading? && s.dispatcher.t in s.lives
    case Debit => s.dispatcher.Debiting? && s.dispatcher.t in s.lives
    case Loop => s.dispatcher.Releasing? && s.dispatcher.rest == []
  }

  function DispatcherApply(s: State, d: DispatcherStep): State
    requires DispatcherEnabled(s, d)
  {
    match d
    case RecvWork => s.(work := s.work - 1, dispatcher := Woken)
    case RecvReset => s.(window := s.window.(resetFull := false), dispatcher := Woken)
    case BeginScan(order) => s.(dispatcher := Scanning(order, []))
    case Test =>
      var Scanning(todo, matched) := s.dispatcher;
      var t := todo[0];
      var (fits, left) := Consume(s.window.remaining, t);
      if fits then
        s.(window := s.window.(remaining := left,
                               consumed := s.window.consumed + t.cost, spent := s.window.spent + t.cost),
           queued := s.queued - {t},
           lives := s.lives[t := s.lives[t].(place := Popped)],
           dispatcher := Scanning(todo[1..], matched + [t]))
      else
        s.(dispatcher := Scanning(todo[1..], matched))
    case EndScan => s.(dispatcher := Releasing(s.dispatcher.matched))
    case Send =>
      var t := s.dispatcher.rest[0];
      s.(lives := s.lives[t := s.lives[t].(place := Released, delivered := true)],
         dispatcher := Reading(t, s.dispatcher.rest[1..]))
    case ReadFlag =>
      var Reading(t, rest) := s.dispatcher;
      if s.lives[t].cancelled then
        s.(lives := s.lives[t := s.lives[t].(verdict := SawCancelled)], dispatcher := Releasing(rest))
      else
        s.(lives := s.lives[t := s.lives[t].(verdict := SawLive)], dispatcher := Debiting(t, rest))
    case Debit =>
      var Debiting(t, rest) := s.dispatcher;
      var l := s.lives[t];
      s.(pending := s.pending - t.cost,
         lives := s.lives[t := l.(verdict := Lowered, debits := l.debits + 1)],
         dispatcher := Releasing(rest))
    case Loop => s.(dispatcher := Idle)
  }

  // ----- Ticker -----

  predicate TickerEnabled(s: State, k: TickerStep) {
    match k
    case Refill => s.window.ticker.Resting?
    case SignalReset => s.window.ticker.Refilled?
  }

  /** The signal after a refill never blocks: a full reset channel stays full. */
  function TickerApply(p: Params, s: State, k: TickerStep): State
    requires TickerEnabled(s, k)
  {
    match k
    case Refill =>
      s.(window := s.window.(remaining := p.capacity, ticker := Refilled, consumed := 0, resets := s.window.resets + 1))
    case SignalReset => s.(window := s.window.(resetFull := true, ticker := Resting))
  }

  // ----- Runs -----

  predicate Enabled(p: Params, s: State, step: Step) {
    match step
    case ByHandler(t, h) => HandlerEnabled(p, s, t, h)
    case ByDispatcher(d) => DispatcherEnabled(s, d)
    case ByTicker(k) => TickerEnabled(s, k)
  }

  function Apply(p: Params, s: State, step: Step): State
    requires Enabled(p, s, step)
  {
    match step
    case ByHandler(t, h) => HandlerApply(p, s, t, h)
    case ByDispatcher(d) => DispatcherApply(s, d)
    case ByTicker(k) => TickerApply(p, s, k)
  }

  /** The state after a run, if every step of it was enabled in its turn. */
  function Exec(p: Params, s: State, run: seq<Step>): Option<State> {
    if run == [] then
      Some(s)
    else
      match Exec(p, s, run[..|run| - 1])
      case None => None
      case Some(u) =>
        var step := run[|run| - 1];
        if Enabled(p, u, step) then Some(Apply(p, u, step)) else None
  }

  ghost predicate Reachable(p: Params, s: State) {
    exists run :: Exec(p, Init(p), run) == Some(s)
  }
}
