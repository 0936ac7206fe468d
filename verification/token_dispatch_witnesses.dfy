/** Runs of the token dispatch protocol that show where its guarantees end. */
module TokenWitnesses {
  import opened Tickets
  import opened TokenDispatch
  import opened TokenInvariants
  import opened TokenTheorems

  // ----- Stretches of a run -----

  /** One more step of a run. */
  lemma Extended(p: Params, run: seq<Step>, s: State, step: Step) returns (run': seq<Step>, s': State)
    requires Exec(p, Init(p), run) == Some(s) && Enabled(p, s, step)
    ensures Exec(p, Init(p), run') == Some(s') && s' == Apply(p, s, step)
  {
    ExecNext(p, Init(p), run, s, step);
    run', s' := run + [step], Apply(p, s, step);
  }

  /** A ticket arrives at an empty queue and is counted, but not yet announced. */
  lemma AnnounceOnly(p: Params, run: seq<Step>, s: State, t: Ticket) returns (run': seq<Step>, s': State)
    requires Exec(p, Init(p), run) == Some(s) && t !in s.lives && 1 <= t.cost <= p.capacity && p.maxQueue >= 1
    requires s.dispatcher.Idle? && s.queued == {}
    ensures Exec(p, Init(p), run') == Some(s')
    ensures s'.pending == s.pending + t.cost && s'.queued == {t} && s'.work == s.work
    ensures s'.dispatcher.Idle? && s'.window == s.window && s'.lives == s.lives[t := Arrived().(handler := Accounted)]
  {
    run', s' := Extended(p, run, s, ByHandler(t, Push));
    run', s' := Extended(p, run', s', ByHandler(t, Account));
    Overwritten(s.lives, t, Arrived().(handler := Pushed, credits := 0), Arrived().(handler := Accounted));
  }

  /** A ticket arrives at an empty queue, and the dispatcher wakes. */
  lemma ArriveOnly(p: Params, run: seq<Step>, s: State, t: Ticket) returns (run': seq<Step>, s': State)
    requires Exec(p, Init(p), run) == Some(s) && t !in s.lives && 1 <= t.cost <= p.capacity && p.maxQueue >= 1
    requires s.dispatcher.Idle? && s.queued == {} && s.work == 0
    ensures Exec(p, Init(p), run') == Some(s')
    ensures s'.pending == s.pending + t.cost && s'.queued == {t} && s'.work == 0
    ensures s'.dispatcher.Woken? && s'.window == s.window && s'.lives == s.lives[t := Arrived()]
  {
    run', s' := AnnounceOnly(p, run, s, t);
    run', s' := Extended(p, run', s', ByHandler(t, Signal));
    Overwritten(s.lives, t, Arrived().(handler := Accounted), Arrived());
    run', s' := Extended(p, run', s', ByDispatcher(RecvWork));
  }

  /** The record of a queued ticket whose handler waits. */
  function Arrived(): Life {
    Life(Waiting, Queued, false, false, Unread, 1, 0, false)
  }

  lemma Overwritten(lives: map<Ticket, Life>, t: Ticket, a: Life, b: Life)
    ensures lives[t := a][t := b] == lives[t := b]
  {
  }

  /** A scan that pops the one queued ticket. */
  lemma PopOnly(p: Params, run: seq<Step>, s: State, t: Ticket) returns (run': seq<Step>, s': State)
    requires Exec(p, Init(p), run) == Some(s)
    requires s.dispatcher.Woken? && s.queued == {t} && t in s.lives && t.cost <= s.window.remaining
    ensures Exec(p, Init(p), run') == Some(s') && s'.pending == s.pending && s'.work == s.work
    ensures s'.window == s.window.(remaining := s.window.remaining - t.cost,
                                   consumed := s.window.consumed + t.cost, spent := s.window.spent + t.cost)
    ensures s'.queued == {} && s'.dispatcher == Releasing([t]) && s'.lives == s.lives[t := s.lives[t].(place := Popped)]
  {
    run', s' := Extended(p, run, s, ByDispatcher(BeginScan([t])));
    run', s' := Extended(p, run', s', ByDispatcher(Test));
    assert s'.dispatcher == Scanning([], [t]);
    run', s' := Extended(p, run', s', ByDispatcher(EndScan));
  }

  /** The send to a ticket that is not cancelled, and the read of its flag. */
  lemma SendOnly(p: Params, run: seq<Step>, s: State, t: Ticket) returns (run': seq<Step>, s': State)
    requires Exec(p, Init(p), run) == Some(s)
    requires s.dispatcher == Releasing([t]) && t in s.lives && !s.lives[t].delivered && !s.lives[t].cancelled
    ensures Exec(p, Init(p), run') == Some(s') && s'.pending == s.pending && s'.work == s.work && s'.queued == s.queued
    ensures s'.window == s.window && s'.dispatcher == Debiting(t, [])
    ensures s'.lives == s.lives[t := s.lives[t].(place := Released, delivered := true, verdict := SawLive)]
  {
    run', s' := Extended(p, run, s, ByDispatcher(Send));
    assert s'.dispatcher == Reading(t, []);
    run', s' := Extended(p, run', s', ByDispatcher(ReadFlag));
  }

  /** A ticket arrives at an empty queue and is served. */
  lemma ServeFull(p: Params, run: seq<Step>, s: State, t: Ticket) returns (run': seq<Step>, s': State)
    requires Exec(p, Init(p), run) == Some(s) && t !in s.lives && 1 <= t.cost <= p.capacity && p.maxQueue >= 1
    requires s.dispatcher.Idle? && s.queued == {} && s.work == 0 && s.window.remaining >= t.cost
    ensures Exec(p, Init(p), run') == Some(s') && s'.lives.Keys == s.lives.Keys + {t}
    ensures s'.dispatcher.Idle? && s'.queued == {} && s'.work == 0
    ensures s'.window == s.window.(remaining := s.window.remaining - t.cost,
                                   consumed := s.window.consumed + t.cost, spent := s.window.spent + t.cost)
  {
    run', s' := ArriveOnly(p, run, s, t);
    run', s' := PopOnly(p, run', s', t);
    run', s' := SendOnly(p, run', s', t);
    run', s' := Extended(p, run', s', ByDispatcher(Debit));
    run', s' := Extended(p, run', s', ByDispatcher(Loop));
  }

  // ----- A queue of any size -----

  function OneToken(i: nat): Ticket {
    Ticket(i, 0, 0, 1)
  }

  /** Every length up to the maximum is reached, the maximum included. */
  lemma {:induction false} PushedUpTo(p: Params, n: nat) returns (run: seq<Step>, s: State)
    requires p.capacity >= 1 && n <= p.maxQueue
    ensures Exec(p, Init(p), run) == Some(s) && |s.queued| == n && s.dispatcher.Idle?
    ensures forall i: nat :: i >= n ==> OneToken(i) !in s.lives && OneToken(i) !in s.queued
  {
    if n == 0 {
      run, s := [], Init(p);
    } else {
      run, s := PushedUpTo(p, n - 1);
      var t := OneToken(n - 1);
      assert |s.queued + {t}| == n;
      assert forall i: nat :: i >= n ==> OneToken(i) != t;
      run, s := Extended(p, run, s, ByHandler(t, Push));
    }
  }

  lemma QueueOfAnySize(p: Params, n: nat) returns (s: State)
    requires p.capacity >= 1 && n <= p.maxQueue
    ensures Reachable(p, s) && |s.queued| == n
  {
    var run;
    run, s := PushedUpTo(p, n);
  }

  // ----- The counter -----

  /** The counter is not always a sum of queued costs: a reset can trigger a scan
      between a push and its credit, and the counter goes negative. */
  lemma CounterCanBeNegative(p: Params, t: Ticket) returns (s: State)
    requires 1 <= t.cost <= p.capacity && p.maxQueue >= 1
    ensures Reachable(p, s) && s.pending == -t.cost && s.queued == {}
  {
    var run: seq<Step> := [];
    s := Init(p);
    run, s := Extended(p, run, s, ByTicker(Refill));
    run, s := Extended(p, run, s, ByTicker(SignalReset));
    run, s := Extended(p, run, s, ByHandler(t, Push));
    run, s := Extended(p, run, s, ByDispatcher(RecvReset));
    run, s := PopOnly(p, run, s, t);
    run, s := SendOnly(p, run, s, t);
    run, s := Extended(p, run, s, ByDispatcher(Debit));
  }

  /** A disconnect between the dispatcher's read and its debit leaves the counter
      below the queued cost, with the books closed and the queue empty. */
  lemma LateCancelIsDebitedTwice(p: Params, t: Ticket) returns (s: State)
    requires 1 <= t.cost <= p.capacity && p.maxQueue >= 1
    ensures Reachable(p, s) && BooksClosed(s) && s.queued == {} && s.pending == -t.cost
  {
    var run, _ := ArriveOnly(p, [], Init(p), t);
    s := Exec(p, Init(p), run).value;
    run, s := PopOnly(p, run, s, t);
    run, s := SendOnly(p, run, s, t);
    run, s := Extended(p, run, s, ByHandler(t, Disconnect));
    run, s := Extended(p, run, s, ByHandler(t, CancelDebit));
    run, s := Extended(p, run, s, ByDispatcher(Debit));
  }

  // ----- The token budget -----

  /** The i-th ticket of a run that serves one full window after another. */
  function FullWindow(p: Params, i: nat): Ticket {
    Ticket(i, 0, 0, p.capacity)
  }

  /** At rest with an empty queue, after serving the first n full windows. */
  ghost predicate ServedWindows(p: Params, s: State, n: nat) {
    && s.dispatcher.Idle? && s.queued == {} && s.work == 0 && s.window.ticker.Resting?
    && s.window.spent == n * p.capacity
    && forall i: nat :: i >= n ==> FullWindow(p, i) !in s.lives
  }

  lemma NextFullWindow(p: Params, run: seq<Step>, s: State, n: nat) returns (run': seq<Step>, s': State)
    requires p.capacity >= 1 && p.maxQueue >= 1 && Exec(p, Init(p), run) == Some(s)
    requires ServedWindows(p, s, n) && s.window.remaining == p.capacity
    ensures Exec(p, Init(p), run') == Some(s') && ServedWindows(p, s', n + 1) && s'.window.resets == s.window.resets
  {
    run', s' := ServeFull(p, run, s, FullWindow(p, n));
    assert (n + 1) * p.capacity == n * p.capacity + p.capacity;
    forall i: nat | i >= n + 1 ensures FullWindow(p, i) !in s'.lives {
      assert FullWindow(p, i) != FullWindow(p, n);
      assert FullWindow(p, i) !in s.lives.Keys;
    }
  }

  lemma RefillOnly(p: Params, run: seq<Step>, s: State, n: nat) returns (run': seq<Step>, s': State)
    requires Exec(p, Init(p), run) == Some(s) && ServedWindows(p, s, n)
    ensures Exec(p, Init(p), run') == Some(s') && ServedWindows(p, s', n)
    ensures s'.window.remaining == p.capacity && s'.window.resets == s.window.resets + 1
  {
    run', s' := Extended(p, run, s, ByTicker(Refill));
    run', s' := Extended(p, run', s', ByTicker(SignalReset));
  }

  lemma {:induction false} FullWindows(p: Params, k: nat) returns (run: seq<Step>, s: State)
    requires p.capacity >= 1 && p.maxQueue >= 1
    ensures Exec(p, Init(p), run) == Some(s) && ServedWindows(p, s, k + 1) && s.window.resets == k
  {
    if k == 0 {
      run, s := NextFullWindow(p, [], Init(p), 0);
    } else {
      run, s := FullWindows(p, k - 1);
      run, s := RefillOnly(p, run, s, k);
      run, s := NextFullWindow(p, run, s, k);
    }
  }

  /** The bound is met for every number of refills: k + 1 full windows are popped
      in a run with k refills, two of them around each refill if it comes in time. */
  lemma BudgetIsTight(p: Params, k: nat) returns (s: State)
    requires p.capacity >= 1 && p.maxQueue >= 1
    ensures Reachable(p, s) && s.window.resets == k && Weigh(s.lives, PoppedCost) == (k + 1) * p.capacity
  {
    var run;
    run, s := FullWindows(p, k);
    InvReachable(p, s);
  }

  // ----- Sends that wait -----

  /** A ticket arrives at an empty queue, and the scan of a refill serves it before
      the dispatcher takes its signal. */
  lemma ServeUnheard(p: Params, run: seq<Step>, s: State, t: Ticket) returns (run': seq<Step>, s': State)
    requires Exec(p, Init(p), run) == Some(s) && t !in s.lives && 1 <= t.cost <= p.capacity
    requires s.dispatcher.Idle? && s.queued == {} && s.work < p.maxQueue && s.window.ticker.Resting?
    ensures Exec(p, Init(p), run') == Some(s') && s'.lives.Keys == s.lives.Keys + {t}
    ensures s'.dispatcher.Idle? && s'.queued == {} && s'.work == s.work + 1 && s'.window.ticker.Resting?
  {
    run', s' := AnnounceOnly(p, run, s, t);
    run', s' := Extended(p, run', s', ByHandler(t, Signal));
    Overwritten(s.lives, t, Arrived().(handler := Accounted), Arrived());
    run', s' := Extended(p, run', s', ByTicker(Refill));
    run', s' := Extended(p, run', s', ByTicker(SignalReset));
    run', s' := Extended(p, run', s', ByDispatcher(RecvReset));
    run', s' := PopOnly(p, run', s', t);
    run', s' := SendOnly(p, run', s', t);
    run', s' := Extended(p, run', s', ByDispatcher(Debit));
    run', s' := Extended(p, run', s', ByDispatcher(Loop));
  }

  /** A run that leaves n signals in `work` and an empty queue. */
  lemma {:induction false} StaleSignals(p: Params, n: nat) returns (run: seq<Step>, s: State)
    requires p.capacity >= 1 && n <= p.maxQueue
    ensures Exec(p, Init(p), run) == Some(s)
    ensures s.dispatcher.Idle? && s.queued == {} && s.work == n && s.window.ticker.Resting?
    ensures forall i: nat :: i >= n ==> OneToken(i) !in s.lives
  {
    if n == 0 {
      run, s := [], Init(p);
    } else {
      run, s := StaleSignals(p, n - 1);
      var before := s.lives;
      run, s := ServeUnheard(p, run, s, OneToken(n - 1));
      forall i: nat | i >= n ensures OneToken(i) !in s.lives {
        assert OneToken(i) != OneToken(n - 1);
        assert OneToken(i) !in before.Keys;
      }
    }
  }

  /** A handler whose push just succeeded faces a full `work` channel. */
  lemma SendCanWait(p: Params) returns (s: State, t: Ticket)
    requires p.capacity >= 1 && p.maxQueue >= 1
    ensures Reachable(p, s) && At(s, t, Accounted) && !HandlerEnabled(p, s, t, Signal)
  {
    var run;
    run, s := StaleSignals(p, p.maxQueue);
    t := OneToken(p.maxQueue);
    run, s := AnnounceOnly(p, run, s, t);
  }

  ghost predicate SendsNeverWait(p: Params) {
    forall s, t :: Reachable(p, s) && At(s, t, Accounted) ==> HandlerEnabled(p, s, t, Signal)
  }

  /** Under `token_window` the send after a push is sure to find room if and only if
      no push can succeed at all. */
  lemma SendsNeverWaitIff(p: Params)
    ensures SendsNeverWait(p) <==> p.maxQueue == 0 || p.capacity == 0
  {
    if p.maxQueue >= 1 && p.capacity >= 1 {
      var s, t := SendCanWait(p);
    } else if !SendsNeverWait(p) {
      var s, t :| Reachable(p, s) && At(s, t, Accounted) && !HandlerEnabled(p, s, t, Signal);
      InvReachable(p, s);
      assert false;
    }
  }
}
