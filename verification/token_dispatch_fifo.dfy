/** The token dispatch protocol with a first-in-first-out queue: how long a ticket
    can wait, wherever refills, credits and disconnects land. */
module FifoWaits {
  import opened Tickets
  import opened TokenWindows
  import opened TokenDispatch
  import opened TokenInvariants

  // ----- The line of tickets -----

  function PushedBy(step: Step): seq<Ticket> {
    if step.ByHandler? && step.h.Push? then [step.t] else []
  }

  /** The tickets pushed in a run, in the order of their pushes. */
  function Arrivals(run: seq<Step>): seq<Ticket> {
    if run == [] then [] else Arrivals(run[..|run| - 1]) + PushedBy(run[|run| - 1])
  }

  /** The tickets of a line that are still queued. */
  function Standing(line: seq<Ticket>, queued: set<Ticket>): seq<Ticket> {
    if line == [] then [] else
      var n := |line| - 1;
      Standing(line[..n], queued) + (if line[n] in queued then [line[n]] else [])
  }

  lemma {:induction false} StandingAppend(a: seq<Ticket>, b: seq<Ticket>, queued: set<Ticket>)
    ensures Standing(a + b, queued) == Standing(a, queued) + Standing(b, queued)
  {
    if b == [] {
      assert a + b == a;
    } else {
      var n := |b| - 1;
      assert (a + b)[..|a + b| - 1] == a + b[..n];
      StandingAppend(a, b[..n], queued);
    }
  }

  lemma {:induction false} StandingMembers(line: seq<Ticket>, queued: set<Ticket>)
    ensures forall t <- Standing(line, queued) :: t in line && t in queued
    ensures forall t <- line :: t in queued ==> t in Standing(line, queued)
  {
    if line != [] {
      var n := |line| - 1;
      assert line == line[..n] + [line[n]];
      StandingMembers(line[..n], queued);
    }
  }

  lemma {:induction false} StandingSame(line: seq<Ticket>, queued: set<Ticket>, queued': set<Ticket>)
    requires forall t <- line :: t in queued <==> t in queued'
    ensures Standing(line, queued) == Standing(line, queued')
  {
    if line != [] {
      var n := |line| - 1;
      assert line == line[..n] + [line[n]];
      StandingSame(line[..n], queued, queued');
    }
  }

  /** When a ticket leaves, the line gets no longer, and shorter if it stood there. */
  lemma {:induction false} StandingLeaves(line: seq<Ticket>, queued: set<Ticket>, t: Ticket)
    ensures |Standing(line, queued - {t})| <= |Standing(line, queued)|
    ensures t in line && t in queued ==> |Standing(line, queued - {t})| < |Standing(line, queued)|
  {
    if line != [] {
      var n := |line| - 1;
      assert line == line[..n] + [line[n]];
      StandingLeaves(line[..n], queued, t);
    }
  }

  /** The place in the whole line of the ticket with k standing tickets ahead. */
  lemma {:induction false} PlaceInLine(line: seq<Ticket>, queued: set<Ticket>, k: nat) returns (j: nat)
    requires k < |Standing(line, queued)|
    ensures j < |line| && line[j] == Standing(line, queued)[k] && |Standing(line[..j], queued)| == k
  {
    var n := |line| - 1;
    if k < |Standing(line[..n], queued)| {
      j := PlaceInLine(line[..n], queued, k);
      assert line[..n][..j] == line[..j];
    } else {
      j := n;
    }
  }

  // ----- Runs of a first-in-first-out queue -----

  /** Every scan of the run visits the queue in push order. */
  ghost predicate InPushOrder(p: Params, run: seq<Step>)
    requires Exec(p, Init(p), run).Some?
  {
    run == [] ||
    var n := |run| - 1;
    && InPushOrder(p, run[..n])
    && Orderly(run[n], Arrivals(run[..n]), Exec(p, Init(p), run[..n]).value.queued)
  }

  predicate Orderly(step: Step, line: seq<Ticket>, queued: set<Ticket>) {
    step.ByDispatcher? && step.d.BeginScan? ==> step.d.order == Standing(line, queued)
  }

  /** The scan that begins with this step finds a full window. */
  predicate BeginsFull(p: Params, u: State, step: Step) {
    step.ByDispatcher? && step.d.BeginScan? && u.window.remaining == p.capacity
  }

  /** The scans that begin at a full window, not counting the first `from` steps. */
  ghost function FullScans(p: Params, run: seq<Step>, from: nat): nat
    requires Exec(p, Init(p), run).Some?
  {
    if |run| <= from then 0 else
      var n := |run| - 1;
      FullScans(p, run[..n], from) + (if BeginsFull(p, Exec(p, Init(p), run[..n]).value, run[n]) then 1 else 0)
  }

  /** A scan has begun and has not tested anything. */
  predicate Untested(u: State) {
    u.dispatcher.Scanning? && u.dispatcher.matched == [] && |u.dispatcher.todo| == |u.queued|
  }

  function Due(p: Params, u: State): int {
    if Untested(u) && u.window.remaining == p.capacity then 1 else 0
  }

  ghost predicate LineOk(line: seq<Ticket>, u: State) {
    (forall t <- line :: t in u.lives) && (Untested(u) ==> u.dispatcher.todo == Standing(line, u.queued))
  }

  lemma LineStep(p: Params, u: State, step: Step, line: seq<Ticket>)
    requires Placed(p, u) && Enabled(p, u, step) && LineOk(line, u) && Orderly(step, line, u.queued)
    ensures LineOk(line + PushedBy(step), Apply(p, u, step))
  {
    var u' := Apply(p, u, step);
    assert line + [] == line;
    match step
    case ByHandler(t, h) =>
    case ByTicker(k) =>
    case ByDispatcher(d) => if d.Test? { NotUntested(p, u); }
  }

  /** After its first test a scan no longer counts as untested. */
  lemma NotUntested(p: Params, u: State)
    requires Placed(p, u) && DispatcherEnabled(u, Test)
    ensures !Untested(DispatcherApply(u, Test))
  {
    NoMoreThan(u.dispatcher.todo, u.queued);
  }

  lemma {:induction false} NoMoreThan(ts: seq<Ticket>, s: set<Ticket>)
    requires Distinct(ts) && forall t <- ts :: t in s
    ensures |ts| <= |s|
  {
    if ts != [] {
      var n := |ts| - 1;
      assert ts == ts[..n] + [ts[n]];
      assert |s - {ts[n]}| == |s| - 1;
      NoMoreThan(ts[..n], s - {ts[n]});
    }
  }

  lemma {:induction false} LineRun(p: Params, run: seq<Step>)
    requires Exec(p, Init(p), run).Some? && InPushOrder(p, run)
    ensures Placed(p, Exec(p, Init(p), run).value) && LineOk(Arrivals(run), Exec(p, Init(p), run).value)
  {
    InvRun(p, Init(p), run);
    if run != [] {
      var n := |run| - 1;
      LineRun(p, run[..n]);
      LineStep(p, Exec(p, Init(p), run[..n]).value, run[n], Arrivals(run[..n]));
    }
  }

  // ----- Bounded wait -----

  /** `t` has left the queue, or at most `slack` tickets, less the scan that is due to
      take the first of them, stand ahead of it. */
  ghost predicate OnTime(p: Params, u: State, ahead: seq<Ticket>, t: Ticket, slack: int) {
    t in u.lives && (t in u.queued ==> |Standing(ahead, u.queued)| - Due(p, u) <= slack)
  }

  /** The first test of a scan at a full window takes the head of the line. */
  lemma HeadIsTaken(p: Params, u: State, line: seq<Ticket>, ahead: seq<Ticket>, t: Ticket)
    requires Placed(p, u) && DispatcherEnabled(u, Test) && Due(p, u) == 1
    requires LineOk(line, u) && ahead + [t] <= line && t in u.queued
    ensures var u' := DispatcherApply(u, Test);
            t !in u'.queued || |Standing(ahead, u'.queued)| < |Standing(ahead, u.queued)|
  {
    var head := u.dispatcher.todo[0];
    var behind := line[|ahead| + 1..];
    assert line == ahead + [t] + behind;
    StandingAppend(ahead + [t], behind, u.queued);
    StandingAppend(ahead, [t], u.queued);
    StandingMembers([t], u.queued);
    assert head in u.queued && LifeOk(u.lives[head]);
    if Standing(ahead, u.queued) != [] {
      assert head == Standing(ahead, u.queued)[0];
      StandingMembers(ahead, u.queued);
      StandingLeaves(ahead, u.queued, head);
    } else {
      assert Standing([t], u.queued) != [];
      assert head == Standing([t], u.queued)[0];
    }
  }

  lemma TestOnTime(p: Params, u: State, line: seq<Ticket>, ahead: seq<Ticket>, t: Ticket, slack: int)
    requires Placed(p, u) && DispatcherEnabled(u, Test) && LineOk(line, u) && ahead + [t] <= line
    requires OnTime(p, u, ahead, t, slack)
    ensures OnTime(p, DispatcherApply(u, Test), ahead, t, slack)
  {
    NotUntested(p, u);
    StandingLeaves(ahead, u.queued, u.dispatcher.todo[0]);
    if Due(p, u) == 1 && t in u.queued { HeadIsTaken(p, u, line, ahead, t); }
  }

  lemma BeginOnTime(p: Params, u: State, order: seq<Ticket>, ahead: seq<Ticket>, t: Ticket, slack: int)
    requires DispatcherEnabled(u, BeginScan(order)) && OnTime(p, u, ahead, t, slack)
    ensures OnTime(p, DispatcherApply(u, BeginScan(order)), ahead, t,
                   slack - if u.window.remaining == p.capacity then 1 else 0)
  {
    PermutationOfSet(order, u.queued);
  }

  /** Steps between the scans put no ticket ahead, and take none back. */
  lemma OtherOnTime(p: Params, u: State, step: Step, ahead: seq<Ticket>, t: Ticket, slack: int)
    requires Placed(p, u) && Enabled(p, u, step) && OnTime(p, u, ahead, t, slack) && forall v <- ahead :: v in u.lives
    requires step.ByDispatcher? ==> !step.d.Test? && !step.d.BeginScan?
    ensures OnTime(p, Apply(p, u, step), ahead, t, slack)
  {
    var u' := Apply(p, u, step);
    StandingSame(ahead, u.queued, u'.queued);
    if Due(p, u) == 1 && u.dispatcher.todo == [] { assert |u.queued| == 0; }
  }

  lemma StepOnTime(p: Params, u: State, step: Step, line: seq<Ticket>, ahead: seq<Ticket>, t: Ticket, slack: int)
    requires Placed(p, u) && Enabled(p, u, step) && LineOk(line, u) && ahead + [t] <= line
    requires OnTime(p, u, ahead, t, slack)
    ensures OnTime(p, Apply(p, u, step), ahead, t, slack - if BeginsFull(p, u, step) then 1 else 0)
  {
    if step.ByDispatcher? && step.d.Test? {
      TestOnTime(p, u, line, ahead, t, slack);
    } else if step.ByDispatcher? && step.d.BeginScan? {
      BeginOnTime(p, u, step.d.order, ahead, t, slack);
    } else {
      forall v <- ahead ensures v in u.lives {
        var i :| 0 <= i < |ahead| && ahead[i] == v;
        assert line[i] == (ahead + [t])[i] == v;
      }
      OtherOnTime(p, u, step, ahead, t, slack);
    }
  }

  lemma {:induction false} RunOnTime(p: Params, run: seq<Step>, from: nat, ahead: seq<Ticket>, t: Ticket, k: nat)
    requires Exec(p, Init(p), run).Some? && InPushOrder(p, run) && from <= |run|
    requires Exec(p, Init(p), run[..from]).Some?
    requires ahead + [t] <= Arrivals(run[..from])
    requires OnTime(p, Exec(p, Init(p), run[..from]).value, ahead, t, k)
    ensures ahead + [t] <= Arrivals(run)
    ensures OnTime(p, Exec(p, Init(p), run).value, ahead, t, k - FullScans(p, run, from))
  {
    if |run| == from {
      assert run[..from] == run;
    } else {
      var n := |run| - 1;
      assert run[..n][..from] == run[..from];
      RunOnTime(p, run[..n], from, ahead, t, k);
      LineRun(p, run[..n]);
      var u := Exec(p, Init(p), run[..n]).value;
      StepOnTime(p, u, run[n], Arrivals(run[..n]), ahead, t, k - FullScans(p, run[..n], from));
    }
  }

  lemma PlaceIsTaken(p: Params, run: seq<Step>, from: nat, j: nat)
    requires Exec(p, Init(p), run).Some? && InPushOrder(p, run) && from <= |run|
    requires Exec(p, Init(p), run[..from]).Some? && j < |Arrivals(run[..from])|
    requires var s := Exec(p, Init(p), run[..from]).value;
             var line := Arrivals(run[..from]);
             line[j] in s.queued && FullScans(p, run, from) > |Standing(line[..j], s.queued)|
    requires !Untested(Exec(p, Init(p), run).value)
    ensures var t := Arrivals(run[..from])[j];
            var u := Exec(p, Init(p), run).value;
            t in u.lives && !u.lives[t].place.Queued?
  {
    var line := Arrivals(run[..from]);
    var s := Exec(p, Init(p), run[..from]).value;
    var k := |Standing(line[..j], s.queued)|;
    PlacedRun(p, run[..from]);
    StartsOnTime(p, s, line[..j], line[j], k);
    RunOnTime(p, run, from, line[..j], line[j], k);
    PlacedRun(p, run);
    HasLeft(p, Exec(p, Init(p), run).value, line[..j], line[j], k - FullScans(p, run, from));
  }

  /** Over every run whose scans visit the queue in push order: a ticket with k
      tickets ahead of it has been popped once k + 1 further scans have begun at a full
      window and the last of them has made its first test, whatever arrives, and
      wherever refills land. */
  lemma FifoBoundedWait(p: Params, run: seq<Step>, from: nat, k: nat)
    requires Exec(p, Init(p), run).Some? && InPushOrder(p, run) && from <= |run|
    requires Exec(p, Init(p), run[..from]).Some?
    requires k < |Standing(Arrivals(run[..from]), Exec(p, Init(p), run[..from]).value.queued)|
    requires FullScans(p, run, from) >= k + 1 && !Untested(Exec(p, Init(p), run).value)
    ensures var t := Standing(Arrivals(run[..from]), Exec(p, Init(p), run[..from]).value.queued)[k];
            var u := Exec(p, Init(p), run).value;
            t in u.lives && !u.lives[t].place.Queued?
  {
    var line := Arrivals(run[..from]);
    var s := Exec(p, Init(p), run[..from]).value;
    var j := PlaceInLine(line, s.queued, k);
    StandingMembers(line, s.queued);
    assert line[j] in Standing(line, s.queued);
    PlaceIsTaken(p, run, from, j);
  }

  lemma PlacedRun(p: Params, run: seq<Step>)
    requires Exec(p, Init(p), run).Some?
    ensures Placed(p, Exec(p, Init(p), run).value)
  {
    InvRun(p, Init(p), run);
  }

  lemma StartsOnTime(p: Params, s: State, ahead: seq<Ticket>, t: Ticket, k: nat)
    requires Placed(p, s) && t in s.queued && |Standing(ahead, s.queued)| == k
    ensures OnTime(p, s, ahead, t, k)
  {
  }

  lemma HasLeft(p: Params, u: State, ahead: seq<Ticket>, t: Ticket, slack: int)
    requires Placed(p, u) && OnTime(p, u, ahead, t, slack) && slack < 0 && !Untested(u)
    ensures t in u.lives && !u.lives[t].place.Queued?
  {
  }

  // ----- The queue stands in push order -----

  /** A push puts the ticket at the end of those standing. */
  lemma PushStands(line: seq<Ticket>, queued: set<Ticket>, t: Ticket)
    requires t !in line
    ensures Standing(line + [t], queued + {t}) == Standing(line, queued) + [t]
  {
    StandingAppend(line, [t], queued + {t});
    StandingSame(line, queued + {t}, queued);
    assert [t][..0] == [];
  }

  lemma KeptAmong<S>(fn: (S, Ticket) -> (bool, S), s: S, order: seq<Ticket>)
    ensures forall t <- Scan(fn, s, order).kept :: t in order
  {
    var r := Scan(fn, s, order);
    ScanConserves(fn, s, order);
    forall t <- r.kept ensures t in order {
      assert t in multiset(r.matched) + multiset(r.kept);
    }
  }

  lemma {:induction false} KeptIsStanding<S>(fn: (S, Ticket) -> (bool, S), s: S, order: seq<Ticket>, kept: set<Ticket>)
    requires Distinct(order) && forall t <- order :: t in kept <==> t in Scan(fn, s, order).kept
    ensures Scan(fn, s, order).kept == Standing(order, kept)
  {
    if order != [] {
      var n := |order| - 1;
      var init, last := order[..n], order[n];
      assert order == init + [last] && last !in init;
      KeptAmong(fn, s, init);
      KeptIsStanding(fn, s, init, kept);
      assert Standing(init, kept) + [] == Standing(init, kept);
    }
  }

  lemma {:induction false} StandingTwice(line: seq<Ticket>, queued: set<Ticket>, kept: set<Ticket>)
    requires kept <= queued
    ensures Standing(Standing(line, queued), kept) == Standing(line, kept)
  {
    if line != [] {
      var n := |line| - 1;
      var head := Standing(line[..n], queued);
      StandingTwice(line[..n], queued, kept);
      StandingAppend(head, [line[n]], kept);
      assert [line[n]][..0] == [] && head + [] == head && Standing(line[..n], kept) + [] == Standing(line[..n], kept);
    }
  }

  /** A front-to-back scan leaves the rejected tickets standing in push order, so a
      queue that appends and scans front to back always visits them in push order. */
  lemma ScanStands<S>(fn: (S, Ticket) -> (bool, S), s: S, line: seq<Ticket>, queued: set<Ticket>)
    requires Distinct(Standing(line, queued))
    ensures var kept := Scan(fn, s, Standing(line, queued)).kept;
            kept == Standing(line, set t | t in kept)
  {
    var order := Standing(line, queued);
    var kept := set t | t in Scan(fn, s, order).kept;
    KeptIsStanding(fn, s, order, kept);
    KeptAmong(fn, s, order);
    StandingMembers(line, queued);
    StandingTwice(line, queued, kept);
  }
}
