/** The sliding-window limiter (limiter/sliding_window.go). Times are points on a
    non-decreasing integer clock. */
module SlidingWindows {

  // ----- The limiter -----

  /** `int(x)`: conversion to an integer drops the fraction. */
  function Truncated(x: real): int {
    if x >= 0.0 then x.Floor else -((-x).Floor)
  }

  /** Grants allowed in one window: at least one. */
  function Allowed(rps: real, windowSeconds: int): (n: nat)
    ensures n >= 1
  {
    var n := Truncated(rps * windowSeconds as real);
    if n < 1 then 1 else n
  }

  /** The allowance is the whole number of grants that the rate yields in a window, and
      one if the rate yields none. */
  lemma AllowanceIsRateTimesWindow(rps: real, windowSeconds: int)
    ensures var perWindow := rps * windowSeconds as real;
            var allowed := Allowed(rps, windowSeconds) as real;
            (perWindow >= 1.0 ==> allowed <= perWindow < allowed + 1.0) && (perWindow < 1.0 ==> allowed == 1.0)
  {
    TruncatedBounds(rps * windowSeconds as real);
  }

  lemma TruncatedBounds(x: real)
    ensures x >= 0.0 ==> Truncated(x) as real <= x < Truncated(x) as real + 1.0
    ensures x <= 0.0 ==> Truncated(x) as real - 1.0 < x <= Truncated(x) as real
  {
  }

  /** The times without the leading ones before `cutoff`. */
  function Prune(times: seq<int>, cutoff: int): seq<int> {
    if times == [] || times[0] >= cutoff then times else Prune(times[1..], cutoff)
  }

  /** `attempts` and `grants` are history: the times of all attempts, and of those
      that were granted. */
  class SlidingWindowLimiter {
    const rps: real
    const windowSeconds: int
    const window: int // the same length in clock units
    ghost const allowance: nat
    var times: seq<int>
    ghost var attempts: seq<int>
    ghost var grants: seq<int>

    ghost predicate Valid()
      reads this
    {
      Log(times, grants) == Run(attempts, window, allowance) && Fitting()
    }

    ghost predicate Fitting() {
      allowance == Allowed(rps, windowSeconds)
    }

    constructor (rps: real, windowSeconds: int, unitsPerSecond: int)
      ensures Valid() && times == [] && attempts == []
      ensures this.rps == rps && this.windowSeconds == windowSeconds && window == windowSeconds * unitsPerSecond
    {
      this.rps, this.windowSeconds := rps, windowSeconds;
      window, allowance := windowSeconds * unitsPerSecond, Allowed(rps, windowSeconds);
      times, attempts, grants := [], [], [];
    }

    method TryGrant(now: int) returns (ok: bool)
      requires Valid()
      modifies this`times, this`attempts, this`grants
      ensures Valid() && attempts == old(attempts) + [now] && grants == old(grants) + if ok then [now] else []
      ensures var kept := Prune(old(times), now - window);
              ok == (|kept| < allowance) && times == if ok then kept + [now] else kept
    {
      var cutoff := now - window;
      var i := 0;
      while i < |times| && times[i] < cutoff
        invariant 0 <= i <= |times| && Prune(times[i..], cutoff) == Prune(times, cutoff)
      {
        i := i + 1;
        assert times[i - 1..][1..] == times[i..];
      }
      times := times[i..];
      attempts := attempts + [now];
      RunNext(old(attempts), now, window, allowance);
      var allowed := Truncated(rps * windowSeconds as real);
      if allowed < 1 {
        allowed := 1;
      }
      ok := |times| < allowed;
      if ok {
        times := times + [now];
        grants := grants + [now];
      }
    }

    /** One attempt of a series; `start` is the buffer before the series. */
    method Retry(ghost start: seq<int>, clock: seq<int>, used: nat) returns (granted: bool)
      requires Valid() && Ordered(clock) && used < |clock| && times == PrunedBy(start, clock, used, window)
      modifies this`times, this`attempts, this`grants
      ensures Valid() && attempts == old(attempts) + [clock[used]]
      ensures grants == old(grants) + if granted then [clock[used]] else []
      ensures times == PrunedBy(start, clock, used + 1, window) + if granted then [clock[used]] else []
      ensures granted <==> |Prune(start, clock[used] - window)| < allowance
    {
      PrunedNext(start, clock, used, window);
      granted := TryGrant(clock[used]);
    }

    /** Retries at the times of `clock` until a slot is granted; when the clock runs
        out the context is done. The first time at which the budget allows a grant
        is granted, no later one, and none before it. */
    method Wait(clock: seq<int>) returns (granted: bool, used: nat)
      requires Valid() && Ordered(clock)
      modifies this`times, this`attempts, this`grants
      ensures used <= |clock| && (granted ==> used > 0) && (!granted ==> used == |clock|)
      ensures Blocked(old(times), clock, used - (if granted then 1 else 0), window, allowance)
      ensures granted ==> |Prune(old(times), clock[used - 1] - window)| < allowance
      ensures times == PrunedBy(old(times), clock, used, window) + if granted then [clock[used - 1]] else []
      ensures Valid() && attempts == old(attempts) + clock[..used]
      ensures grants == old(grants) + if granted then [clock[used - 1]] else []
    {
      used, granted := 0, false;
      while used < |clock|
        invariant 0 <= used <= |clock|
        invariant times == PrunedBy(old(times), clock, used, window)
        invariant Blocked(old(times), clock, used, window, allowance)
        invariant Valid() && attempts == old(attempts) + clock[..used] && grants == old(grants)
      {
        OneMore(old(attempts), clock, used);
        granted := Retry(old(times), clock, used);
        used := used + 1;
        if granted {
          return;
        }
      }
    }

    /** Whatever the limiter has done so far: on a clock that never ran backwards, no
        closed interval as long as the window holds more grants than the rate yields
        in a window, or more than one if it yields none. */
    lemma HistoryIsSafe(a: int, b: int)
      requires Valid() && Ordered(attempts) && b - a <= window
      ensures var perWindow := rps * windowSeconds as real;
              |Within(grants, a, b)| as real <= if perWindow >= 1.0 then perWindow else 1.0
      ensures grants == Reference(attempts, window, allowance)
    {
      WindowSafety(attempts, window, allowance, a, b);
      BufferIsExact(attempts, window, allowance);
      AllowanceIsRateTimesWindow(rps, windowSeconds);
    }

    /** And as many attempts of a new limiter as the rate yields in a window, or one,
        are all granted. */
    lemma FirstOnesAreGranted(n: nat)
      requires Valid() && Ordered(attempts) && n <= |attempts|
      requires n <= 1 || n as real <= rps * windowSeconds as real
      ensures n <= |grants| && grants[..n] == attempts[..n]
    {
      AllowanceIsRateTimesWindow(rps, windowSeconds);
      BufferIsExact(attempts, window, allowance);
      FirstAttemptsSucceed(attempts[..n], window, allowance);
      ReferencePrefix(attempts, n, window, allowance);
    }
  }

  /** None of the first n times of `clock` finds the buffer below the allowance. */
  predicate Blocked(times: seq<int>, clock: seq<int>, n: nat, window: int, allowed: nat)
    requires n <= |clock|
  {
    forall k :: 0 <= k < n ==> |Prune(times, clock[k] - window)| >= allowed
  }

  /** The buffer after the attempts at the first n times of `clock` were refused. */
  function PrunedBy(times: seq<int>, clock: seq<int>, n: nat, window: int): seq<int>
    requires n <= |clock|
  {
    if n == 0 then times else Prune(times, clock[n - 1] - window)
  }

  lemma PrunedNext(times: seq<int>, clock: seq<int>, used: nat, window: int)
    requires used < |clock| && Ordered(clock)
    ensures Prune(PrunedBy(times, clock, used, window), clock[used] - window)
         == PrunedBy(times, clock, used + 1, window)
  {
    if used > 0 { PruneTwice(times, clock[used - 1] - window, clock[used] - window); }
  }

  /** Later attempts take no grant back. */
  lemma {:induction false} ReferencePrefix(attempts: seq<int>, n: nat, window: int, allowed: nat)
    requires allowed >= 1 && n <= |attempts|
    ensures Reference(attempts[..n], window, allowed) <= Reference(attempts, window, allowed)
  {
    if n == |attempts| {
      assert attempts[..n] == attempts;
    } else {
      var m := |attempts| - 1;
      assert attempts[..m][..n] == attempts[..n];
      ReferencePrefix(attempts[..m], n, window, allowed);
    }
  }

  lemma OneMore(before: seq<int>, clock: seq<int>, used: nat)
    requires used < |clock|
    ensures before + clock[..used] + [clock[used]] == before + clock[..used + 1]
  {
  }

  lemma RunNext(attempts: seq<int>, now: int, window: int, allowed: nat)
    ensures Run(attempts + [now], window, allowed) == Attempt(Run(attempts, window, allowed), now, window, allowed)
  {
    assert (attempts + [now])[..|attempts|] == attempts;
  }

  lemma {:induction false} PruneTwice(times: seq<int>, c: int, d: int)
    requires c <= d
    ensures Prune(Prune(times, c), d) == Prune(times, d)
  {
    if times != [] && times[0] < c {
      PruneTwice(times[1..], c, d);
    }
  }

  // ----- Whole runs -----

  /** The buffer and every grant so far. */
  datatype Log = Log(buffer: seq<int>, grants: seq<int>)

  /** The limiter's own decisions on a series of attempts. */
  function Run(attempts: seq<int>, window: int, allowed: nat): Log {
    if attempts == [] then Log([], []) else
      Attempt(Run(attempts[..|attempts| - 1], window, allowed), attempts[|attempts| - 1], window, allowed)
  }

  /** One attempt as the limiter makes it. */
  function Attempt(log: Log, now: int, window: int, allowed: nat): Log {
    var kept := Prune(log.buffer, now - window);
    if |kept| < allowed then Log(kept + [now], log.grants + [now]) else Log(kept, log.grants)
  }

  /** The reference: no buffer, only the full history. An attempt is granted if
      fewer than `allowed` grants were ever made, or if the grant `allowed` places
      back lies strictly more than a window before it. */
  function Reference(attempts: seq<int>, window: int, allowed: nat): (grants: seq<int>)
    requires allowed >= 1
  {
    if attempts == [] then [] else
      var now := attempts[|attempts| - 1];
      var grants := Reference(attempts[..|attempts| - 1], window, allowed);
      if Due(grants, now, window, allowed) then grants + [now] else grants
  }

  predicate Due(grants: seq<int>, now: int, window: int, allowed: nat)
    requires allowed >= 1
  {
    |grants| < allowed || grants[|grants| - allowed] + window < now
  }

  predicate Ordered(times: seq<int>) {
    forall i, j :: 0 <= i < j < |times| ==> times[i] <= times[j]
  }

  lemma {:induction false} PruneIsSuffix(times: seq<int>, cutoff: int)
    ensures |Prune(times, cutoff)| <= |times|
    ensures var d := |times| - |Prune(times, cutoff)|;
            Prune(times, cutoff) == times[d..] && (forall i :: 0 <= i < d ==> times[i] < cutoff)
            && (d < |times| ==> times[d] >= cutoff)
  {
    if times != [] && times[0] < cutoff {
      PruneIsSuffix(times[1..], cutoff);
      var d := |times[1..]| - |Prune(times[1..], cutoff)|;
      assert times[1..][d..] == times[d + 1..];
      forall i | 0 <= i < d + 1 ensures times[i] < cutoff {
        if i > 0 { assert times[i] == times[1..][i - 1]; }
      }
    } else {
      assert times[0..] == times;
    }
  }

  /** The buffer is the end of the history; what was dropped lies more than a
      window before every attempt to come, and what is left fits the allowance. */
  ghost predicate Mirrors(log: Log, last: int, window: int, allowed: nat) {
    && |log.buffer| <= allowed && |log.buffer| <= |log.grants|
    && log.buffer == log.grants[|log.grants| - |log.buffer|..]
    && (forall i :: 0 <= i < |log.grants| - |log.buffer| ==> log.grants[i] + window < last)
    && Ordered(log.grants) && (forall g <- log.grants :: g <= last)
  }

  /** What pruning leaves is the part of the history that is not strictly more than
      a window old. */
  lemma PrunedIsRecent(log: Log, last: int, now: int, window: int, allowed: nat)
    requires last <= now && Mirrors(log, last, window, allowed)
    ensures var kept := Prune(log.buffer, now - window);
            var old' := |log.grants| - |kept|;
            && |kept| <= allowed && |kept| <= |log.grants| && kept == log.grants[old'..]
            && (forall i :: 0 <= i < old' ==> log.grants[i] + window < now)
            && (old' < |log.grants| ==> log.grants[old'] + window >= now)
  {
    var H, B := log.grants, log.buffer;
    var kept := Prune(B, now - window);
    PruneIsSuffix(B, now - window);
    var off, d := |H| - |B|, |B| - |kept|;
    assert kept == H[off + d..];
    forall i | 0 <= i < off + d ensures H[i] + window < now {
      if i >= off { assert H[i] == B[i - off]; }
    }
    if |kept| > 0 { assert H[off + d] == B[d]; }
  }

  /** One attempt: the pruned buffer decides as the full history does. */
  lemma DecisionAgrees(log: Log, last: int, now: int, window: int, allowed: nat)
    requires allowed >= 1 && last <= now && Mirrors(log, last, window, allowed)
    ensures |Prune(log.buffer, now - window)| < allowed <==> Due(log.grants, now, window, allowed)
  {
    PrunedIsRecent(log, last, now, window, allowed);
  }

  lemma MirrorsPruned(log: Log, last: int, now: int, window: int, allowed: nat)
    requires last <= now && Mirrors(log, last, window, allowed)
    ensures Mirrors(Log(Prune(log.buffer, now - window), log.grants), now, window, allowed)
  {
    PrunedIsRecent(log, last, now, window, allowed);
  }

  lemma MirrorsGranted(log: Log, now: int, window: int, allowed: nat)
    requires Mirrors(log, now, window, allowed) && |log.buffer| < allowed
    ensures Mirrors(Log(log.buffer + [now], log.grants + [now]), now, window, allowed)
  {
    var H := log.grants + [now];
    assert log.buffer + [now] == H[|log.grants| - |log.buffer|..];
    forall i, j | 0 <= i < j < |H| ensures H[i] <= H[j] {
      assert log.grants[i] in log.grants;
    }
  }

  lemma AttemptAgrees(log: Log, last: int, now: int, window: int, allowed: nat)
    requires allowed >= 1 && last <= now && Mirrors(log, last, window, allowed)
    ensures Mirrors(Attempt(log, now, window, allowed), now, window, allowed)
    ensures Attempt(log, now, window, allowed).grants ==
              log.grants + if Due(log.grants, now, window, allowed) then [now] else []
  {
    DecisionAgrees(log, last, now, window, allowed);
    MirrorsPruned(log, last, now, window, allowed);
    var pruned := Log(Prune(log.buffer, now - window), log.grants);
    if |pruned.buffer| < allowed {
      MirrorsGranted(pruned, now, window, allowed);
    } else {
      assert log.grants + [] == log.grants;
    }
  }

  lemma {:induction false} RunMirrors(attempts: seq<int>, window: int, allowed: nat)
    requires allowed >= 1 && Ordered(attempts) && attempts != []
    ensures Mirrors(Run(attempts, window, allowed), attempts[|attempts| - 1], window, allowed)
    ensures Run(attempts, window, allowed).grants == Reference(attempts, window, allowed)
  {
    var n := |attempts| - 1;
    var last := if n == 0 then attempts[0] else attempts[n - 1];
    if n == 0 {
      assert Mirrors(Log([], []), last, window, allowed);
    } else {
      RunMirrors(attempts[..n], window, allowed);
    }
    var log := Run(attempts[..n], window, allowed);
    AttemptAgrees(log, last, attempts[n], window, allowed);
    assert log.grants + [] == log.grants;
  }

  /** The limiter with its pruned buffer grants exactly what the reference grants:
      it never blocks an attempt that the full history allows, and never allows one
      that the full history forbids. */
  lemma BufferIsExact(attempts: seq<int>, window: int, allowed: nat)
    requires allowed >= 1 && Ordered(attempts)
    ensures Run(attempts, window, allowed).grants == Reference(attempts, window, allowed)
  {
    if attempts != [] { RunMirrors(attempts, window, allowed); }
  }

  /** The first `allowed` attempts all succeed. */
  lemma {:induction false} FirstAttemptsSucceed(attempts: seq<int>, window: int, allowed: nat)
    requires allowed >= 1 && |attempts| <= allowed
    ensures Reference(attempts, window, allowed) == attempts
  {
    if attempts != [] {
      var n := |attempts| - 1;
      FirstAttemptsSucceed(attempts[..n], window, allowed);
      assert attempts == attempts[..n] + [attempts[n]];
    }
  }

  /** Grants `allowed` apart are strictly more than a window apart. */
  lemma {:induction false} GrantsAreSpaced(attempts: seq<int>, window: int, allowed: nat, i: nat)
    requires allowed >= 1 && i + allowed < |Reference(attempts, window, allowed)|
    ensures var H := Reference(attempts, window, allowed); H[i] + window < H[i + allowed]
  {
    var n := |attempts| - 1;
    var before := Reference(attempts[..n], window, allowed);
    if i + allowed < |before| {
      GrantsAreSpaced(attempts[..n], window, allowed, i);
    }
  }

  /** The grants that fall into a closed interval. */
  function Within(grants: seq<int>, lo: int, hi: int): set<int> {
    set i | 0 <= i < |grants| && lo <= grants[i] <= hi
  }

  lemma {:induction false} IntervalSize(s: set<int>, lo: int, n: nat)
    requires forall i <- s :: lo <= i < lo + n
    ensures |s| <= n
  {
    if n == 0 {
      assert forall i :: i !in s;
      assert s == {};
    } else {
      var last := lo + n - 1;
      IntervalSize(s - {last}, lo, n - 1);
      assert |s| <= |s - {last}| + 1;
    }
  }

  /** Over every run, no closed interval as long as the window holds more than
      `allowed` grants of the full history. */
  lemma WindowSafety(attempts: seq<int>, window: int, allowed: nat, a: int, b: int)
    requires allowed >= 1 && Ordered(attempts) && b - a <= window
    ensures |Within(Run(attempts, window, allowed).grants, a, b)| <= allowed
  {
    BufferIsExact(attempts, window, allowed);
    var H := Run(attempts, window, allowed).grants;
    var inside := Within(H, a, b);
    if i :| i in inside {
      RunMirrors(attempts, window, allowed);
      var first := LeastOf(inside, i);
      if first + allowed < |H| {
        GrantsAreSpaced(attempts, window, allowed, first);
        assert forall i :: first + allowed <= i < |H| ==> H[first + allowed] <= H[i];
      }
      IntervalSize(inside, first, allowed);
    } else {
      assert inside == {};
    }
  }

  lemma {:induction false} LeastOf(s: set<int>, x: int) returns (m: int)
    requires x in s && forall i <- s :: i >= 0
    ensures m in s && forall i <- s :: m <= i
    decreases x
  {
    if y :| y in s && y < x {
      m := LeastOf(s, y);
    } else {
      m := x;
    }
  }
}
