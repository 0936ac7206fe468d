/** The registry of configured and dynamic endpoints (endpoint/registry.go). */
module Registries {
  import opened Tickets
  import opened Configs
  import opened Paths

  /** A started endpoint; `id` tells apart endpoints started with equal settings. */
  datatype Endpoint = Endpoint(id: nat, cfg: EndpointConfig)

  type Table = map<string, Endpoint>

  /** The nearest registered proper ancestor, with the root as a last resort. */
  function FindParent(table: Table, p: string): Option<Endpoint>
    decreases |p|
  {
    var d := Dir(p);
    if d in table then Some(table[d])
    else if d == "/" || d == "." then (if "/" in table then Some(table["/"]) else None)
    else DirIsShorter(p); FindParent(table, d)
  }

  /** The static rule: the path itself if it is configured, else its nearest
      configured ancestor. */
  function Nearest(configured: Table, p: string): Option<Endpoint> {
    if p in configured then Some(configured[p]) else FindParent(configured, p)
  }

  /** The same configuration apart from path and dynamic. */
  predicate SameSettings(a: EndpointConfig, b: EndpointConfig) {
    Under("", a) == Under("", b)
  }

  lemma SameSettingsEachField(a: EndpointConfig, b: EndpointConfig)
    ensures SameSettings(a, b) <==>
              && a.rate == b.rate && a.unit == b.unit && a.scheduler == b.scheduler && a.algorithm == b.algorithm
              && a.maxQueueSize == b.maxQueueSize && a.overflow == b.overflow && a.burstSize == b.burstSize
              && a.windowSeconds == b.windowSeconds && a.queueTimeout == b.queueTimeout
              && a.latencyCompensation == b.latencyCompensation && a.tokensPerWindow == b.tokensPerWindow
              && a.defaultTokens == b.defaultTokens
  {
  }

  // ----- Which entry the walk picks -----

  function Prefix(segs: seq<string>, k: int): string
    requires 0 <= k <= |segs|
  {
    Abs(segs[..k])
  }

  /** Of the prefixes of a canonical path, the whole path included, the one with k
      elements is the longest in the table. */
  ghost predicate LongestPrefix(table: Table, segs: seq<string>, k: nat) {
    && k <= |segs| && Prefix(segs, k) in table
    && forall j :: k < j <= |segs| ==> Prefix(segs, j) !in table
  }

  ghost predicate NoPrefix(table: Table, segs: seq<string>) {
    forall j :: 0 <= j <= |segs| ==> Prefix(segs, j) !in table
  }

  lemma PrefixOfInit(segs: seq<string>)
    requires segs != []
    ensures forall j :: 0 <= j < |segs| ==> Prefix(segs[..|segs| - 1], j) == Prefix(segs, j)
    ensures Prefix(segs, |segs|) == Abs(segs)
  {
    forall j | 0 <= j < |segs| ensures Prefix(segs[..|segs| - 1], j) == Prefix(segs, j) {
      assert segs[..|segs| - 1][..j] == segs[..j];
    }
    assert segs[..|segs|] == segs;
  }

  lemma {:induction false} SomePrefixIsLongest(table: Table, segs: seq<string>) returns (k: nat)
    requires !NoPrefix(table, segs)
    ensures LongestPrefix(table, segs, k)
  {
    if Prefix(segs, |segs|) in table {
      k := |segs|;
    } else {
      PrefixOfInit(segs);
      k := SomePrefixIsLongest(table, segs[..|segs| - 1]);
    }
  }

  lemma ShorterLongest(table: Table, segs: seq<string>, k: nat)
    requires segs != [] && LongestPrefix(table, segs, k) && Abs(segs) !in table
    ensures LongestPrefix(table, segs[..|segs| - 1], k) && Prefix(segs[..|segs| - 1], k) == Prefix(segs, k)
  {
    PrefixOfInit(segs);
    var init := segs[..|segs| - 1];
    assert k < |segs|;
    forall j | k < j <= |init| ensures Prefix(init, j) !in table {
      assert Prefix(init, j) == Prefix(segs, j);
    }
  }

  lemma NoShorterPrefix(table: Table, segs: seq<string>)
    requires segs != [] && NoPrefix(table, segs)
    ensures NoPrefix(table, segs[..|segs| - 1])
  {
    PrefixOfInit(segs);
    var init := segs[..|segs| - 1];
    forall j | 0 <= j <= |init| ensures Prefix(init, j) !in table {
      assert Prefix(init, j) == Prefix(segs, j);
    }
  }

  /** The walk from a canonical path picks the longest of its proper prefixes that is
      in the table. */
  lemma {:induction false} ParentIsLongestPrefix(table: Table, segs: seq<string>, k: nat)
    requires PlainSegments(segs) && segs != [] && LongestPrefix(table, segs[..|segs| - 1], k)
    ensures Prefix(segs, k) in table && FindParent(table, Abs(segs)) == Some(table[Prefix(segs, k)])
  {
    var init := segs[..|segs| - 1];
    DirOfAbs(segs);
    PrefixOfInit(segs);
    assert init[..|init|] == init;
    assert Prefix(init, |init|) == Abs(init);
    if Abs(init) !in table {
      NotRoot(init);
      ShorterLongest(table, init, k);
      ParentIsLongestPrefix(table, init, k);
    }
  }

  /** If `p` is canonical, `ep` is what the table holds for the longest of its proper
      prefixes. */
  ghost predicate PicksLongest(table: Table, p: string, ep: Option<Endpoint>) {
    forall segs, k: nat ::
      PlainSegments(segs) && segs != [] && p == Abs(segs) && LongestPrefix(table, segs[..|segs| - 1], k) ==>
      Prefix(segs, k) in table && ep == Some(table[Prefix(segs, k)])
  }

  lemma ParentPicksLongest(table: Table, p: string)
    ensures PicksLongest(table, p, FindParent(table, p))
  {
    forall segs, k: nat |
      PlainSegments(segs) && segs != [] && p == Abs(segs) && LongestPrefix(table, segs[..|segs| - 1], k)
      ensures Prefix(segs, k) in table && FindParent(table, p) == Some(table[Prefix(segs, k)])
    {
      ParentIsLongestPrefix(table, segs, k);
    }
  }

  lemma NotRoot(segs: seq<string>)
    requires segs != []
    requires PlainSegments(segs)
    ensures Abs(segs) != "/" && Abs(segs) != "."
  {
    var n := |segs| - 1;
    JoinedStarts(segs);
    assert segs == segs[..n] + [segs[n]];
    JoinedAppend(segs[..n], segs[n]);
  }

  lemma {:induction false} NoPrefixNoParent(table: Table, segs: seq<string>)
    requires PlainSegments(segs) && segs != [] && NoPrefix(table, segs[..|segs| - 1])
    ensures FindParent(table, Abs(segs)) == None
  {
    var init := segs[..|segs| - 1];
    DirOfAbs(segs);
    assert init[..|init|] == init && init[..0] == [];
    assert Prefix(init, |init|) == Abs(init) && Prefix(init, 0) == "/";
    if init != [] {
      NotRoot(init);
      NoShorterPrefix(table, init);
      NoPrefixNoParent(table, init);
    }
  }

  /** What the static rule means on canonical paths: the longest configured prefix, the
      path itself included, or nothing if no prefix is configured. */
  lemma NearestIsLongestPrefix(configured: Table, segs: seq<string>)
    requires PlainSegments(segs)
    ensures forall k: nat :: LongestPrefix(configured, segs, k) ==>
              Nearest(configured, Abs(segs)) == Some(configured[Prefix(segs, k)])
    ensures Nearest(configured, Abs(segs)).None? <==> NoPrefix(configured, segs)
  {
    forall k: nat | LongestPrefix(configured, segs, k)
      ensures Nearest(configured, Abs(segs)) == Some(configured[Prefix(segs, k)])
    {
      NearestOf(configured, segs, k);
    }
    if NoPrefix(configured, segs) {
      NearestOfNone(configured, segs);
    } else {
      var k := SomePrefixIsLongest(configured, segs);
    }
  }

  lemma NearestOf(configured: Table, segs: seq<string>, k: nat)
    requires PlainSegments(segs) && LongestPrefix(configured, segs, k)
    ensures Nearest(configured, Abs(segs)) == Some(configured[Prefix(segs, k)])
  {
    assert segs[..|segs|] == segs;
    assert Prefix(segs, |segs|) == Abs(segs);
    if Abs(segs) !in configured {
      ShorterLongest(configured, segs, k);
      ParentIsLongestPrefix(configured, segs, k);
    }
  }

  lemma NearestOfNone(configured: Table, segs: seq<string>)
    requires PlainSegments(segs) && NoPrefix(configured, segs)
    ensures Nearest(configured, Abs(segs)).None?
  {
    assert segs[..|segs|] == segs;
    assert Prefix(segs, |segs|) == Abs(segs);
    if segs == [] {
      RootHasNoParent(configured, Abs([]));
    } else {
      NoShorterPrefix(configured, segs);
      NoPrefixNoParent(configured, segs);
    }
  }

  // ----- The locked region of Match -----

  datatype Contents = Contents(table: Table, dynamicCount: nat, nextId: nat)

  function MatchLocked(c: Contents, maxDynamic: int, p: string): (Contents, Option<Endpoint>) {
    if p in c.table then (c, Some(c.table[p]))
    else match FindParent(c.table, p)
      case None => (c, None)
      case Some(parent) =>
        var childCfg := Child(p, parent.cfg);
        if c.dynamicCount >= maxDynamic || !StartEndpoint(childCfg).Started? then (c, Some(parent))
        else Created(c, p, childCfg)
  }

  function Created(c: Contents, p: string, cfg: EndpointConfig): (Contents, Option<Endpoint>) {
    var ep := Endpoint(c.nextId, cfg);
    (Contents(c.table[p := ep], c.dynamicCount + 1, c.nextId + 1), Some(ep))
  }

  /** The table that `NewRegistry` builds: a later configuration of the same path
      replaces an earlier one. */
  function Configured(cfgs: seq<EndpointConfig>): Table {
    if cfgs == [] then map[] else
      var n := |cfgs| - 1;
      Configured(cfgs[..n])[cfgs[n].path := Endpoint(n, cfgs[n])]
  }

  class Registry {
    var table: Table
    var dynamicCount: nat
    var nextId: nat
    const maxDynamic: int

    constructor (table: Table, nextId: nat, maxDynamic: int)
      ensures this.table == table && dynamicCount == 0 && this.nextId == nextId && this.maxDynamic == maxDynamic
    {
      this.table, this.dynamicCount, this.nextId, this.maxDynamic := table, 0, nextId, maxDynamic;
    }

    /** Starts every configured endpoint; one refusal fails the whole registry. */
    static method New(cfgs: seq<EndpointConfig>, maxDynamic: int) returns (r: Option<Registry>)
      requires forall cfg <- cfgs :: !StartEndpoint(cfg).Panics?
      ensures r.Some? <==> forall cfg <- cfgs :: StartEndpoint(cfg).Started?
      ensures r.Some? ==> fresh(r.value) && r.value.State() == Contents(Configured(cfgs), 0, |cfgs|)
      ensures r.Some? ==> r.value.maxDynamic == maxDynamic
    {
      var table: Table := map[];
      for i := 0 to |cfgs|
        invariant table == Configured(cfgs[..i])
        invariant forall j :: 0 <= j < i ==> StartEndpoint(cfgs[j]).Started?
      {
        if !StartEndpoint(cfgs[i]).Started? {
          return None;
        }
        assert cfgs[..i + 1][..i] == cfgs[..i];
        table := table[cfgs[i].path := Endpoint(i, cfgs[i])];
      }
      assert cfgs[..|cfgs|] == cfgs;
      var registry := new Registry(table, |cfgs|, maxDynamic);
      return Some(registry);
    }

    ghost function State(): Contents
      reads this
    {
      Contents(table, dynamicCount, nextId)
    }

    /** The region under the read lock. */
    method Lookup(p: string) returns (ep: Option<Endpoint>)
      ensures ep == if p in table then Some(table[p]) else None
    {
      if p in table {
        return Some(table[p]);
      }
      return None;
    }

    method FindParentLocked(p: string) returns (ep: Option<Endpoint>)
      ensures ep == FindParent(table, p) && PicksLongest(table, p, ep)
    {
      ParentPicksLongest(table, p);
      var q := p;
      while true
        invariant FindParent(table, p) == FindParent(table, q)
        decreases |q|
      {
        DirIsShorter(q);
        q := Dir(q);
        if q in table {
          return Some(table[q]);
        }
        if q == "/" || q == "." {
          break;
        }
      }
      if "/" in table {
        return Some(table["/"]);
      }
      return None;
    }

    /** The region under the write lock: looks again, then creates. */
    method Create(p: string) returns (ep: Option<Endpoint>)
      modifies this
      ensures (State(), ep) == MatchLocked(old(State()), maxDynamic, p)
    {
      if p in table {
        return Some(table[p]);
      }
      var parent := FindParentLocked(p);
      if parent.None? {
        return None;
      }
      if dynamicCount >= maxDynamic {
        return parent;
      }
      var childCfg := Child(p, parent.value.cfg);
      if !StartEndpoint(childCfg).Started? {
        return parent;
      }
      var created := Endpoint(nextId, childCfg);
      table, dynamicCount, nextId := table[p := created], dynamicCount + 1, nextId + 1;
      return Some(created);
    }

    /** A call that no other call interrupts. */
    method Match(p: string) returns (ep: Option<Endpoint>)
      modifies this
      ensures (State(), ep) == MatchLocked(old(State()), maxDynamic, p)
    {
      ep := Lookup(p);
      if ep.None? {
        ep := Create(p);
      }
    }
  }

  // ----- Any number of concurrent calls -----

  /** A call is before its write lock, or done. */
  datatype Call = Missed(path: string) | Done(path: string, result: Option<Endpoint>)

  datatype State = State(contents: Contents, calls: map<nat, Call>)

  datatype Step = Begin(call: nat, path: string) | Locked(call: nat)

  predicate Enabled(s: State, step: Step) {
    match step
    case Begin(call, path) => call !in s.calls
    case Locked(call) => call in s.calls && s.calls[call].Missed?
  }

  function Apply(s: State, maxDynamic: int, step: Step): State
    requires Enabled(s, step)
  {
    match step
    case Begin(call, p) =>
      s.(calls := s.calls[call := if p in s.contents.table then Done(p, Some(s.contents.table[p])) else Missed(p)])
    case Locked(call) =>
      var p := s.calls[call].path;
      var (contents, result) := MatchLocked(s.contents, maxDynamic, p);
      State(contents, s.calls[call := Done(p, result)])
  }

  function Exec(s: State, maxDynamic: int, run: seq<Step>): Option<State> {
    if run == [] then Some(s) else
      match Exec(s, maxDynamic, run[..|run| - 1])
      case None => None
      case Some(u) =>
        if Enabled(u, run[|run| - 1]) then Some(Apply(u, maxDynamic, run[|run| - 1])) else None
  }

  function Init(cfgs: seq<EndpointConfig>): State {
    State(Contents(Configured(cfgs), 0, |cfgs|), map[])
  }

  // ----- Invariants -----

  /** Configured endpoints stay; every other one has the settings of the nearest
      configured ancestor of its path. */
  ghost predicate Derived(configured: Table, table: Table) {
    && (forall p <- configured :: p in table && table[p] == configured[p])
    && (forall p <- table :: p !in configured ==>
          Nearest(configured, p).Some? && table[p].cfg == Under(p, Nearest(configured, p).value.cfg))
  }

  ghost predicate Numbered(configured: Table, maxDynamic: int, c: Contents) {
    && |c.table| == |configured| + c.dynamicCount
    && (c.dynamicCount > 0 ==> c.dynamicCount <= maxDynamic)
    && (forall p <- c.table :: c.table[p].id < c.nextId)
    && (forall p, q :: p in c.table && q in c.table && c.table[p].id == c.table[q].id ==> p == q)
  }

  ghost predicate AllStart(table: Table) {
    forall p <- table :: StartEndpoint(table[p].cfg).Started?
  }

  /** The walk through the growing table ends at the same settings as the walk
      through the configured one, though it may stop at a dynamic ancestor. */
  lemma {:induction false} WalkAgrees(configured: Table, table: Table, p: string)
    requires Derived(configured, table)
    ensures FindParent(table, p).Some? <==> FindParent(configured, p).Some?
    ensures FindParent(table, p).Some? ==>
              SameSettings(FindParent(table, p).value.cfg, FindParent(configured, p).value.cfg)
    decreases |p|
  {
    var d := Dir(p);
    RootIsConfigured(configured, table);
    if d in table {
      if d !in configured {
        BlankInheritsAll(d, Nearest(configured, d).value.cfg);
        if d == "." { DotHasNoParent(configured); }
      }
    } else if d != "/" && d != "." {
      DirIsShorter(p);
      WalkAgrees(configured, table, d);
    }
  }

  lemma RootHasNoParent(configured: Table, root: string)
    requires root == Abs([])
    ensures root == "/" && (root !in configured ==> FindParent(configured, root) == None)
  {
    DirOfAbs([]);
  }

  /** Only a configured root answers for "/". */
  lemma RootIsConfigured(configured: Table, table: Table)
    requires Derived(configured, table)
    ensures "/" in table <==> "/" in configured
  {
    RootHasNoParent(configured, Abs([]));
  }

  lemma DotHasNoParent(configured: Table)
    ensures "." !in configured ==>
              FindParent(configured, ".") == if "/" in configured then Some(configured["/"]) else None
  {
    assert "."[..0] == "";
    assert Dir(".") == ".";
  }

  // ----- What every step keeps -----

  ghost predicate Sound(configured: Table, maxDynamic: int, c: Contents) {
    Derived(configured, c.table) && Numbered(configured, maxDynamic, c) && AllStart(c.table)
  }

  lemma FoundIsRegistered(table: Table, p: string)
    ensures FindParent(table, p).Some? ==> exists q :: q in table && table[q] == FindParent(table, p).value
    decreases |p|
  {
    var d := Dir(p);
    if d !in table && d != "/" && d != "." {
      DirIsShorter(p);
      FoundIsRegistered(table, d);
    }
  }

  /** The settings that answer for `p` are the nearest configured ones, whatever
      dynamic endpoints exist. */
  lemma CurrentIsNearest(configured: Table, table: Table, p: string)
    requires Derived(configured, table)
    ensures Current(table, p).Some? <==> Nearest(configured, p).Some?
    ensures Current(table, p).Some? ==> SameSettings(Current(table, p).value.cfg, Nearest(configured, p).value.cfg)
  {
    if p !in table {
      WalkAgrees(configured, table, p);
    } else if p !in configured {
      BlankInheritsAll(p, Nearest(configured, p).value.cfg);
    }
  }

  lemma UnderAgain(p: string, a: EndpointConfig, b: EndpointConfig)
    requires SameSettings(a, b)
    ensures Under(p, a) == Under(p, b)
  {
    assert Under(p, a) == Under(p, Under("", a));
  }

  /** Creation never fails: a child starts because its parent did. So a call gives
      the requested path an endpoint of its own unless the cap is reached. */
  lemma LockedCreates(c: Contents, maxDynamic: int, p: string)
    requires AllStart(c.table) && p !in c.table && FindParent(c.table, p).Some? && c.dynamicCount < maxDynamic
    ensures MatchLocked(c, maxDynamic, p) == Created(c, p, Child(p, FindParent(c.table, p).value.cfg))
    ensures StartEndpoint(Child(p, FindParent(c.table, p).value.cfg)).Started?
  {
    ParentStarts(c.table, p);
    ValidatedStarts(FindParent(c.table, p).value.cfg, p);
  }

  lemma ParentStarts(table: Table, p: string)
    requires AllStart(table) && FindParent(table, p).Some?
    ensures StartEndpoint(FindParent(table, p).value.cfg).Started?
  {
    FoundIsRegistered(table, p);
    var q :| q in table && table[q] == FindParent(table, p).value;
  }

  lemma CreateKeepsNumbered(configured: Table, maxDynamic: int, c: Contents, p: string, ep: Endpoint)
    requires Numbered(configured, maxDynamic, c) && p !in c.table && ep.id == c.nextId && c.dynamicCount < maxDynamic
    ensures Numbered(configured, maxDynamic, Contents(c.table[p := ep], c.dynamicCount + 1, c.nextId + 1))
  {
  }

  lemma CreateKeepsDerived(configured: Table, table: Table, p: string, ep: Endpoint)
    requires Derived(configured, table) && p !in table && FindParent(table, p).Some?
    requires ep.cfg == Under(p, FindParent(table, p).value.cfg)
    ensures Derived(configured, table[p := ep])
  {
    WalkAgrees(configured, table, p);
    UnderAgain(p, FindParent(table, p).value.cfg, FindParent(configured, p).value.cfg);
    NewRowIsDerived(configured, table, p, ep);
  }

  lemma NewRowIsDerived(configured: Table, table: Table, p: string, ep: Endpoint)
    requires Derived(configured, table) && p !in table
    requires FindParent(configured, p).Some? && ep.cfg == Under(p, FindParent(configured, p).value.cfg)
    ensures Derived(configured, table[p := ep])
  {
    assert Nearest(configured, p) == FindParent(configured, p);
  }

  lemma CreateKeepsStarts(table: Table, p: string, ep: Endpoint)
    requires AllStart(table) && StartEndpoint(ep.cfg).Started?
    ensures AllStart(table[p := ep])
  {
  }

  /** `c'` differs from `c` by nothing, or by the endpoint of one new path. */
  ghost predicate Grows(c: Contents, c': Contents) {
    forall q <- c.table :: q in c'.table && c'.table[q] == c.table[q]
  }

  lemma LockedKeepsSound(configured: Table, maxDynamic: int, c: Contents, p: string)
    requires Sound(configured, maxDynamic, c)
    ensures Sound(configured, maxDynamic, MatchLocked(c, maxDynamic, p).0) && Grows(c, MatchLocked(c, maxDynamic, p).0)
  {
    if p !in c.table && FindParent(c.table, p).Some? && c.dynamicCount < maxDynamic {
      var ep := Endpoint(c.nextId, Child(p, FindParent(c.table, p).value.cfg));
      LockedCreates(c, maxDynamic, p);
      CreateKeepsNumbered(configured, maxDynamic, c, p, ep);
      CreateKeepsDerived(configured, c.table, p, ep);
      CreateKeepsStarts(c.table, p, ep);
    } else {
      LockedChangesNothing(c, maxDynamic, p);
    }
  }

  lemma LockedChangesNothing(c: Contents, maxDynamic: int, p: string)
    requires p in c.table || FindParent(c.table, p).None? || c.dynamicCount >= maxDynamic
    ensures MatchLocked(c, maxDynamic, p) == (c, Current(c.table, p))
  {
  }

  /** What the table answers for a path without creating anything. */
  function Current(table: Table, p: string): Option<Endpoint> {
    if p in table then Some(table[p]) else FindParent(table, p)
  }

  /** What a finished call returned is the answer for its path from then on: the
      endpoint bound to it, or nothing, or the fallback of a table that is full. */
  ghost predicate Answered(maxDynamic: int, c: Contents, p: string, result: Option<Endpoint>) {
    result == Current(c.table, p) && (p in c.table || result.None? || c.dynamicCount >= maxDynamic)
  }

  lemma LockedAnswered(configured: Table, maxDynamic: int, c: Contents, p: string)
    requires Sound(configured, maxDynamic, c)
    ensures var (c', result) := MatchLocked(c, maxDynamic, p); Answered(maxDynamic, c', p, result)
  {
    if p !in c.table && FindParent(c.table, p).Some? && c.dynamicCount < maxDynamic {
      LockedCreates(c, maxDynamic, p);
    } else {
      LockedChangesNothing(c, maxDynamic, p);
    }
  }

  lemma LockedKeepsAnswer(configured: Table, maxDynamic: int, c: Contents, p: string, q: string,
                          result: Option<Endpoint>)
    requires Sound(configured, maxDynamic, c) && Answered(maxDynamic, c, q, result)
    ensures Answered(maxDynamic, MatchLocked(c, maxDynamic, p).0, q, result)
  {
    var c' := MatchLocked(c, maxDynamic, p).0;
    LockedKeepsSound(configured, maxDynamic, c, p);
    if c.dynamicCount >= maxDynamic {
      LockedChangesNothing(c, maxDynamic, p);
    } else if q !in c.table {
      NoAnswerStays(configured, c.table, c'.table, q);
    }
  }

  lemma NoAnswerStays(configured: Table, table: Table, table': Table, q: string)
    requires Derived(configured, table) && Derived(configured, table') && q !in table && FindParent(table, q).None?
    ensures q !in table' && FindParent(table', q).None?
  {
    WalkAgrees(configured, table, q);
    WalkAgrees(configured, table', q);
    assert q !in configured;
  }

  ghost predicate AllAnswered(maxDynamic: int, c: Contents, calls: map<nat, Call>) {
    forall call <- calls :: calls[call].Done? ==> Answered(maxDynamic, c, calls[call].path, calls[call].result)
  }

  ghost predicate Inv(configured: Table, maxDynamic: int, s: State) {
    Sound(configured, maxDynamic, s.contents) && AllAnswered(maxDynamic, s.contents, s.calls)
  }

  lemma LockedKeepsAnswers(configured: Table, maxDynamic: int, c: Contents, p: string, calls: map<nat, Call>)
    requires Sound(configured, maxDynamic, c) && AllAnswered(maxDynamic, c, calls)
    ensures AllAnswered(maxDynamic, MatchLocked(c, maxDynamic, p).0, calls)
  {
    forall call <- calls | calls[call].Done?
      ensures Answered(maxDynamic, MatchLocked(c, maxDynamic, p).0, calls[call].path, calls[call].result)
    {
      LockedKeepsAnswer(configured, maxDynamic, c, p, calls[call].path, calls[call].result);
    }
  }

  lemma RecordAnswer(maxDynamic: int, c: Contents, calls: map<nat, Call>, call: nat, next: Call)
    requires AllAnswered(maxDynamic, c, calls) && (next.Done? ==> Answered(maxDynamic, c, next.path, next.result))
    ensures AllAnswered(maxDynamic, c, calls[call := next])
  {
  }

  lemma InvStep(configured: Table, maxDynamic: int, s: State, step: Step)
    requires Inv(configured, maxDynamic, s) && Enabled(s, step)
    ensures Inv(configured, maxDynamic, Apply(s, maxDynamic, step))
  {
    var s' := Apply(s, maxDynamic, step);
    var next := if step.Begin? then s'.calls[step.call] else s.calls[step.call];
    RecordAnswer(maxDynamic, s.contents, s.calls, step.call, next);
    if step.Locked? {
      var p := s.calls[step.call].path;
      LockedKeepsSound(configured, maxDynamic, s.contents, p);
      LockedKeepsAnswers(configured, maxDynamic, s.contents, p, s.calls);
      LockedAnswered(configured, maxDynamic, s.contents, p);
      RecordAnswer(maxDynamic, s'.contents, s.calls, step.call, s'.calls[step.call]);
    }
  }

  lemma {:induction false} InvRun(configured: Table, maxDynamic: int, s: State, run: seq<Step>)
    requires Inv(configured, maxDynamic, s) && Exec(s, maxDynamic, run).Some?
    ensures Inv(configured, maxDynamic, Exec(s, maxDynamic, run).value)
  {
    if run != [] {
      var n := |run| - 1;
      InvRun(configured, maxDynamic, s, run[..n]);
      InvStep(configured, maxDynamic, Exec(s, maxDynamic, run[..n]).value, run[n]);
    }
  }

  lemma {:induction false} InitSound(cfgs: seq<EndpointConfig>, maxDynamic: int)
    requires forall cfg <- cfgs :: StartEndpoint(cfg).Started?
    ensures Sound(Configured(cfgs), maxDynamic, Contents(Configured(cfgs), 0, |cfgs|))
  {
    if cfgs != [] {
      var n := |cfgs| - 1;
      InitSound(cfgs[..n], maxDynamic);
      var table := Configured(cfgs[..n]);
      assert cfgs[n] in cfgs;
      assert forall p <- table :: table[p].id < n;
    }
  }

  // ----- Theorems over every run of concurrent calls -----

  /** After any history of concurrent calls, every call that has returned returned
      the settings of its path if configured, else of the nearest configured
      ancestor, and nothing exactly if there is none. */
  lemma MatchIsHistoryIndependent(cfgs: seq<EndpointConfig>, maxDynamic: int, run: seq<Step>, call: nat)
    requires forall cfg <- cfgs :: StartEndpoint(cfg).Started?
    requires Exec(Init(cfgs), maxDynamic, run).Some?
    requires var s := Exec(Init(cfgs), maxDynamic, run).value; call in s.calls && s.calls[call].Done?
    ensures var Done(p, result) := Exec(Init(cfgs), maxDynamic, run).value.calls[call];
            var nearest := Nearest(Configured(cfgs), p);
            (result.Some? <==> nearest.Some?) && (result.Some? ==> SameSettings(result.value.cfg, nearest.value.cfg))
  {
    InitSound(cfgs, maxDynamic);
    InvRun(Configured(cfgs), maxDynamic, Init(cfgs), run);
    var s := Exec(Init(cfgs), maxDynamic, run).value;
    CurrentIsNearest(Configured(cfgs), s.contents.table, s.calls[call].path);
  }

  /** The same for a canonical path in terms of the configuration alone: the result
      carries the settings of the longest configured prefix, and is missing exactly
      if no prefix is configured. */
  lemma MatchGivesLongestPrefix(cfgs: seq<EndpointConfig>, maxDynamic: int, run: seq<Step>, call: nat,
                                segs: seq<string>)
    requires forall cfg <- cfgs :: StartEndpoint(cfg).Started?
    requires Exec(Init(cfgs), maxDynamic, run).Some? && PlainSegments(segs)
    requires var s := Exec(Init(cfgs), maxDynamic, run).value;
             call in s.calls && s.calls[call].Done? && s.calls[call].path == Abs(segs)
    ensures var result := Exec(Init(cfgs), maxDynamic, run).value.calls[call].result;
            && (result.None? <==> NoPrefix(Configured(cfgs), segs))
            && forall k: nat :: LongestPrefix(Configured(cfgs), segs, k) ==>
                 result.Some? && SameSettings(result.value.cfg, Configured(cfgs)[Prefix(segs, k)].cfg)
  {
    MatchIsHistoryIndependent(cfgs, maxDynamic, run, call);
    NearestIsLongestPrefix(Configured(cfgs), segs);
  }

  /** A bound path keeps its endpoint through every further step. */
  lemma {:induction false} BindingsAreStable(cfgs: seq<EndpointConfig>, maxDynamic: int, run: seq<Step>,
                                             more: seq<Step>, p: string)
    requires forall cfg <- cfgs :: StartEndpoint(cfg).Started?
    requires Exec(Init(cfgs), maxDynamic, run).Some? &&
              Exec(Exec(Init(cfgs), maxDynamic, run).value, maxDynamic, more).Some?
    requires p in Exec(Init(cfgs), maxDynamic, run).value.contents.table
    ensures var s := Exec(Init(cfgs), maxDynamic, run).value;
            var u := Exec(s, maxDynamic, more).value;
            p in u.contents.table && u.contents.table[p] == s.contents.table[p]
  {
    if more != [] {
      var n := |more| - 1;
      var s := Exec(Init(cfgs), maxDynamic, run).value;
      BindingsAreStable(cfgs, maxDynamic, run, more[..n], p);
      InitSound(cfgs, maxDynamic);
      InvRun(Configured(cfgs), maxDynamic, Init(cfgs), run);
      InvRun(Configured(cfgs), maxDynamic, s, more[..n]);
      var u := Exec(s, maxDynamic, more[..n]).value;
      if more[n].Locked? {
        LockedKeepsSound(Configured(cfgs), maxDynamic, u.contents, u.calls[more[n].call].path);
      }
    }
  }

  /** Any two finished calls for one path got the very same endpoint, if any; the
      dynamic endpoints are counted, and never exceed the cap. */
  lemma OneEndpointPerPath(cfgs: seq<EndpointConfig>, maxDynamic: int, run: seq<Step>, a: nat, b: nat)
    requires forall cfg <- cfgs :: StartEndpoint(cfg).Started?
    requires Exec(Init(cfgs), maxDynamic, run).Some?
    ensures var s := Exec(Init(cfgs), maxDynamic, run).value;
            && |s.contents.table| == |Configured(cfgs)| + s.contents.dynamicCount
            && s.contents.dynamicCount <= (if maxDynamic >= 0 then maxDynamic else 0)
            && (a in s.calls && b in s.calls && s.calls[a].Done? && s.calls[b].Done? &&
                s.calls[a].path == s.calls[b].path
                ==> s.calls[a].result == s.calls[b].result)
  {
    InitSound(cfgs, maxDynamic);
    InvRun(Configured(cfgs), maxDynamic, Init(cfgs), run);
  }
}
