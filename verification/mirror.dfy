/** The endpoint list of an attached terminal, which infers dynamic endpoints from
    the event stream (tui/model.go), and how it compares with the registry. */
module Mirrors {
  import opened Tickets
  import opened Configs
  import opened Paths
  import Registries

  // ----- The parent walk on strings -----

  function TrimSlashes(p: string): (t: string)
    ensures |t| <= |p| && t == p[..|t|] && (t == "" || t[|t| - 1] != '/') && forall k :: |t| <= k < |p| ==> p[k] == '/'
  {
    if p != "" && p[|p| - 1] == '/' then TrimSlashes(p[..|p| - 1]) else p
  }

  /** What stands before the last slash, trailing slashes not counting. */
  function Candidate(p: string): (c: Option<string>)
    ensures c.Some? ==> c.value == "/" || |c.value| < |p|
  {
    var dir := TrimSlashes(p);
    var i := LastSlash(dir);
    if i < 0 then None else if i == 0 then Some("/") else Some(dir[..i])
  }

  /** The first row with a path. */
  function RowOf(rows: seq<EndpointConfig>, path: string): Option<EndpointConfig> {
    if rows == [] then None else if rows[0].path == path then Some(rows[0]) else RowOf(rows[1..], path)
  }

  function FindRow(rows: seq<EndpointConfig>, eventPath: string, tmp: string): Option<EndpointConfig>
    decreases |tmp|
  {
    var candidate := Candidate(tmp);
    if candidate.None? then None
    else
      var c := candidate.value;
      if c != eventPath && RowOf(rows, c).Some? then RowOf(rows, c)
      else if c == "/" then None
      else FindRow(rows, eventPath, c)
  }

  function MinimalRow(path: string): EndpointConfig {
    EndpointConfig(path, 1.0, "rps", "fifo", "strict", 1000, "reject", 0, 0, 0.0, 0.0, 0, 0, true)
  }

  /** Without a listed ancestor a row shows what an entry with nothing but a path gets
      from the system defaults. */
  lemma MinimalRowIsSystemDefault(path: string)
    ensures MinimalRow(path) == Fill(Blank(path), MergeWithSystem(NoDefaults()))
  {
  }

  function InferredRow(rows: seq<EndpointConfig>, eventPath: string): EndpointConfig {
    var parent := FindRow(rows, eventPath, eventPath);
    if parent.Some? then Child(eventPath, parent.value) else MinimalRow(eventPath)
  }

  // ----- Insertion in path order -----

  predicate Less(a: string, b: string) {
    b != "" && (a == "" || a[0] < b[0] || (a[0] == b[0] && Less(a[1..], b[1..])))
  }

  /** The order of strings: a proper prefix comes first, else the first character that
      differs decides. */
  lemma {:induction false} LessIff(a: string, b: string)
    ensures Less(a, b) <==> (|a| < |b| && a <= b) || exists i :: DiffersFirstAt(a, b, i) && a[i] < b[i]
  {
    if a != "" && b != "" && a[0] == b[0] {
      LessIff(a[1..], b[1..]);
      if i :| DiffersFirstAt(a[1..], b[1..], i) && a[1..][i] < b[1..][i] {
        assert DiffersFirstAt(a, b, i + 1);
      }
      if i :| DiffersFirstAt(a, b, i) && a[i] < b[i] {
        assert DiffersFirstAt(a[1..], b[1..], i - 1);
      }
      assert a == [a[0]] + a[1..] && b == [b[0]] + b[1..];
    } else if a != "" && b != "" {
      assert DiffersFirstAt(a, b, 0);
    }
  }

  predicate DiffersFirstAt(a: string, b: string, i: int) {
    0 <= i < |a| && i < |b| && a[i] != b[i] && forall k :: 0 <= k < i ==> a[k] == b[k]
  }

  lemma {:induction false} LessIsTransitive(a: string, b: string, c: string)
    requires Less(a, b) && Less(b, c)
    ensures Less(a, c)
  {
    if a != "" && a[0] == b[0] == c[0] { LessIsTransitive(a[1..], b[1..], c[1..]); }
  }

  lemma {:induction false} LessIsIrreflexive(a: string)
    ensures !Less(a, a)
  {
    if a != "" { LessIsIrreflexive(a[1..]); }
  }

  predicate InPathOrder(rows: seq<EndpointConfig>) {
    forall i, j :: 0 <= i < j < |rows| ==> !Less(rows[j].path, rows[i].path)
  }

  /** `after` is `rows` with `row` put before the first row of a greater path. */
  predicate Inserted(rows: seq<EndpointConfig>, row: EndpointConfig, after: seq<EndpointConfig>) {
    exists k :: 0 <= k <= |rows| && IsSlot(rows, row.path, k) && after == rows[..k] + [row] + rows[k..]
  }

  predicate IsSlot(rows: seq<EndpointConfig>, path: string, k: int) {
    && 0 <= k <= |rows| && (k < |rows| ==> Less(path, rows[k].path))
    && forall j :: 0 <= j < k ==> !Less(path, rows[j].path)
  }

  /** Insertion keeps a list in path order and changes no other row. */
  lemma InsertionKeepsOrder(rows: seq<EndpointConfig>, row: EndpointConfig, after: seq<EndpointConfig>)
    requires Inserted(rows, row, after)
    ensures InPathOrder(rows) ==> InPathOrder(after)
    ensures multiset(after) == multiset(rows) + multiset{row}
  {
    var k :| 0 <= k <= |rows| && IsSlot(rows, row.path, k) && after == rows[..k] + [row] + rows[k..];
    if InPathOrder(rows) { SlotKeepsOrder(rows, row, k); }
    SlotConserves(rows, row, k);
  }

  lemma SlotConserves(rows: seq<EndpointConfig>, row: EndpointConfig, k: nat)
    requires k <= |rows|
    ensures multiset(rows[..k] + [row] + rows[k..]) == multiset(rows) + multiset{row}
  {
    assert rows == rows[..k] + rows[k..];
  }

  lemma SlotKeepsOrder(rows: seq<EndpointConfig>, row: EndpointConfig, k: nat)
    requires InPathOrder(rows) && IsSlot(rows, row.path, k)
    ensures InPathOrder(rows[..k] + [row] + rows[k..])
  {
    var after := rows[..k] + [row] + rows[k..];
    forall j | k <= j < |rows| ensures !Less(rows[j].path, row.path) {
      if Less(rows[j].path, row.path) {
        LessIsTransitive(rows[j].path, row.path, rows[k].path);
        LessIsIrreflexive(rows[k].path);
      }
    }
    forall i, j | 0 <= i < j < |after| ensures !Less(after[j].path, after[i].path) {
      if j < k {
        assert after[i] == rows[i] && after[j] == rows[j];
      } else if j == k {
        assert after[i] == rows[i] && after[j] == row;
      } else {
        assert after[j] == rows[j - 1];
        if i < k { assert after[i] == rows[i]; }
        else if i == k { assert after[i] == row; }
        else { assert after[i] == rows[i - 1]; }
      }
    }
  }

  // ----- The model's methods -----

  method IndexForPath(rows: seq<EndpointConfig>, path: string) returns (index: int)
    ensures -1 <= index < |rows|
    ensures RowOf(rows, path) == if index >= 0 then Some(rows[index]) else None
  {
    for i := 0 to |rows|
      invariant RowOf(rows, path) == RowOf(rows[i..], path)
    {
      if rows[i].path == path {
        return i;
      }
      assert rows[i..][1..] == rows[i + 1..];
    }
    return -1;
  }

  method FindParentRow(rows: seq<EndpointConfig>, eventPath: string) returns (parent: Option<EndpointConfig>)
    ensures parent == FindRow(rows, eventPath, eventPath)
  {
    var tmp := eventPath;
    while true
      invariant FindRow(rows, eventPath, eventPath) == FindRow(rows, eventPath, tmp)
      decreases |tmp|
    {
      var dir := TrimSlashes(tmp);
      var idx := LastSlash(dir);
      if idx < 0 {
        break;
      }
      var candidate := dir[..idx];
      if candidate == "" {
        candidate := "/";
      }
      if candidate != eventPath {
        var pi := IndexForPath(rows, candidate);
        if pi >= 0 {
          return Some(rows[pi]);
        }
      }
      if candidate == "/" {
        break;
      }
      tmp := candidate;
    }
    return None;
  }

  method InsertRow(rows: seq<EndpointConfig>, row: EndpointConfig) returns (after: seq<EndpointConfig>)
    ensures Inserted(rows, row, after)
  {
    var inserted := false;
    after := [];
    ghost var k := 0;
    for i := 0 to |rows|
      invariant if inserted then 0 <= k < i && after == rows[..k] + [row] + rows[k..i] else k == i && after == rows[..i]
      invariant forall j :: 0 <= j < k ==> !Less(row.path, rows[j].path)
      invariant inserted ==> Less(row.path, rows[k].path)
    {
      if !inserted && Less(row.path, rows[i].path) {
        after := after + [row];
        inserted := true;
      }
      after := after + [rows[i]];
      if !inserted { k := i + 1; }
      assert inserted ==> rows[k..i + 1] == rows[k..i] + [rows[i]];
    }
    if !inserted {
      after := after + [row];
    }
    assert rows[k..|rows|] == rows[k..];
    assert IsSlot(rows, row.path, k);
  }

  method AddDynamicEndpoint(rows: seq<EndpointConfig>, eventPath: string) returns (after: seq<EndpointConfig>)
    ensures Inserted(rows, InferredRow(rows, eventPath), after)
  {
    var parent := FindParentRow(rows, eventPath);
    var newCfg := if parent.Some? then Child(eventPath, parent.value) else MinimalRow(eventPath);
    after := InsertRow(rows, newCfg);
  }

  /** One event: a known path leaves the list alone. */
  predicate Observes(rows: seq<EndpointConfig>, event: string, after: seq<EndpointConfig>) {
    if RowOf(rows, event).Some? then after == rows else Inserted(rows, InferredRow(rows, event), after)
  }

  /** Takes one event in: an unknown path gets a row of its own. */
  method HandleEvent(rows: seq<EndpointConfig>, eventPath: string) returns (after: seq<EndpointConfig>)
    ensures Observes(rows, eventPath, after)
  {
    var idx := IndexForPath(rows, eventPath);
    if idx < 0 {
      after := AddDynamicEndpoint(rows, eventPath);
    } else {
      after := rows;
    }
  }

  // ----- The list against the registry -----

  /** `lists` are the lists before, between and after the events. */
  predicate History(events: seq<string>, lists: seq<seq<EndpointConfig>>) {
    |lists| == |events| + 1 && forall i :: 0 <= i < |events| ==> Observes(lists[i], events[i], lists[i + 1])
  }

  predicate Observed(cfgs: seq<EndpointConfig>, events: seq<string>, lists: seq<seq<EndpointConfig>>) {
    History(events, lists) && lists[0] == cfgs
  }

  predicate IsFirst(cfgs: seq<EndpointConfig>, i: int) {
    0 <= i < |cfgs| && forall k :: 0 <= k < i ==> cfgs[k].path != cfgs[i].path
  }

  predicate IsLast(cfgs: seq<EndpointConfig>, j: int) {
    0 <= j < |cfgs| && forall k :: j < k < |cfgs| ==> cfgs[k].path != cfgs[j].path
  }

  /** No path has several entries of which the first and the last differ. */
  ghost predicate FirstIsLast(cfgs: seq<EndpointConfig>) {
    forall i, j :: IsFirst(cfgs, i) && IsLast(cfgs, j) && cfgs[i].path == cfgs[j].path ==> cfgs[i] == cfgs[j]
  }

  /** The list shows the first entry of a path. */
  lemma {:induction false} RowIsFirst(cfgs: seq<EndpointConfig>, i: int)
    requires IsFirst(cfgs, i)
    ensures RowOf(cfgs, cfgs[i].path) == Some(cfgs[i])
  {
    if i > 0 {
      RowIsFirst(cfgs[1..], i - 1);
    }
  }

  /** The registry serves the last one. */
  lemma {:induction false} TableIsLast(cfgs: seq<EndpointConfig>, j: int)
    requires IsLast(cfgs, j)
    ensures cfgs[j].path in Registries.Configured(cfgs) && Registries.Configured(cfgs)[cfgs[j].path].cfg == cfgs[j]
  {
    if j < |cfgs| - 1 {
      TableIsLast(cfgs[..|cfgs| - 1], j);
    }
  }

  lemma {:induction false} FirstOf(cfgs: seq<EndpointConfig>, q: string) returns (i: int)
    requires RowOf(cfgs, q).Some?
    ensures IsFirst(cfgs, i) && cfgs[i].path == q
  {
    i := 0;
    if cfgs[0].path != q {
      var i' := FirstOf(cfgs[1..], q);
      i := i' + 1;
    }
  }

  lemma {:induction false} LastOf(cfgs: seq<EndpointConfig>, q: string) returns (j: int)
    requires q in Registries.Configured(cfgs)
    ensures IsLast(cfgs, j) && cfgs[j].path == q
  {
    j := |cfgs| - 1;
    if cfgs[j].path != q {
      j := LastOf(cfgs[..j], q);
    }
  }

  lemma RowIsServed(cfgs: seq<EndpointConfig>, q: string)
    requires FirstIsLast(cfgs)
    ensures q in Registries.Configured(cfgs) ==> RowOf(cfgs, q) == Some(Registries.Configured(cfgs)[q].cfg)
    ensures q !in Registries.Configured(cfgs) ==> RowOf(cfgs, q).None?
  {
    ConfiguredRows(cfgs, q);
    if q in Registries.Configured(cfgs) {
      var i := FirstOf(cfgs, q);
      var j := LastOf(cfgs, q);
      RowIsFirst(cfgs, i);
      TableIsLast(cfgs, j);
    }
  }

  /** Every row of a configured or canonical path shows what the registry gives an
      endpoint of that path. */
  ghost predicate Faithful(configured: Registries.Table, rows: seq<EndpointConfig>) {
    && (forall q <- configured :: RowOf(rows, q) == Some(configured[q].cfg))
    && (forall q :: q !in configured && Canonical(q) && RowOf(rows, q).Some? ==>
        IsDerived(configured, q, RowOf(rows, q).value))
  }

  /** The settings under which the registry creates an endpoint for `q`. */
  predicate IsDerived(configured: Registries.Table, q: string, cfg: EndpointConfig) {
    Registries.Nearest(configured, q).Some? && cfg == Under(q, Registries.Nearest(configured, q).value.cfg)
  }

  lemma CandidateOfAbs(segs: seq<string>)
    requires PlainSegments(segs) && segs != []
    ensures Candidate(Abs(segs)) == Some(Abs(segs[..|segs| - 1]))
    ensures Candidate(Abs(segs) + "/") == Candidate(Abs(segs))
  {
    var n := |segs| - 1;
    var a, x := Joined(segs[..n]), segs[n];
    var p := a + "/" + x;
    assert p == Abs(segs) && p[|p| - 1] == x[|x| - 1] && x[|x| - 1] in x;
    LastSlashOfJoin(a, x);
    assert p[..|a|] == a;
    JoinedStarts(segs[..n]);
    assert (p + "/")[..|p|] == p;
  }

  lemma AbsLonger(segs: seq<string>)
    requires PlainSegments(segs) && segs != []
    ensures |Abs(segs)| > |Abs(segs[..|segs| - 1])| || segs[..|segs| - 1] == []
    ensures |Abs(segs)| >= 2 && IsRooted(Abs(segs))
  {
    JoinedStarts(segs);
    JoinedAppend(segs[..|segs| - 1], segs[|segs| - 1]);
    assert segs == segs[..|segs| - 1] + [segs[|segs| - 1]];
  }

  /** From a canonical path both walks visit the same ancestors and stop at the same
      settings. */
  lemma {:induction false} WalksAgree(configured: Registries.Table, rows: seq<EndpointConfig>, eventPath: string,
                                      segs: seq<string>)
    requires Faithful(configured, rows) && Abs([]) in configured
    requires PlainSegments(segs) && segs != [] && |eventPath| >= |Abs(segs)|
    ensures Registries.FindParent(configured, Abs(segs)).Some?
    ensures FindRow(rows, eventPath, Abs(segs)).Some?
    ensures Registries.SameSettings(FindRow(rows, eventPath, Abs(segs)).value,
                                    Registries.FindParent(configured, Abs(segs)).value.cfg)
    decreases |segs|
  {
    var init := segs[..|segs| - 1];
    var c := Abs(init);
    DirOfAbs(segs);
    CandidateOfAbs(segs);
    AbsLonger(segs);
    if init == [] {
      assert c == "/" && |c| == 1;
    } else {
      AbsLonger(init);
      assert c != "/" && c != ".";
      AbsIsCanonical(init);
      if c in configured {
      } else if RowOf(rows, c).Some? {
        BlankInheritsAll(c, Registries.Nearest(configured, c).value.cfg);
      } else {
        WalksAgree(configured, rows, eventPath, init);
      }
    }
  }

  /** A row put in for an unknown path is found under that path; no other changes. */
  lemma {:induction false} RowAfterInsertion(rows: seq<EndpointConfig>, row: EndpointConfig, k: nat, q: string)
    requires k <= |rows| && RowOf(rows, row.path).None?
    ensures RowOf(rows[..k] + [row] + rows[k..], q) == if q == row.path then Some(row) else RowOf(rows, q)
    decreases k
  {
    var after := rows[..k] + [row] + rows[k..];
    if k == 0 {
      assert after == [row] + rows;
    } else {
      assert after[0] == rows[0] && after[1..] == rows[1..][..k - 1] + [row] + rows[1..][k - 1..];
      RowAfterInsertion(rows[1..], row, k - 1, q);
    }
  }

  lemma CanonicalSegments(p: string) returns (segs: seq<string>)
    requires Canonical(p)
    ensures PlainSegments(segs) && p == Abs(segs)
  {
    segs := CleanIsPlain(p);
  }

  lemma InferredIsDerived(configured: Registries.Table, rows: seq<EndpointConfig>, p: string)
    requires Faithful(configured, rows) && Abs([]) in configured && Canonical(p) && p !in configured
    ensures IsDerived(configured, p, InferredRow(rows, p))
  {
    var segs := CanonicalSegments(p);
    WalksAgree(configured, rows, p, segs);
    Registries.UnderAgain(p, FindRow(rows, p, p).value, Registries.FindParent(configured, p).value.cfg);
  }

  lemma InsertionKeepsFaithful(configured: Registries.Table, rows: seq<EndpointConfig>, p: string,
                               after: seq<EndpointConfig>)
    requires Faithful(configured, rows) && Abs([]) in configured && RowOf(rows, p).None?
    requires Inserted(rows, InferredRow(rows, p), after)
    ensures Faithful(configured, after)
  {
    var row := InferredRow(rows, p);
    assert row.path == p;
    var k :| 0 <= k <= |rows| && IsSlot(rows, p, k) && after == rows[..k] + [row] + rows[k..];
    forall q ensures RowOf(after, q) == if q == p then Some(row) else RowOf(rows, q) {
      RowAfterInsertion(rows, row, k, q);
    }
    assert p !in configured;
    if Canonical(p) { InferredIsDerived(configured, rows, p); }
  }

  lemma ConfiguredRows(cfgs: seq<EndpointConfig>, q: string)
    ensures q in Registries.Configured(cfgs) <==> RowOf(cfgs, q).Some?
    ensures q in Registries.Configured(cfgs) <==> exists cfg :: cfg in cfgs && cfg.path == q
  {
    RowsAreEntries(cfgs, q);
    TableIsEntries(cfgs, q);
  }

  lemma {:induction false} RowsAreEntries(cfgs: seq<EndpointConfig>, q: string)
    ensures RowOf(cfgs, q).Some? <==> exists cfg :: cfg in cfgs && cfg.path == q
  {
    if cfgs != [] && cfgs[0].path != q {
      RowsAreEntries(cfgs[1..], q);
      assert cfgs == [cfgs[0]] + cfgs[1..];
    } else if cfgs != [] {
      assert cfgs[0] in cfgs;
    }
  }

  lemma {:induction false} TableIsEntries(cfgs: seq<EndpointConfig>, q: string)
    ensures q in Registries.Configured(cfgs) <==> exists cfg :: cfg in cfgs && cfg.path == q
  {
    if cfgs != [] {
      var n := |cfgs| - 1;
      TableIsEntries(cfgs[..n], q);
      assert cfgs == cfgs[..n] + [cfgs[n]] && cfgs[n] in cfgs;
    }
  }

  lemma EventKeepsFaithful(configured: Registries.Table, rows: seq<EndpointConfig>, event: string,
                           after: seq<EndpointConfig>)
    requires Faithful(configured, rows) && Abs([]) in configured && Observes(rows, event, after)
    ensures Faithful(configured, after)
  {
    if RowOf(rows, event).None? { InsertionKeepsFaithful(configured, rows, event, after); }
  }

  lemma ConfiguredIsFaithful(cfgs: seq<EndpointConfig>)
    requires FirstIsLast(cfgs)
    ensures Faithful(Registries.Configured(cfgs), cfgs)
  {
    var configured := Registries.Configured(cfgs);
    forall q ensures q in configured ==> RowOf(cfgs, q) == Some(configured[q].cfg)
             ensures q !in configured ==> RowOf(cfgs, q).None?
    {
      RowIsServed(cfgs, q);
    }
  }

  lemma RootIsServed(cfgs: seq<EndpointConfig>)
    requires HasPath(cfgs, Abs([]))
    ensures Abs([]) in Registries.Configured(cfgs)
  {
    var i :| 0 <= i < |cfgs| && cfgs[i].path == Abs([]);
    assert cfgs[i] in cfgs;
    TableIsEntries(cfgs, Abs([]));
  }

  lemma {:induction false} HistoryIsFaithful(configured: Registries.Table, events: seq<string>,
                                             lists: seq<seq<EndpointConfig>>, k: nat)
    requires History(events, lists) && k <= |events| && Faithful(configured, lists[0]) && Abs([]) in configured
    ensures Faithful(configured, lists[k])
  {
    if k > 0 {
      HistoryIsFaithful(configured, events, lists, k - 1);
      EventKeepsFaithful(configured, lists[k - 1], events[k - 1], lists[k - 1 + 1]);
    }
  }

  /** Whatever events arrived, the list shows what the registry would serve. */
  lemma ObservedIsFaithful(cfgs: seq<EndpointConfig>, events: seq<string>, lists: seq<seq<EndpointConfig>>)
    requires FirstIsLast(cfgs) && HasPath(cfgs, Abs([])) && Observed(cfgs, events, lists)
    ensures Faithful(Registries.Configured(cfgs), lists[|events|])
  {
    RootIsServed(cfgs);
    ConfiguredIsFaithful(cfgs);
    HistoryIsFaithful(Registries.Configured(cfgs), events, lists, |events|);
  }

  /** The settings of the path agree, if both sides know it. */
  predicate Agree(rows: seq<EndpointConfig>, table: Registries.Table, p: string) {
    p in table && RowOf(rows, p).Some? ==> RowOf(rows, p).value == table[p].cfg
  }

  /** Whichever events arrived and in whatever order, and whatever calls the
      registry served: a path that both know, configured or canonical, has the same
      settings in both. */
  ghost predicate AlwaysAgrees(cfgs: seq<EndpointConfig>) {
    forall events, lists, table: Registries.Table, p ::
      Comparable(cfgs, events, lists, table, p) ==> Agree(lists[|events|], table, p)
  }

  /** A list after some events, a table after some calls, and a path to compare. */
  ghost predicate Comparable(cfgs: seq<EndpointConfig>, events: seq<string>, lists: seq<seq<EndpointConfig>>,
                             table: Registries.Table, p: string) {
    && Observed(cfgs, events, lists) && Registries.Derived(Registries.Configured(cfgs), table)
    && (Canonical(p) || p in Registries.Configured(cfgs))
  }

  lemma AgreesOn(cfgs: seq<EndpointConfig>, events: seq<string>, lists: seq<seq<EndpointConfig>>,
                 table: Registries.Table, p: string)
    requires FirstIsLast(cfgs) && HasPath(cfgs, Abs([]))
    ensures Comparable(cfgs, events, lists, table, p) ==> Agree(lists[|events|], table, p)
  {
    if Comparable(cfgs, events, lists, table, p) { ObservedIsFaithful(cfgs, events, lists); }
  }

  lemma AgreesIfFirstIsLast(cfgs: seq<EndpointConfig>)
    requires HasPath(cfgs, Abs([])) && FirstIsLast(cfgs)
    ensures AlwaysAgrees(cfgs)
  {
    forall events, lists, table: Registries.Table, p | Comparable(cfgs, events, lists, table, p)
      ensures Agree(lists[|events|], table, p)
    {
      AgreesOn(cfgs, events, lists, table, p);
    }
  }

  lemma FirstIsLastIfAgrees(cfgs: seq<EndpointConfig>)
    requires AlwaysAgrees(cfgs)
    ensures FirstIsLast(cfgs)
  {
    var table := Registries.Configured(cfgs);
    var events: seq<string> := [];
    assert Observed(cfgs, events, [cfgs]) && Registries.Derived(table, table);
    forall i, j | IsFirst(cfgs, i) && IsLast(cfgs, j) && cfgs[i].path == cfgs[j].path ensures cfgs[i] == cfgs[j] {
      RowIsFirst(cfgs, i);
      TableIsLast(cfgs, j);
      assert Comparable(cfgs, events, [cfgs], table, cfgs[i].path);
      assert Agree([cfgs][|events|], table, cfgs[i].path);
    }
  }

  /** With a root configured the list always agrees with the registry, if and only if
      no path has several entries of which the first and the last differ. */
  lemma MirrorAgrees(cfgs: seq<EndpointConfig>)
    requires HasPath(cfgs, Abs([]))
    ensures AlwaysAgrees(cfgs) <==> FirstIsLast(cfgs)
  {
    if FirstIsLast(cfgs) { AgreesIfFirstIsLast(cfgs); }
    if AlwaysAgrees(cfgs) { FirstIsLastIfAgrees(cfgs); }
  }

  /** On a path with a trailing slash the walks differ by one step: the registry
      first looks at the path without the slash, the list does not. So they agree
      exactly if that path is not configured, or configured like its ancestor. */
  lemma TrailingSlash(configured: Registries.Table, rows: seq<EndpointConfig>, segs: seq<string>)
    requires Faithful(configured, rows) && Abs([]) in configured
    requires PlainSegments(segs) && segs != []
    ensures var c := Abs(segs);
            var p := c + "/";
            var parent, row := Registries.FindParent(configured, p), FindRow(rows, p, p);
            && parent.Some? && row.Some? && Registries.FindParent(configured, c).Some?
            && (Registries.SameSettings(row.value, parent.value.cfg) <==>
                c !in configured ||
                Registries.SameSettings(configured[c].cfg, Registries.FindParent(configured, c).value.cfg))
  {
    var c := Abs(segs);
    var p := c + "/";
    DirOfTrailingSlash(segs);
    CandidateOfAbs(segs);
    AbsLonger(segs);
    WalksAgree(configured, rows, p, segs);
    FindRowSameStart(rows, p, c);
  }

  lemma FindRowSameStart(rows: seq<EndpointConfig>, p: string, c: string)
    requires Candidate(p) == Candidate(c)
    ensures FindRow(rows, p, p) == FindRow(rows, p, c)
  {
  }

  /** For example: with "/" at one request per second and "/a" at two, the registry
      serves "/a/" at two and the list shows it at one. */
  lemma TrailingSlashDiffers(root: EndpointConfig, a: EndpointConfig)
    requires root.path == Abs([]) && a.path == Abs(["a"]) && root.rate == 1.0 && a.rate == 2.0
    ensures var cfgs := [root, a];
            var p := Abs(["a"]) + "/";
            var parent, row := Registries.FindParent(Registries.Configured(cfgs), p), FindRow(cfgs, p, p);
            parent.Some? && row.Some? && !Registries.SameSettings(row.value, parent.value.cfg)
  {
    var cfgs := [root, a];
    var segs := ["a"];
    assert PlainSegments(segs);
    AbsLonger(segs);
    assert root.path != a.path;
    var configured := Registries.Configured(cfgs);
    TableIsLast(cfgs, 0);
    TableIsLast(cfgs, 1);
    assert HasPath(cfgs, Abs([])) by { assert cfgs[0].path == Abs([]); }
    TwoPathsOnce(cfgs);
    ConfiguredIsFaithful(cfgs);
    RootIsServed(cfgs);
    TrailingSlash(configured, cfgs, segs);
    DirOfAbs(segs);
    assert segs[..0] == [];
    assert Under("", a).rate != Under("", root).rate;
  }

  lemma TwoPathsOnce(cfgs: seq<EndpointConfig>)
    requires |cfgs| == 2 && cfgs[0].path != cfgs[1].path
    ensures FirstIsLast(cfgs)
  {
  }

  /** The same over whole histories: after any run of concurrent `Match` calls on
      one side and any events on the other, both sides agree on every canonical path
      that both know. */
  lemma MirrorAgreesAfterAnyRun(cfgs: seq<EndpointConfig>, maxDynamic: int, run: seq<Registries.Step>,
                                events: seq<string>, lists: seq<seq<EndpointConfig>>, p: string)
    requires FirstIsLast(cfgs) && HasPath(cfgs, Abs([]))
    requires forall cfg <- cfgs :: StartEndpoint(cfg).Started?
    requires Registries.Exec(Registries.Init(cfgs), maxDynamic, run).Some?
    ensures Canonical(p) && Observed(cfgs, events, lists) ==>
              Agree(lists[|events|], Registries.Exec(Registries.Init(cfgs), maxDynamic, run).value.contents.table, p)
  {
    Registries.InitSound(cfgs, maxDynamic);
    Registries.InvRun(Registries.Configured(cfgs), maxDynamic, Registries.Init(cfgs), run);
    AgreesOn(cfgs, events, lists, Registries.Exec(Registries.Init(cfgs), maxDynamic, run).value.contents.table, p);
  }
}
