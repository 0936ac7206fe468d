/** Endpoint configurations: inheritance, defaults and validation (config/config.go),
    and whether an endpoint starts with one (endpoint/endpoint.go). */
module Configs {
  import opened Tickets
  import Limiters

  datatype EndpointConfig = EndpointConfig(
    path: string, rate: real, unit: string, scheduler: string, algorithm: string, maxQueueSize: int, overflow: string,
    burstSize: int, windowSeconds: int, queueTimeout: real, latencyCompensation: real, tokensPerWindow: int,
    defaultTokens: int, dynamic: bool)

  datatype Defaults = Defaults(
    scheduler: string, algorithm: string, unit: string, maxQueueSize: int, overflow: string, queueTimeout: real,
    latencyCompensation: real, maxDynamicEndpoints: int, tokensPerWindow: int, defaultTokens: int)

  function Text(own: string, other: string): string { if own == "" then other else own }
  function Number(own: int, other: int): int { if own == 0 then other else own }
  function Quantity(own: real, other: real): real { if own == 0.0 then other else own }

  // ----- Inheritance -----

  /** Fills the zero fields of `child` from `parent`; path and dynamic stay. */
  function InheritFrom(child: EndpointConfig, parent: EndpointConfig): EndpointConfig {
    child.(rate := Quantity(child.rate, parent.rate),
           unit := Text(child.unit, parent.unit),
           scheduler := Text(child.scheduler, parent.scheduler),
           algorithm := Text(child.algorithm, parent.algorithm),
           maxQueueSize := Number(child.maxQueueSize, parent.maxQueueSize),
           overflow := Text(child.overflow, parent.overflow),
           burstSize := Number(child.burstSize, parent.burstSize),
           windowSeconds := Number(child.windowSeconds, parent.windowSeconds),
           queueTimeout := Quantity(child.queueTimeout, parent.queueTimeout),
           latencyCompensation := Quantity(child.latencyCompensation, parent.latencyCompensation),
           tokensPerWindow := Number(child.tokensPerWindow, parent.tokensPerWindow),
           defaultTokens := Number(child.defaultTokens, parent.defaultTokens))
  }

  /** A value that is set survives, a zero one gives way to another. */
  predicate Takes<T(==)>(value: T, own: T, zero: T, other: T) {
    (own != zero ==> value == own) && (own == zero ==> value == other)
  }

  /** Inheritance field by field. */
  lemma InheritsEachField(child: EndpointConfig, parent: EndpointConfig)
    ensures var c := InheritFrom(child, parent);
            && c.path == child.path && c.dynamic == child.dynamic
            && Takes(c.rate, child.rate, 0.0, parent.rate)
            && Takes(c.unit, child.unit, "", parent.unit)
            && Takes(c.scheduler, child.scheduler, "", parent.scheduler)
            && Takes(c.algorithm, child.algorithm, "", parent.algorithm)
            && Takes(c.maxQueueSize, child.maxQueueSize, 0, parent.maxQueueSize)
            && Takes(c.overflow, child.overflow, "", parent.overflow)
            && Takes(c.burstSize, child.burstSize, 0, parent.burstSize)
            && Takes(c.windowSeconds, child.windowSeconds, 0, parent.windowSeconds)
            && Takes(c.queueTimeout, child.queueTimeout, 0.0, parent.queueTimeout)
            && Takes(c.latencyCompensation, child.latencyCompensation, 0.0, parent.latencyCompensation)
            && Takes(c.tokensPerWindow, child.tokensPerWindow, 0, parent.tokensPerWindow)
            && Takes(c.defaultTokens, child.defaultTokens, 0, parent.defaultTokens)
  {
  }

  /** What a dynamic endpoint starts from: nothing but its path. */
  function Blank(path: string): EndpointConfig {
    EndpointConfig(path, 0.0, "", "", "", 0, "", 0, 0, 0.0, 0.0, 0, 0, true)
  }

  /** The configuration of another endpoint under a path of its own. */
  function Under(path: string, cfg: EndpointConfig): EndpointConfig {
    cfg.(path := path, dynamic := true)
  }

  /** A dynamic child is its parent in everything but path and dynamic, and passes
      the same on to its own children. */
  lemma BlankInheritsAll(path: string, parent: EndpointConfig)
    ensures InheritFrom(Blank(path), parent) == Under(path, parent)
    ensures forall q :: Under(q, Under(path, parent)) == Under(q, parent)
  {
  }

  /** The configuration of a dynamic endpoint. */
  function Child(path: string, parent: EndpointConfig): (child: EndpointConfig)
    ensures child == Under(path, parent)
  {
    InheritFrom(Blank(path), parent)
  }

  // ----- Defaults -----

  function MergeWithSystem(d: Defaults): Defaults {
    d.(scheduler := Text(d.scheduler, "fifo"), algorithm := Text(d.algorithm, "strict"), unit := Text(d.unit, "rps"),
       maxQueueSize := Number(d.maxQueueSize, 1000), overflow := Text(d.overflow, "reject"))
  }

  /** The system defaults stand in for what the configuration leaves open; the other
      defaults stay as they are. */
  lemma SystemDefaultsEachField(d: Defaults)
    ensures var m := MergeWithSystem(d);
            && Takes(m.scheduler, d.scheduler, "", "fifo")
            && Takes(m.algorithm, d.algorithm, "", "strict")
            && Takes(m.unit, d.unit, "", "rps")
            && Takes(m.maxQueueSize, d.maxQueueSize, 0, 1000)
            && Takes(m.overflow, d.overflow, "", "reject")
            && m.queueTimeout == d.queueTimeout && m.latencyCompensation == d.latencyCompensation
            && m.maxDynamicEndpoints == d.maxDynamicEndpoints
            && m.tokensPerWindow == d.tokensPerWindow && m.defaultTokens == d.defaultTokens
  {
  }

  function NoDefaults(): Defaults {
    Defaults("", "", "", 0, "", 0.0, 0.0, 0, 0, 0)
  }

  function AutoRoot(d: Defaults): EndpointConfig {
    EndpointConfig("/", 1.0, d.unit, d.scheduler, d.algorithm, d.maxQueueSize, d.overflow, 0, 0, 0.0, 0.0, 0, 0, false)
  }

  /** A token window endpoint costs at least one token by default. */
  function Fill(ep: EndpointConfig, d: Defaults): EndpointConfig {
    var algorithm := Text(ep.algorithm, d.algorithm);
    var tokens := Number(ep.defaultTokens, d.defaultTokens);
    ep.(rate := Quantity(ep.rate, 1.0),
        unit := Text(ep.unit, d.unit),
        scheduler := Text(ep.scheduler, d.scheduler),
        algorithm := algorithm,
        maxQueueSize := Number(ep.maxQueueSize, d.maxQueueSize),
        overflow := Text(ep.overflow, d.overflow),
        queueTimeout := Quantity(ep.queueTimeout, d.queueTimeout),
        latencyCompensation := Quantity(ep.latencyCompensation, d.latencyCompensation),
        tokensPerWindow := Number(ep.tokensPerWindow, d.tokensPerWindow),
        defaultTokens := if algorithm == "token_window" && tokens == 0 then 1 else tokens)
  }

  /** Filling field by field. */
  lemma FillsEachField(ep: EndpointConfig, d: Defaults)
    ensures var f := Fill(ep, d);
            && f.path == ep.path && f.dynamic == ep.dynamic
            && f.burstSize == ep.burstSize && f.windowSeconds == ep.windowSeconds
            && Takes(f.rate, ep.rate, 0.0, 1.0)
            && Takes(f.unit, ep.unit, "", d.unit)
            && Takes(f.scheduler, ep.scheduler, "", d.scheduler)
            && Takes(f.algorithm, ep.algorithm, "", d.algorithm)
            && Takes(f.maxQueueSize, ep.maxQueueSize, 0, d.maxQueueSize)
            && Takes(f.overflow, ep.overflow, "", d.overflow)
            && Takes(f.queueTimeout, ep.queueTimeout, 0.0, d.queueTimeout)
            && Takes(f.latencyCompensation, ep.latencyCompensation, 0.0, d.latencyCompensation)
            && Takes(f.tokensPerWindow, ep.tokensPerWindow, 0, d.tokensPerWindow)
            && (ep.defaultTokens != 0 || d.defaultTokens != 0 || f.algorithm != "token_window" ==>
                  Takes(f.defaultTokens, ep.defaultTokens, 0, d.defaultTokens))
            && (ep.defaultTokens == 0 && d.defaultTokens == 0 && f.algorithm == "token_window" ==> f.defaultTokens == 1)
  {
  }

  /** The root that is put in gets what an entry with nothing but the path "/" gets. */
  lemma AutoRootIsBlank(d: Defaults)
    ensures Fill(AutoRoot(d), d) == Fill(Blank("/").(dynamic := false), d)
  {
  }

  predicate HasPath(endpoints: seq<EndpointConfig>, path: string) {
    exists i :: 0 <= i < |endpoints| && endpoints[i].path == path
  }

  function Filled(endpoints: seq<EndpointConfig>, d: Defaults): (filled: seq<EndpointConfig>)
    ensures |filled| == |endpoints| && forall i :: 0 <= i < |endpoints| ==> filled[i] == Fill(endpoints[i], d)
  {
    seq(|endpoints|, i requires 0 <= i < |endpoints| => Fill(endpoints[i], d))
  }

  function WithRoot(endpoints: seq<EndpointConfig>, d: Defaults): seq<EndpointConfig> {
    if HasPath(endpoints, "/") then endpoints else [AutoRoot(d)] + endpoints
  }

  class Config {
    var defaults: Defaults
    var endpoints: seq<EndpointConfig>

    constructor (defaults: Defaults, endpoints: seq<EndpointConfig>)
      ensures this.defaults == defaults && this.endpoints == endpoints
    {
      this.defaults, this.endpoints := defaults, endpoints;
    }

    /** Inserts a root if there is none, then fills every endpoint in place. */
    method ApplyDefaults()
      modifies this`endpoints
      ensures var d := MergeWithSystem(defaults); endpoints == Filled(WithRoot(old(endpoints), d), d)
    {
      var d := MergeWithSystem(defaults);
      var hasRoot := false;
      for i := 0 to |endpoints|
        invariant hasRoot == exists j :: 0 <= j < i && endpoints[j].path == "/"
      {
        if endpoints[i].path == "/" {
          hasRoot := true;
          break;
        }
      }
      if !hasRoot {
        endpoints := [AutoRoot(d)] + endpoints;
      }
      ghost var before := endpoints;
      for i := 0 to |endpoints|
        invariant |endpoints| == |before|
        invariant forall j :: 0 <= j < |before| ==> endpoints[j] == if j < i then Fill(before[j], d) else before[j]
      {
        endpoints := endpoints[i := Fill(endpoints[i], d)];
      }
    }
  }

  lemma RootedHasRoot(endpoints: seq<EndpointConfig>, d: Defaults)
    ensures HasPath(Filled(WithRoot(endpoints, d), d), "/")
  {
    var once := Filled(WithRoot(endpoints, d), d);
    if HasPath(endpoints, "/") {
      var i :| 0 <= i < |endpoints| && endpoints[i].path == "/";
      assert once[i].path == "/";
    } else {
      assert once[0].path == "/";
    }
  }

  lemma SamePaths(endpoints: seq<EndpointConfig>, d: Defaults, path: string)
    ensures HasPath(Filled(endpoints, d), path) <==> HasPath(endpoints, path)
  {
    var filled := Filled(endpoints, d);
    if i :| 0 <= i < |endpoints| && endpoints[i].path == path { assert filled[i].path == path; }
    if i :| 0 <= i < |filled| && filled[i].path == path { assert endpoints[i].path == path; }
  }

  lemma RootedPaths(endpoints: seq<EndpointConfig>, d: Defaults, path: string)
    ensures HasPath(WithRoot(endpoints, d), path) <==> path == "/" || HasPath(endpoints, path)
  {
    var rooted := WithRoot(endpoints, d);
    if !HasPath(endpoints, "/") {
      assert rooted[0].path == "/";
      if i :| 0 <= i < |endpoints| && endpoints[i].path == path { assert rooted[i + 1].path == path; }
      if i :| 0 <= i < |rooted| && rooted[i].path == path {
        assert i > 0 ==> endpoints[i - 1].path == path;
      }
    }
  }

  lemma FilledTwice(endpoints: seq<EndpointConfig>, defaults: Defaults)
    ensures var d := MergeWithSystem(defaults); Filled(Filled(endpoints, d), d) == Filled(endpoints, d)
  {
  }

  /** Applying the defaults again changes nothing; there is a root afterwards; and
      no endpoint is lost or renamed. */
  lemma DefaultsAreIdempotent(endpoints: seq<EndpointConfig>, defaults: Defaults)
    ensures var d := MergeWithSystem(defaults);
            var once := Filled(WithRoot(endpoints, d), d);
            && HasPath(once, "/") && Filled(WithRoot(once, d), d) == once
            && forall path :: HasPath(once, path) <==> path == "/" || HasPath(endpoints, path)
  {
    var d := MergeWithSystem(defaults);
    RootedHasRoot(endpoints, d);
    FilledTwice(WithRoot(endpoints, d), defaults);
    forall path ensures HasPath(Filled(WithRoot(endpoints, d), d), path) <==> path == "/" || HasPath(endpoints, path) {
      SamePaths(WithRoot(endpoints, d), d, path);
      RootedPaths(endpoints, d, path);
    }
  }

  /** Every endpoint keeps its place and is filled; a root that is missing comes first. */
  lemma DefaultsKeepPlaces(endpoints: seq<EndpointConfig>, d: Defaults)
    ensures var filled := Filled(WithRoot(endpoints, d), d);
            && (HasPath(endpoints, "/") ==>
                  |filled| == |endpoints| && forall i :: 0 <= i < |endpoints| ==> filled[i] == Fill(endpoints[i], d))
            && (!HasPath(endpoints, "/") ==>
                  && |filled| == |endpoints| + 1 && filled[0].path == "/" && !filled[0].dynamic
                  && forall i :: 0 <= i < |endpoints| ==> filled[i + 1] == Fill(endpoints[i], d))
  {
    var rooted := WithRoot(endpoints, d);
    if !HasPath(endpoints, "/") {
      assert forall i :: 0 <= i < |endpoints| ==> rooted[i + 1] == endpoints[i];
    }
  }

  // ----- Validation -----

  datatype Problem =
    | UnknownAlgorithm | UnknownScheduler | UnknownUnit | BadRate | BadQueueSize | BadTimeout
    | NoTokens | NoWindow | DefaultAboveWindow

  function Check(ep: EndpointConfig): Option<Problem> {
    if ep.algorithm !in {"strict", "token_bucket", "sliding_window", "token_window"} then Some(UnknownAlgorithm)
    else if ep.scheduler !in {"fifo", "lifo", "priority", "random"} then Some(UnknownScheduler)
    else if ep.unit !in {"rps", "rpm"} then Some(UnknownUnit)
    else if ep.algorithm != "token_window" && ep.rate <= 0.0 then Some(BadRate)
    else if ep.maxQueueSize <= 0 then Some(BadQueueSize)
    else if ep.queueTimeout < 0.0 then Some(BadTimeout)
    else if ep.algorithm == "token_window" && ep.tokensPerWindow <= 0 then Some(NoTokens)
    else if ep.algorithm == "token_window" && ep.windowSeconds <= 0 then Some(NoWindow)
    else if ep.algorithm == "token_window" && ep.defaultTokens > ep.tokensPerWindow then Some(DefaultAboveWindow)
    else None
  }

  /** What a valid endpoint is. */
  lemma ValidIff(ep: EndpointConfig)
    ensures Check(ep).None? <==>
              && (ep.algorithm == "strict" || ep.algorithm == "token_bucket" || ep.algorithm == "sliding_window" ||
                  ep.algorithm == "token_window")
              && (ep.scheduler == "fifo" || ep.scheduler == "lifo" || ep.scheduler == "priority" ||
                  ep.scheduler == "random")
              && (ep.unit == "rps" || ep.unit == "rpm")
              && (ep.algorithm == "token_window" || ep.rate > 0.0)
              && ep.maxQueueSize > 0 && ep.queueTimeout >= 0.0
              && (ep.algorithm == "token_window" ==>
                    ep.tokensPerWindow > 0 && ep.windowSeconds > 0 && ep.defaultTokens <= ep.tokensPerWindow)
  {
  }

  /** A reported problem is one. */
  lemma ProblemIsReal(ep: EndpointConfig)
    ensures match Check(ep)
            case None => true
            case Some(UnknownAlgorithm) => ep.algorithm !in {"strict", "token_bucket", "sliding_window", "token_window"}
            case Some(UnknownScheduler) => ep.scheduler !in {"fifo", "lifo", "priority", "random"}
            case Some(UnknownUnit) => ep.unit != "rps" && ep.unit != "rpm"
            case Some(BadRate) => ep.algorithm != "token_window" && ep.rate <= 0.0
            case Some(BadQueueSize) => ep.maxQueueSize <= 0
            case Some(BadTimeout) => ep.queueTimeout < 0.0
            case Some(NoTokens) => ep.algorithm == "token_window" && ep.tokensPerWindow <= 0
            case Some(NoWindow) => ep.algorithm == "token_window" && ep.windowSeconds <= 0
            case Some(DefaultAboveWindow) => ep.algorithm == "token_window" && ep.defaultTokens > ep.tokensPerWindow
  {
  }

  /** The first problem of the first endpoint that has one. */
  method ValidateEndpoints(endpoints: seq<EndpointConfig>) returns (problem: Option<(nat, Problem)>)
    ensures problem.None? <==> forall ep <- endpoints :: Check(ep).None?
    ensures problem.Some? ==>
              && problem.value.0 < |endpoints| && Check(endpoints[problem.value.0]) == Some(problem.value.1)
              && forall i :: 0 <= i < problem.value.0 ==> Check(endpoints[i]).None?
  {
    for i := 0 to |endpoints|
      invariant forall j :: 0 <= j < i ==> Check(endpoints[j]).None?
    {
      var found := Check(endpoints[i]);
      if found.Some? {
        return Some((i, found.value));
      }
    }
    return None;
  }

  // ----- Starting an endpoint -----

  /** Go's runtime panics on a negative channel size and a ticker without period. */
  datatype Start = Started | Refused | Panics

  function StartEndpoint(cfg: EndpointConfig): Start {
    if cfg.scheduler !in {"fifo", "lifo", "priority", "random"} then Refused
    else if cfg.maxQueueSize < 0 then Panics
    else if cfg.algorithm == "token_window" then (if cfg.windowSeconds <= 0 then Panics else Started)
    else if Limiters.New(cfg.algorithm, cfg.rate, cfg.unit, cfg.burstSize, cfg.windowSeconds,
                         cfg.latencyCompensation).Some?
    then Started
    else Refused
  }

  /** An endpoint starts exactly with a known scheduler, a queue size that is not
      negative, and a window of positive length or a limiter. */
  lemma StartsIff(cfg: EndpointConfig)
    ensures StartEndpoint(cfg).Started? <==>
              && (cfg.scheduler == "fifo" || cfg.scheduler == "lifo" || cfg.scheduler == "priority" ||
                  cfg.scheduler == "random")
              && cfg.maxQueueSize >= 0
              && (if cfg.algorithm == "token_window" then cfg.windowSeconds > 0
                  else cfg.rate > 0.0 && cfg.algorithm in {"strict", "token_bucket", "sliding_window"})
    ensures StartEndpoint(cfg).Refused? ==>
              || cfg.scheduler !in {"fifo", "lifo", "priority", "random"}
              || (cfg.algorithm != "token_window" &&
                  (cfg.rate <= 0.0 || cfg.algorithm !in {"strict", "token_bucket", "sliding_window"}))
  {
    Limiters.NewAccepts(cfg.algorithm, cfg.rate, cfg.unit, cfg.burstSize, cfg.windowSeconds, cfg.latencyCompensation);
  }

  /** Every validated endpoint starts, and so does every endpoint that inherits
      from one that started. */
  lemma ValidatedStarts(cfg: EndpointConfig, path: string)
    ensures Check(cfg).None? ==> StartEndpoint(cfg).Started?
    ensures StartEndpoint(Child(path, cfg)) == StartEndpoint(cfg)
  {
    Limiters.NewAccepts(cfg.algorithm, cfg.rate, cfg.unit, cfg.burstSize, cfg.windowSeconds, cfg.latencyCompensation);
  }
}
