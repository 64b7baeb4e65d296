/** The self-probe at startup, and its agreement with the readiness probe. */
module SelfProbe {
  import opened Types
  import opened Readiness
  import opened ReadinessVerdict

  datatype ProbeError = NilDependencies | RequiredDown(names: seq<string>)

  predicate Down(d: Dependency) {
    !d.optional && !d.behaviour.Succeeds?
  }

  /** The required dependencies that are not up, in the order of the list. */
  function DownRequired(deps: seq<Dependency>): (names: seq<string>)
    ensures names == [] <==> forall i :: 0 <= i < |deps| ==> !Down(deps[i])
  {
    if deps == [] then []
    else
      var last := deps[|deps| - 1];
      DownRequired(deps[..|deps| - 1]) + if Down(last) then [last.name] else []
  }

  class Prober {
    /** The flag that gates the liveness endpoint. */
    var ok: bool

    constructor ()
      ensures !ok
    {
      ok := false;
    }

    /**
     * Probes every dependency once. The goroutines finish in any order; a panicking check
     * leaves its slot untouched.
     */
    method Run(deps: Option<seq<Dependency>>) returns (error: Option<ProbeError>)
      modifies this
      ensures ok <==> error.None?
      ensures error == match deps
                       case None => Some(NilDependencies)
                       case Some(ds) =>
                         if DownRequired(ds) == [] then None else Some(RequiredDown(DownRequired(ds)))
    {
      ok := false;
      if deps.None? {
        return Some(NilDependencies);
      }
      var specs := deps.value;
      var probed, running := Launch(specs);
      var up := Join(specs, running);
      var downRequired := Collect(specs, probed, up);
      if downRequired != [] {
        return Some(RequiredDown(downRequired));
      }
      ok := true;
      return None;
    }
  }

  /** Resolves each check and starts a goroutine for each one found. */
  method Launch(specs: seq<Dependency>) returns (probed: seq<bool>, running: set<nat>)
    ensures |probed| == |specs|
    ensures forall k :: k in running <==> 0 <= k < |specs| && !specs[k].behaviour.Unresolved?
    ensures forall k :: 0 <= k < |specs| ==>
              (probed[k] <==> !(specs[k].behaviour.Unresolved? && specs[k].optional))
  {
    probed, running := seq(|specs|, _ => false), {};
    for i := 0 to |specs|
      invariant |probed| == |specs|
      invariant forall k :: k in running <==> 0 <= k < i && !specs[k].behaviour.Unresolved?
      invariant forall k :: 0 <= k < i ==>
                  (probed[k] <==> !(specs[k].behaviour.Unresolved? && specs[k].optional))
      invariant forall k :: i <= k < |specs| ==> !probed[k]
    {
      if specs[i].behaviour.Unresolved? {
        if !specs[i].optional {
          probed := probed[i := true];
        }
      } else {
        probed := probed[i := true];
        running := running + {i};
      }
    }
  }

  /** The goroutines finish, in any order, each writing its own slot. */
  method Join(specs: seq<Dependency>, launched: set<nat>) returns (up: seq<bool>)
    requires forall k :: k in launched <==> 0 <= k < |specs| && !specs[k].behaviour.Unresolved?
    ensures |up| == |specs|
    ensures forall k :: 0 <= k < |specs| ==> (up[k] <==> specs[k].behaviour.Succeeds?)
  {
    up := seq(|specs|, _ => false);
    var running := launched;
    while running != {}
      invariant running <= launched && |up| == |specs|
      invariant forall k :: k in running ==> !up[k]
      invariant forall k :: 0 <= k < |specs| && k !in running ==> (up[k] <==> specs[k].behaviour.Succeeds?)
      decreases |running|
    {
      var i :| i in running;
      if !specs[i].behaviour.Panics? {
        up := up[i := specs[i].behaviour.Succeeds?];
      }
      running := running - {i};
    }
  }

  /** Walks the slots in order and names the required dependencies that are down. */
  method Collect(specs: seq<Dependency>, probed: seq<bool>, up: seq<bool>) returns (downRequired: seq<string>)
    requires |probed| == |up| == |specs|
    requires forall k :: 0 <= k < |specs| ==>
               (probed[k] <==> !(specs[k].behaviour.Unresolved? && specs[k].optional))
    requires forall k :: 0 <= k < |specs| ==> (up[k] <==> specs[k].behaviour.Succeeds?)
    ensures downRequired == DownRequired(specs)
  {
    downRequired := [];
    for i := 0 to |specs|
      invariant downRequired == DownRequired(specs[..i])
    {
      assert specs[..i + 1][..i] == specs[..i];
      if probed[i] && !up[i] && !specs[i].optional {
        downRequired := downRequired + [specs[i].name];
      }
    }
    assert specs[..|specs|] == specs;
  }

  /**
   * For every assignment of outcomes to dependencies and every run in which the evaluator has
   * returned with all outcomes of checks that did not panic, the two probes agree.
   */
  lemma {:induction false} ProbesAgree(c: Setup, steps: seq<Step>, s: State)
    requires Reached(c, steps, s) && s.pending == 0
    requires forall i :: 0 <= i < |c.deps| && i < |s.received| && !c.deps[i].behaviour.Panics? ==> s.received[i]
    ensures Healthy(s) <==> DownRequired(c.deps) == []
  {
    ReachedInv(c, steps, s);
    VerdictIsExact(c, steps, s);
    forall i | 0 <= i < |c.deps|
      ensures !Down(c.deps[i]) <==> (c.deps[i].optional || KnownUp(c, s, i))
    {
    }
  }

  /** The part of the configuration the fetcher's entry looks at. */
  datatype FetcherConfig = FetcherConfig(enabled: bool, urlBlank: bool)

  /** Which dependencies are optional, whether streaming is on, and what each wired check would do. */
  datatype Wiring = Wiring(
    postgresOptional: bool, replicaOptional: bool, redisOptional: bool, rabbitMQOptional: bool,
    fetcherOptional: bool, objectStorageOptional: bool, streamingOptional: bool, streamingEnabled: bool,
    postgres: Behaviour, replica: Behaviour, redis: Behaviour, rabbitMQ: Behaviour,
    fetcher: Behaviour, objectStorage: Behaviour, streaming: Behaviour)

  function FetcherOptional(cfg: Option<FetcherConfig>, w: Option<Wiring>): bool {
    (w.Some? && w.value.fetcherOptional) || (cfg.Some? && !cfg.value.enabled)
  }

  function FetcherBehaviour(cfg: Option<FetcherConfig>, w: Option<Wiring>): Behaviour {
    if w.None? || (cfg.Some? && !cfg.value.enabled) then Unresolved
    else if cfg.Some? && cfg.value.urlBlank then Fails
    else w.value.fetcher
  }

  /** The seven dependencies of both probes, in their order. */
  function Specs(cfg: Option<FetcherConfig>, w: Option<Wiring>): seq<Dependency> {
    var some := w.Some?;
    [
      Dependency("postgres", some && w.value.postgresOptional, if some then w.value.postgres else Unresolved),
      Dependency("postgres_replica", some && w.value.replicaOptional, if some then w.value.replica else Unresolved),
      Dependency("redis", some && w.value.redisOptional, if some then w.value.redis else Unresolved),
      Dependency("rabbitmq", some && w.value.rabbitMQOptional, if some then w.value.rabbitMQ else Unresolved),
      Dependency("fetcher", FetcherOptional(cfg, w), FetcherBehaviour(cfg, w)),
      Dependency("object_storage", some && w.value.objectStorageOptional,
            if some then w.value.objectStorage else Unresolved),
      Dependency("streaming", !some || w.value.streamingOptional || !w.value.streamingEnabled,
                 if some && w.value.streamingEnabled then w.value.streaming else Unresolved)
    ]
  }

  /** Without dependencies the readiness probe is unhealthy in every run, as the self-probe fails. */
  lemma {:induction false} NilDependenciesFail(cfg: Option<FetcherConfig>, limit: nat, steps: seq<Step>, s: State)
    requires Reached(Setup(Specs(cfg, None), limit), steps, s) && s.pending == 0
    ensures !Healthy(s)
  {
    var c := Setup(Specs(cfg, None), limit);
    VerdictIsExact(c, steps, s);
    assert !c.deps[0].optional && !KnownUp(c, s, 0);
  }

  function NamesOf(deps: seq<Dependency>): (names: seq<string>)
    ensures |names| == |deps| && forall i :: 0 <= i < |deps| ==> names[i] == deps[i].name
  {
    seq(|deps|, i requires 0 <= i < |deps| => deps[i].name)
  }

  lemma {:induction false} SpecNamesAreDistinct(cfg: Option<FetcherConfig>, w: Option<Wiring>)
    ensures |Specs(cfg, w)| == 7 && Distinct(NamesOf(Specs(cfg, w)))
  {
    var n := NamesOf(Specs(cfg, w));
    assert |n[0]| == 8 && |n[1]| == 16 && |n[2]| == 5 && |n[3]| == 8 && |n[4]| == 7 && |n[5]| == 14 && |n[6]| == 9;
    assert n[0][0] == 'p' && n[3][0] == 'r';
  }

  /**
   * The whole readiness answer, in every run: one entry for each of the seven dependencies, none of them
   * blank, with the status and reason of what was received, and healthy exactly when all required ones are up.
   */
  method Readyz(cfg: Option<FetcherConfig>, w: Option<Wiring>, limit: nat, ghost steps: seq<Step>, s: State)
    returns (status: int, checks: map<string, CheckResult>, healthy: bool)
    requires Reached(Setup(Specs(cfg, w), limit), steps, s) && s.pending == 0
    ensures |checks| == 7 && |Specs(cfg, w)| == 7
    ensures forall i :: 0 <= i < 7 ==>
              var name := Specs(cfg, w)[i].name;
              && name in checks && !checks[name].status.Blank?
              && i < |s.received| && Reports(Specs(cfg, w)[i], s.received[i], checks[name])
    ensures healthy <==> forall i :: 0 <= i < 7 ==>
              Specs(cfg, w)[i].optional || KnownUp(Setup(Specs(cfg, w), limit), s, i)
    ensures status == if healthy then 200 else 503
  {
    ghost var c := Setup(Specs(cfg, w), limit);
    SpecNamesAreDistinct(cfg, w);
    VerdictIsExact(c, steps, s);
    ReachedInv(c, steps, s);
    forall i: nat | i < 7
      ensures !s.results[i].status.Blank? && Reports(c.deps[i], s.received[i], s.results[i])
    {
      ReportIsComplete(c, steps, s, i);
    }
    var names := NamesOf(Specs(cfg, w));
    status, checks, healthy := Respond(names, s.results, s.aggregates);
    assert forall i :: 0 <= i < 7 ==> names[i] in checks;
  }

  /** The seven dependencies by name, each with its own option and its own check. */
  lemma {:induction false} SpecsByName(cfg: Option<FetcherConfig>, w: Wiring)
    ensures
      var d := Specs(cfg, Some(w));
      && d[0].name == "postgres" && d[0].optional == w.postgresOptional && d[0].behaviour == w.postgres
      && d[1].name == "postgres_replica" && d[1].optional == w.replicaOptional && d[1].behaviour == w.replica
      && d[2].name == "redis" && d[2].optional == w.redisOptional && d[2].behaviour == w.redis
      && d[3].name == "rabbitmq" && d[3].optional == w.rabbitMQOptional && d[3].behaviour == w.rabbitMQ
      && d[4].name == "fetcher" && d[5].name == "object_storage" && d[6].name == "streaming"
      && d[5].optional == w.objectStorageOptional && d[5].behaviour == w.objectStorage
    ensures
      var d := Specs(cfg, Some(w));
      && (w.streamingEnabled ==> d[6].optional == w.streamingOptional && d[6].behaviour == w.streaming)
      && (!w.streamingEnabled ==> d[6].optional && d[6].behaviour.Unresolved?)
      && (cfg.None? ==> d[4].optional == w.fetcherOptional && d[4].behaviour == w.fetcher)
      && (cfg.Some? && !cfg.value.enabled ==> d[4].optional && d[4].behaviour.Unresolved?)
      && (cfg.Some? && cfg.value.enabled ==>
            && d[4].optional == w.fetcherOptional
            && d[4].behaviour == if cfg.value.urlBlank then Fails else w.fetcher)
  {
  }

  /** Without dependencies nothing is resolved, and only streaming and a disabled fetcher are optional. */
  lemma {:induction false} SpecsOfNothing(cfg: Option<FetcherConfig>, i: nat)
    requires i < 7
    ensures |Specs(cfg, None)| == 7 && Specs(cfg, None)[i].behaviour.Unresolved?
    ensures Specs(cfg, None)[i].optional <==> i == 6 || (i == 4 && cfg.Some? && !cfg.value.enabled)
  {
  }

  lemma {:induction false} DownRequiredLast(deps: seq<Dependency>, d: Dependency)
    ensures DownRequired(deps + [d]) == DownRequired(deps) + if Down(d) then [d.name] else []
  {
    var all := deps + [d];
    assert all[..|all| - 1] == deps && all[|all| - 1] == d;
  }

  /** The list of those that are down grows with the list of dependencies, in its order. */
  lemma {:induction false} DownRequiredConcat(a: seq<Dependency>, b: seq<Dependency>)
    ensures DownRequired(a + b) == DownRequired(a) + DownRequired(b)
  {
    if b == [] {
      assert a + b == a;
    } else {
      var n := |b| - 1;
      var rest, d := b[..n], b[n];
      assert b == rest + [d] && a + b == (a + rest) + [d];
      DownRequiredConcat(a, rest);
      DownRequiredLast(rest, d);
      DownRequiredLast(a + rest, d);
    }
  }

  /** One dependency is named exactly when it is required and did not succeed. */
  lemma {:induction false} DownRequiredOne(d: Dependency)
    ensures DownRequired([d]) == if !d.optional && !d.behaviour.Succeeds? then [d.name] else []
  {
    assert [d][..0] == [];
  }
}
