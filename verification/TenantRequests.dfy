/**
 * Requests on their way through the tenant handler while the provider replaces and closes managers: the
 * step machines of the provider and of the handler, run together.
 */
module TenantRequests {
  import opened Types
  import opened CacheKeys
  import Provider = TenantProvider
  import Handler = TenantHandler

  datatype State = State(pool: Provider.Pool, handler: Handler.State)

  /** A request looks its manager up in the provider, or moves on in the handler; the provider may be shut down. */
  datatype Step =
    | Lookup(id: nat, cfg: Option<TenantConfig>, buildOk: bool)
    | Move(step: Handler.Step)
    | Shutdown

  /** At startup a manager is built, or the first lookup will build one. */
  function Initial(keyOf: TenantConfig -> string, seed: TenantConfig, seedOk: bool): State {
    State(Provider.Seeded(keyOf, Provider.EMPTY, seed, seedOk), Handler.Initial(if seedOk then Some(0) else None))
  }

  predicate Enabled(s: State, step: Step) {
    match step
    case Lookup(id, _, _) => id !in s.handler.requests
    case Move(step) => !step.Resolve? && Handler.Enabled(s.handler, step)
    case Shutdown => true
  }

  /** A lookup that fails ends its request. */
  function Do(keyOf: TenantConfig -> string, s: State, step: Step): State
    requires Enabled(s, step)
  {
    match step
    case Lookup(id, cfg, buildOk) =>
      var answer := Provider.Answer(keyOf, s.pool, cfg, buildOk);
      State(Provider.Resolved(keyOf, s.pool, cfg, buildOk),
            if answer.Some? then Handler.Do(s.handler, Handler.Resolve(id, answer.value)) else s.handler)
    case Move(step) => s.(handler := Handler.Do(s.handler, step))
    case Shutdown => s.(pool := Provider.Released(s.pool))
  }

  predicate Possible(keyOf: TenantConfig -> string, s: State, steps: seq<Step>)
    decreases |steps|
  {
    steps != [] ==> Enabled(s, steps[0]) && Possible(keyOf, Do(keyOf, s, steps[0]), steps[1..])
  }

  function After(keyOf: TenantConfig -> string, s: State, steps: seq<Step>): State
    requires Possible(keyOf, s, steps)
    decreases |steps|
  {
    if steps == [] then s else After(keyOf, Do(keyOf, s, steps[0]), steps[1..])
  }

  ghost predicate Inv(s: State) {
    Provider.Owned(s.pool) && Handler.Inv(s.handler)
  }

  lemma {:induction false} StepKeepsInv(keyOf: TenantConfig -> string, s: State, step: Step)
    requires Inv(s) && Enabled(s, step)
    ensures Inv(Do(keyOf, s, step))
  {
    match step {
      case Lookup(id, cfg, buildOk) =>
        Provider.NextKeepsOwned(keyOf, s.pool, Provider.Lookup(cfg, buildOk));
        var answer := Provider.Answer(keyOf, s.pool, cfg, buildOk);
        if answer.Some? {
          Handler.StepKeepsInv(s.handler, Handler.Resolve(id, answer.value));
        }
      case Move(move) => Handler.StepKeepsInv(s.handler, move);
      case Shutdown => Provider.NextKeepsOwned(keyOf, s.pool, Provider.Shutdown);
    }
  }

  lemma {:induction false} RunKeepsInv(keyOf: TenantConfig -> string, s: State, steps: seq<Step>)
    requires Inv(s) && Possible(keyOf, s, steps)
    ensures Inv(After(keyOf, s, steps))
    decreases |steps|
  {
    if steps != [] {
      StepKeepsInv(keyOf, s, steps[0]);
      RunKeepsInv(keyOf, Do(keyOf, s, steps[0]), steps[1..]);
    }
  }

  lemma {:induction false} InitialInv(keyOf: TenantConfig -> string, seed: TenantConfig, seedOk: bool)
    ensures Inv(Initial(keyOf, seed, seedOk))
  {
    Provider.NothingLeaks(keyOf, seed, seedOk, []);
  }

  predicate Open(p: Provider.Pool, manager: nat) {
    manager < p.built && manager !in p.closedManagers
  }

  /** A step that leaves the manager held under `key` where it is. */
  predicate Keeps(keyOf: TenantConfig -> string, key: string, step: Step) {
    match step
    case Lookup(_, cfg, buildOk) => cfg.None? || keyOf(cfg.value) == key || !buildOk
    case Move(_) => true
    case Shutdown => false
  }

  lemma {:induction false} ClosedStaysClosed(keyOf: TenantConfig -> string, s: State, steps: seq<Step>, m: nat)
    requires Possible(keyOf, s, steps) && m in s.pool.closedManagers
    ensures m in After(keyOf, s, steps).pool.closedManagers
    decreases |steps|
  {
    if steps != [] {
      ClosedStaysClosed(keyOf, Do(keyOf, s, steps[0]), steps[1..], m);
    }
  }

  /** A step that does not keep the held manager closes it. */
  lemma {:induction false} KeepsOrCloses(keyOf: TenantConfig -> string, s: State, step: Step, m: nat)
    requires Enabled(s, step) && s.pool.manager == Some(m)
    ensures if Keeps(keyOf, s.pool.key, step) then Do(keyOf, s, step).pool == s.pool
            else m in Do(keyOf, s, step).pool.closedManagers
  {
    if !Keeps(keyOf, s.pool.key, step) {
      var closed := Do(keyOf, s, step).pool.closedManagers;
      assert closed == s.pool.closedManagers + [m];
      assert closed[|closed| - 1] == m;
    }
  }

  lemma {:induction false} HeldStaysOpenExactly(keyOf: TenantConfig -> string, s: State, steps: seq<Step>, m: nat)
    requires Possible(keyOf, s, steps) && s.pool.manager == Some(m) && Open(s.pool, m)
    ensures Open(After(keyOf, s, steps).pool, m)
       <==> forall i :: 0 <= i < |steps| ==> Keeps(keyOf, s.pool.key, steps[i])
    decreases |steps|
  {
    if steps != [] {
      var t := Do(keyOf, s, steps[0]);
      KeepsOrCloses(keyOf, s, steps[0], m);
      if Keeps(keyOf, s.pool.key, steps[0]) {
        HeldStaysOpenExactly(keyOf, t, steps[1..], m);
        assert forall i :: 0 < i < |steps| ==> steps[i] == steps[1..][i - 1];
      } else {
        ClosedStaysClosed(keyOf, t, steps[1..], m);
      }
    }
  }

  lemma {:induction false} RequestsKeepManager(keyOf: TenantConfig -> string, s: State, steps: seq<Step>, id: nat)
    requires Possible(keyOf, s, steps) && id in s.handler.requests
    ensures id in After(keyOf, s, steps).handler.requests
    ensures After(keyOf, s, steps).handler.requests[id].manager == s.handler.requests[id].manager
    decreases |steps|
  {
    if steps != [] {
      StepKeepsManager(keyOf, s, steps[0], id);
      RequestsKeepManager(keyOf, Do(keyOf, s, steps[0]), steps[1..], id);
    }
  }

  lemma {:induction false} StepKeepsManager(keyOf: TenantConfig -> string, s: State, step: Step, id: nat)
    requires Enabled(s, step) && id in s.handler.requests
    ensures id in Do(keyOf, s, step).handler.requests
    ensures Do(keyOf, s, step).handler.requests[id].manager == s.handler.requests[id].manager
  {
  }

  /** Right after a lookup its manager is the one the provider holds, under the key asked for, and open. */
  lemma {:induction false} AnsweredIsHeld(
    keyOf: TenantConfig -> string, s: State, id: nat, cfg: TenantConfig, buildOk: bool)
    requires Inv(s) && Enabled(s, Lookup(id, Some(cfg), buildOk))
    requires Provider.Answer(keyOf, s.pool, Some(cfg), buildOk).Some?
    ensures
      var m := Provider.Answer(keyOf, s.pool, Some(cfg), buildOk).value;
      var t := Do(keyOf, s, Lookup(id, Some(cfg), buildOk));
      && t.pool.manager == Some(m) && t.pool.key == keyOf(cfg) && Open(t.pool, m)
      && id in t.handler.requests && t.handler.requests[id].manager == m
  {
    var m := Provider.Answer(keyOf, s.pool, Some(cfg), buildOk).value;
    var t := Do(keyOf, s, Lookup(id, Some(cfg), buildOk));
    StepKeepsInv(keyOf, s, Lookup(id, Some(cfg), buildOk));
    assert Provider.Accounted(t.pool.closedManagers, t.pool.manager, t.pool.built, m);
  }

  /**
   * In every run, a request is served with the manager its lookup returned, and that manager is open at
   * any later moment if and only if no lookup replaced it and nothing was shut down since.
   */
  lemma {:induction false} ServingManagerOpenExactly(
    keyOf: TenantConfig -> string, seed: TenantConfig, seedOk: bool, before: seq<Step>, s: State,
    id: nat, cfg: TenantConfig, buildOk: bool, since: seq<Step>)
    requires Possible(keyOf, Initial(keyOf, seed, seedOk), before)
    requires s == After(keyOf, Initial(keyOf, seed, seedOk), before) && Enabled(s, Lookup(id, Some(cfg), buildOk))
    requires Provider.Answer(keyOf, s.pool, Some(cfg), buildOk).Some?
    requires Possible(keyOf, Do(keyOf, s, Lookup(id, Some(cfg), buildOk)), since)
    ensures
      var m := Provider.Answer(keyOf, s.pool, Some(cfg), buildOk).value;
      var t := After(keyOf, Do(keyOf, s, Lookup(id, Some(cfg), buildOk)), since);
      && id in t.handler.requests
      && (t.handler.requests[id].Served? ==> t.handler.requests[id].middleware.manager == m)
      && (Open(t.pool, m) <==> forall i :: 0 <= i < |since| ==> Keeps(keyOf, keyOf(cfg), since[i]))
  {
    var looked := Do(keyOf, s, Lookup(id, Some(cfg), buildOk));
    var m := Provider.Answer(keyOf, s.pool, Some(cfg), buildOk).value;
    var t := After(keyOf, looked, since);
    InitialInv(keyOf, seed, seedOk);
    RunKeepsInv(keyOf, Initial(keyOf, seed, seedOk), before);
    StepKeepsInv(keyOf, s, Lookup(id, Some(cfg), buildOk));
    AnsweredIsHeld(keyOf, s, id, cfg, buildOk);
    HeldStaysOpenExactly(keyOf, looked, since, m);
    RequestsKeepManager(keyOf, looked, since, id);
    RunKeepsInv(keyOf, looked, since);
    assert Handler.Fits(t.handler, id, t.handler.requests[id]);
  }

  /** A lookup for another key, between the lookup and the service of a request, closes what serves it. */
  lemma {:induction false} ServedByClosedManager(keyOf: TenantConfig -> string, seed: TenantConfig, other: TenantConfig)
    requires keyOf(seed) != keyOf(other)
    ensures
      var steps := [Lookup(0, Some(seed), true), Lookup(1, Some(other), true), Move(Handler.FastRead(0))];
      && Possible(keyOf, Initial(keyOf, seed, true), steps)
      && var t := After(keyOf, Initial(keyOf, seed, true), steps);
         && 0 in t.handler.requests && t.handler.requests[0].Served?
         && t.handler.requests[0].middleware.manager == 0 && !Open(t.pool, 0)
  {
    var a, b, d := Lookup(0, Some(seed), true), Lookup(1, Some(other), true), Move(Handler.FastRead(0));
    var s0 := Initial(keyOf, seed, true);
    var s1 := Do(keyOf, s0, a);
    KeepsOrCloses(keyOf, s1, b, 0);
    var s2 := Do(keyOf, s1, b);
    var s3 := Do(keyOf, s2, d);
    assert [a, b, d][1..] == [b, d] && [b, d][1..] == [d];
    assert Possible(keyOf, s2, [d]) && After(keyOf, s2, [d]) == s3;
    assert Possible(keyOf, s1, [b, d]) && After(keyOf, s1, [b, d]) == s3;
  }

  /** After any run the provider can be shut down, and then no manager is open. */
  lemma {:induction false} ShutdownClosesAll(
    keyOf: TenantConfig -> string, seed: TenantConfig, seedOk: bool, before: seq<Step>, s: State, m: nat)
    requires Possible(keyOf, Initial(keyOf, seed, seedOk), before)
    requires s == After(keyOf, Initial(keyOf, seed, seedOk), before)
    ensures Enabled(s, Shutdown) && !Open(Do(keyOf, s, Shutdown).pool, m)
  {
    InitialInv(keyOf, seed, seedOk);
    RunKeepsInv(keyOf, Initial(keyOf, seed, seedOk), before);
    var p := Do(keyOf, s, Shutdown).pool;
    StepKeepsInv(keyOf, s, Shutdown);
    assert Provider.Accounted(p.closedManagers, p.manager, p.built, m);
  }
}
