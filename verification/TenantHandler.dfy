/**
 * The handler that caches tenant middleware and rebuilds it when the manager changes: a read under a
 * shared lock, and a checked rebuild under the exclusive one, for any number of concurrent requests.
 */
module TenantHandler {
  import opened Types

  /** Middleware is known by the manager it was built from and the number of its build. */
  datatype Middleware = Middleware(manager: nat, serial: nat)

  /** Where a request stands, with the manager it resolved; from Locked to Ready it holds the exclusive lock. */
  datatype Request =
    | Resolved(manager: nat)
    | Missed(manager: nat)
    | Locked(manager: nat)
    | Claimed(manager: nat)
    | Ready(manager: nat)
    | Served(manager: nat, middleware: Middleware)

  datatype State = State(
    lastManager: Option<nat>, lastMiddleware: Option<Middleware>, holder: Option<nat>,
    requests: map<nat, Request>, builds: nat)

  datatype Step =
    | Resolve(id: nat, manager: nat)
    | FastRead(id: nat)
    | Lock(id: nat)
    | Check(id: nat)
    | Build(id: nat)
    | Unlock(id: nat)

  /** Without a manager at startup nothing is cached. */
  function Initial(manager: Option<nat>): State {
    match manager
    case None => State(None, None, None, map[], 0)
    case Some(m) => State(Some(m), Some(Middleware(m, 0)), None, map[], 1)
  }

  predicate Enabled(s: State, step: Step) {
    if step.Resolve? then step.id !in s.requests
    else
      step.id in s.requests &&
      match step
      case FastRead(id) => s.requests[id].Resolved? && s.holder.None?
      case Lock(id) => s.requests[id].Missed? && s.holder.None?
      case Check(id) => s.requests[id].Locked?
      case Build(id) => s.requests[id].Claimed?
      case Unlock(id) => s.requests[id].Ready? && s.lastMiddleware.Some?
  }

  predicate Cached(s: State, manager: nat) {
    s.lastManager == Some(manager) && s.lastMiddleware.Some?
  }

  function Do(s: State, step: Step): State
    requires Enabled(s, step)
  {
    if step.Resolve? then s.(requests := s.requests[step.id := Resolved(step.manager)])
    else
      var m := s.requests[step.id].manager;
      match step
      case FastRead(id) =>
        s.(requests := s.requests[id := if Cached(s, m) then Served(m, s.lastMiddleware.value) else Missed(m)])
      case Lock(id) => s.(holder := Some(id), requests := s.requests[id := Locked(m)])
      case Check(id) =>
        if Cached(s, m) then s.(requests := s.requests[id := Ready(m)])
        else s.(lastManager := Some(m), requests := s.requests[id := Claimed(m)])
      case Build(id) =>
        s.(lastMiddleware := Some(Middleware(m, s.builds)), builds := s.builds + 1,
           requests := s.requests[id := Ready(m)])
      case Unlock(id) =>
        s.(holder := None, requests := s.requests[id := Served(m, s.lastMiddleware.value)])
  }

  predicate Possible(s: State, steps: seq<Step>)
    decreases |steps|
  {
    steps != [] ==> Enabled(s, steps[0]) && Possible(Do(s, steps[0]), steps[1..])
  }

  function After(s: State, steps: seq<Step>): State
    requires Possible(s, steps)
    decreases |steps|
  {
    if steps == [] then s else After(Do(s, steps[0]), steps[1..])
  }

  predicate Holds(r: Request) {
    r.Locked? || r.Claimed? || r.Ready?
  }

  /** The cached middleware was built from the cached manager. */
  predicate Paired(s: State) {
    s.lastMiddleware.Some? ==> s.lastManager == Some(s.lastMiddleware.value.manager)
  }

  /** What each request may rely on where it stands. */
  predicate Fits(s: State, id: nat, r: Request) {
    && (Holds(r) ==> s.holder == Some(id))
    && match r
       case Claimed(m) => s.lastManager == Some(m)
       case Ready(m) => Cached(s, m)
       case Served(m, middleware) => middleware.manager == m
       case _ => true
  }

  /** The pair is torn only while the holder of the lock is between its two writes. */
  predicate Inv(s: State) {
    && (s.holder.Some? ==> s.holder.value in s.requests && Holds(s.requests[s.holder.value]))
    && (Paired(s) || (s.holder.Some? && s.holder.value in s.requests && s.requests[s.holder.value].Claimed?))
    && forall id :: id in s.requests ==> Fits(s, id, s.requests[id])
  }

  lemma {:induction false} StepKeepsInv(s: State, step: Step)
    requires Inv(s) && Enabled(s, step)
    ensures Inv(Do(s, step))
  {
    var t := Do(s, step);
    forall id | id in t.requests
      ensures Fits(t, id, t.requests[id])
    {
      if id != step.id {
        assert Fits(s, id, s.requests[id]);
      }
    }
  }

  lemma {:induction false} RunKeepsInv(s: State, steps: seq<Step>)
    requires Inv(s) && Possible(s, steps)
    ensures Inv(After(s, steps))
    decreases |steps|
  {
    if steps != [] {
      StepKeepsInv(s, steps[0]);
      RunKeepsInv(Do(s, steps[0]), steps[1..]);
    }
  }

  /** A request keeps the manager it resolved. */
  lemma {:induction false} RequestsKeepManager(s: State, steps: seq<Step>, id: nat)
    requires Possible(s, steps) && id in s.requests
    ensures id in After(s, steps).requests && After(s, steps).requests[id].manager == s.requests[id].manager
    decreases |steps|
  {
    if steps != [] {
      RequestsKeepManager(Do(s, steps[0]), steps[1..], id);
    }
  }

  lemma {:induction false} RunRemembers(s: State, steps: seq<Step>, i: nat)
    requires Possible(s, steps) && i < |steps| && steps[i].Resolve?
    ensures steps[i].id in After(s, steps).requests
    ensures After(s, steps).requests[steps[i].id].manager == steps[i].manager
    decreases |steps|
  {
    if i == 0 {
      RequestsKeepManager(Do(s, steps[0]), steps[1..], steps[0].id);
    } else {
      RunRemembers(Do(s, steps[0]), steps[1..], i - 1);
    }
  }

  /** In every interleaving, a request is served by middleware built from the very manager it resolved. */
  lemma {:induction false} ServedByOwnManager(manager: Option<nat>, steps: seq<Step>, i: nat)
    requires Possible(Initial(manager), steps) && i < |steps| && steps[i].Resolve?
    ensures steps[i].id in After(Initial(manager), steps).requests
    ensures var r := After(Initial(manager), steps).requests[steps[i].id];
            r.Served? ==> r.middleware.manager == steps[i].manager
  {
    RunKeepsInv(Initial(manager), steps);
    RunRemembers(Initial(manager), steps, i);
    var s := After(Initial(manager), steps);
    assert Fits(s, steps[i].id, s.requests[steps[i].id]);
  }

  /** The locks never leave a request waiting for nobody: while one is not served, a request can move. */
  lemma {:induction false} SomeRequestCanMove(manager: Option<nat>, steps: seq<Step>, id: nat)
    requires Possible(Initial(manager), steps)
    requires id in After(Initial(manager), steps).requests && !After(Initial(manager), steps).requests[id].Served?
    ensures exists step: Step :: !step.Resolve? && Enabled(After(Initial(manager), steps), step)
  {
    RunKeepsInv(Initial(manager), steps);
    var s := After(Initial(manager), steps);
    var mover := if s.holder.Some? then s.holder.value else id;
    assert Fits(s, mover, s.requests[mover]);
    assert Enabled(s, FastRead(mover)) || Enabled(s, Lock(mover)) || Enabled(s, Check(mover))
        || Enabled(s, Build(mover)) || Enabled(s, Unlock(mover));
  }

  /** Every request resolves the same manager `m`. */
  predicate AllResolve(steps: seq<Step>, m: nat) {
    forall i :: 0 <= i < |steps| && steps[i].Resolve? ==> steps[i].manager == m
  }

  /** Then the middleware is built once: when it is there, and never before. */
  predicate BuiltOnce(s: State, m: nat) {
    && s.builds == (if s.lastMiddleware.Some? then 1 else 0)
    && (s.lastManager.Some? ==> s.lastManager.value == m)
    && forall id :: id in s.requests ==>
         s.requests[id].manager == m
         && (s.requests[id].Claimed? ==> s.lastMiddleware.None?)
         && (s.requests[id].Served? ==> s.lastMiddleware.Some?)
  }

  lemma {:induction false} StepBuildsOnce(s: State, step: Step, m: nat)
    requires Inv(s) && BuiltOnce(s, m) && Enabled(s, step) && (step.Resolve? ==> step.manager == m)
    ensures BuiltOnce(Do(s, step), m)
  {
    var t := Do(s, step);
    assert step.id in s.requests ==> Fits(s, step.id, s.requests[step.id]);
    forall id | id in t.requests
      ensures t.requests[id].manager == m
      ensures t.requests[id].Claimed? ==> t.lastMiddleware.None?
      ensures t.requests[id].Served? ==> t.lastMiddleware.Some?
    {
      if id != step.id {
        assert Fits(s, id, s.requests[id]);
      }
    }
  }

  lemma {:induction false} RunBuildsOnce(s: State, steps: seq<Step>, m: nat)
    requires Inv(s) && BuiltOnce(s, m) && Possible(s, steps) && AllResolve(steps, m)
    ensures BuiltOnce(After(s, steps), m)
    decreases |steps|
  {
    if steps != [] {
      StepBuildsOnce(s, steps[0], m);
      StepKeepsInv(s, steps[0]);
      RunBuildsOnce(Do(s, steps[0]), steps[1..], m);
    }
  }

  /** If all requests resolve one manager, one build serves the whole run, counting the one at startup. */
  lemma {:induction false} OneManagerOneBuild(manager: Option<nat>, steps: seq<Step>, m: nat)
    requires manager.Some? ==> manager.value == m
    requires Possible(Initial(manager), steps) && AllResolve(steps, m)
    ensures After(Initial(manager), steps).builds <= 1
    ensures
      var s := After(Initial(manager), steps);
      forall id :: id in s.requests && s.requests[id].Served? ==> s.builds == 1
  {
    RunBuildsOnce(Initial(manager), steps, m);
  }
}
