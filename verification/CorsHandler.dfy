/**
 * The handler that caches a CORS policy: a lock-free read of an immutable snapshot, and a checked
 * rebuild under a lock, for any number of concurrent requests. A build may panic, and then the lock stays
 * held: nothing releases it.
 */
module CorsHandler {
  import opened Types

  datatype Policy = Policy(origins: string, methods: string, headers: string)

  datatype Snapshot = Snapshot(policy: Policy, serial: nat)

  /** Where a request stands, with the policy it resolved; from Locked to Panicked it holds the lock. */
  datatype Request =
    | Resolved(policy: Policy)
    | Missed(policy: Policy)
    | Locked(policy: Policy)
    | Built(policy: Policy, made: Snapshot)
    | Stored(policy: Policy, kept: Snapshot)
    | Panicked(policy: Policy)
    | Served(policy: Policy, snapshot: Snapshot)

  datatype State = State(active: Option<Snapshot>, holder: Option<nat>, requests: map<nat, Request>, builds: nat)

  datatype Step =
    | Resolve(id: nat, policy: Policy)
    | Load(id: nat)
    | Lock(id: nat)
    | Recheck(id: nat)
    | Store(id: nat)
    | Unlock(id: nat)

  const INITIAL := State(None, None, map[], 0)

  predicate Enabled(s: State, step: Step) {
    if step.Resolve? then step.id !in s.requests
    else
      step.id in s.requests &&
      match step
      case Load(id) => s.requests[id].Resolved?
      case Lock(id) => s.requests[id].Missed? && s.holder.None?
      case Recheck(id) => s.requests[id].Locked?
      case Store(id) => s.requests[id].Built?
      case Unlock(id) => s.requests[id].Stored?
  }

  predicate Matches(active: Option<Snapshot>, policy: Policy) {
    active.Some? && active.value.policy == policy
  }

  /** `panics` tells the policies that cannot be built. */
  function Do(panics: Policy -> bool, s: State, step: Step): State
    requires Enabled(s, step)
  {
    if step.Resolve? then s.(requests := s.requests[step.id := Resolved(step.policy)])
    else
      var p := s.requests[step.id].policy;
      match step
      case Load(id) =>
        s.(requests := s.requests[id := if Matches(s.active, p) then Served(p, s.active.value) else Missed(p)])
      case Lock(id) => s.(holder := Some(id), requests := s.requests[id := Locked(p)])
      case Recheck(id) =>
        if Matches(s.active, p) then s.(requests := s.requests[id := Stored(p, s.active.value)])
        else if panics(p) then s.(requests := s.requests[id := Panicked(p)])
        else s.(builds := s.builds + 1, requests := s.requests[id := Built(p, Snapshot(p, s.builds))])
      case Store(id) =>
        s.(active := Some(s.requests[id].made), requests := s.requests[id := Stored(p, s.requests[id].made)])
      case Unlock(id) =>
        s.(holder := None, requests := s.requests[id := Served(p, s.requests[id].kept)])
  }

  predicate Possible(panics: Policy -> bool, s: State, steps: seq<Step>)
    decreases |steps|
  {
    steps != [] ==> Enabled(s, steps[0]) && Possible(panics, Do(panics, s, steps[0]), steps[1..])
  }

  function After(panics: Policy -> bool, s: State, steps: seq<Step>): State
    requires Possible(panics, s, steps)
    decreases |steps|
  {
    if steps == [] then s else After(panics, Do(panics, s, steps[0]), steps[1..])
  }

  predicate Holds(r: Request) {
    r.Locked? || r.Built? || r.Stored? || r.Panicked?
  }

  /** A request in the critical section is the holder, and every snapshot it carries is for its policy. */
  predicate Fits(s: State, id: nat, r: Request) {
    && (Holds(r) ==> s.holder == Some(id))
    && (r.Built? ==> r.made.policy == r.policy)
    && (r.Stored? ==> r.kept.policy == r.policy)
    && (r.Served? ==> r.snapshot.policy == r.policy)
  }

  predicate Inv(s: State) {
    && (s.holder.Some? ==> s.holder.value in s.requests && Holds(s.requests[s.holder.value]))
    && forall id :: id in s.requests ==> Fits(s, id, s.requests[id])
  }

  lemma {:induction false} StepKeepsInv(panics: Policy -> bool, s: State, step: Step)
    requires Inv(s) && Enabled(s, step)
    ensures Inv(Do(panics, s, step))
  {
    var t := Do(panics, s, step);
    forall id | id in t.requests
      ensures Fits(t, id, t.requests[id])
    {
      if id in s.requests {
        assert Fits(s, id, s.requests[id]);
      }
      if step.id in s.requests {
        assert Fits(s, step.id, s.requests[step.id]);
      }
    }
  }

  lemma {:induction false} RunKeepsInv(panics: Policy -> bool, s: State, steps: seq<Step>)
    requires Inv(s) && Possible(panics, s, steps)
    ensures Inv(After(panics, s, steps))
    decreases |steps|
  {
    if steps != [] {
      StepKeepsInv(panics, s, steps[0]);
      RunKeepsInv(panics, Do(panics, s, steps[0]), steps[1..]);
    }
  }

  /** A request keeps the policy it resolved. */
  lemma {:induction false} RequestsKeepPolicy(panics: Policy -> bool, s: State, steps: seq<Step>, id: nat)
    requires Possible(panics, s, steps) && id in s.requests
    ensures id in After(panics, s, steps).requests && After(panics, s,
          steps).requests[id].policy == s.requests[id].policy
    decreases |steps|
  {
    if steps != [] {
      RequestsKeepPolicy(panics, Do(panics, s, steps[0]), steps[1..], id);
    }
  }

  lemma {:induction false} RunRemembers(panics: Policy -> bool, s: State, steps: seq<Step>, i: nat)
    requires Possible(panics, s, steps) && i < |steps| && steps[i].Resolve?
    ensures steps[i].id in After(panics, s, steps).requests
    ensures After(panics, s, steps).requests[steps[i].id].policy == steps[i].policy
    decreases |steps|
  {
    if i == 0 {
      RequestsKeepPolicy(panics, Do(panics, s, steps[0]), steps[1..], steps[0].id);
    } else {
      RunRemembers(panics, Do(panics, s, steps[0]), steps[1..], i - 1);
    }
  }

  /** In every interleaving, a request is served by a handler built from the very policy it resolved. */
  lemma {:induction false} ServedByOwnPolicy(panics: Policy -> bool, steps: seq<Step>, i: nat)
    requires Possible(panics, INITIAL, steps) && i < |steps| && steps[i].Resolve?
    ensures steps[i].id in After(panics, INITIAL, steps).requests
    ensures var r := After(panics, INITIAL, steps).requests[steps[i].id];
            r.Served? ==> r.snapshot.policy == steps[i].policy
  {
    RunKeepsInv(panics, INITIAL, steps);
    RunRemembers(panics, INITIAL, steps, i);
    var s := After(panics, INITIAL, steps);
    assert Fits(s, steps[i].id, s.requests[steps[i].id]);
  }

  predicate AllResolve(steps: seq<Step>, p: Policy) {
    forall i :: 0 <= i < |steps| && steps[i].Resolve? ==> steps[i].policy == p
  }

  /** The holder has built a snapshot that is not yet active. */
  predicate Pending(s: State) {
    s.holder.Some? && s.holder.value in s.requests && s.requests[s.holder.value].Built?
  }

  predicate BuiltOnce(s: State, p: Policy) {
    && s.builds == (if s.active.Some? || Pending(s) then 1 else 0)
    && (s.active.Some? ==> s.active.value.policy == p && !Pending(s))
    && forall id :: id in s.requests ==>
         s.requests[id].policy == p
         && (s.requests[id].Served? || s.requests[id].Stored? ==> s.active.Some?)
  }

  lemma {:induction false} StepBuildsOnce(panics: Policy -> bool, s: State, step: Step, p: Policy)
    requires Inv(s) && BuiltOnce(s, p) && Enabled(s, step) && (step.Resolve? ==> step.policy == p)
    ensures BuiltOnce(Do(panics, s, step), p)
  {
    var t := Do(panics, s, step);
    if step.id in s.requests {
      assert Fits(s, step.id, s.requests[step.id]);
    }
    if s.holder.Some? && s.holder.value in s.requests {
      assert Fits(s, s.holder.value, s.requests[s.holder.value]);
    }
  }

  lemma {:induction false} RunBuildsOnce(panics: Policy -> bool, s: State, steps: seq<Step>, p: Policy)
    requires Inv(s) && BuiltOnce(s, p) && Possible(panics, s, steps) && AllResolve(steps, p)
    ensures BuiltOnce(After(panics, s, steps), p)
    decreases |steps|
  {
    if steps != [] {
      StepBuildsOnce(panics, s, steps[0], p);
      StepKeepsInv(panics, s, steps[0]);
      RunBuildsOnce(panics, Do(panics, s, steps[0]), steps[1..], p);
    }
  }

  /** If all requests resolve one policy, one build serves the whole run. */
  lemma {:induction false} OnePolicyOneBuild(panics: Policy -> bool, steps: seq<Step>, p: Policy)
    requires Possible(panics, INITIAL, steps) && AllResolve(steps, p)
    ensures After(panics, INITIAL, steps).builds <= 1
    ensures
      var s := After(panics, INITIAL, steps);
      forall id :: id in s.requests && s.requests[id].Served? ==> s.builds == 1
  {
    RunBuildsOnce(panics, INITIAL, steps, p);
  }
}
