/** When the CORS handler's lock is left held by a build that panicked, and who is served then. */
module CorsJams {
  import opened Types
  import opened CorsHandler

  /** The lock is held by a request whose build has panicked. */
  predicate Jammed(s: State) {
    s.holder.Some? && s.holder.value in s.requests && s.requests[s.holder.value].Panicked?
  }

  predicate Finished(r: Request) {
    r.Served? || r.Panicked?
  }

  /**
   * In every reachable state with a request that is not finished, some request can move if and only if
   * the lock is not jammed or a request has yet to look at the active snapshot.
   */
  lemma {:induction false} MovesExactly(panics: Policy -> bool, steps: seq<Step>, id: nat)
    requires Possible(panics, INITIAL, steps)
    requires id in After(panics, INITIAL, steps).requests && !Finished(After(panics, INITIAL, steps).requests[id])
    ensures
      var s := After(panics, INITIAL, steps);
      (exists step: Step :: !step.Resolve? && Enabled(s, step))
      <==> !Jammed(s) || exists i :: i in s.requests && s.requests[i].Resolved?
  {
    RunKeepsInv(panics, INITIAL, steps);
    var s := After(panics, INITIAL, steps);
    if !Jammed(s) {
      var mover := if s.holder.Some? then s.holder.value else id;
      assert Fits(s, mover, s.requests[mover]);
      assert Enabled(s, Load(mover)) || Enabled(s, Lock(mover)) || Enabled(s, Recheck(mover))
          || Enabled(s, Store(mover)) || Enabled(s, Unlock(mover));
    } else {
      JammedMoves(s);
    }
  }

  lemma {:induction false} JammedMoves(s: State)
    requires Inv(s) && Jammed(s)
    ensures forall step: Step :: !step.Resolve? && Enabled(s, step) ==> step.Load?
    ensures forall i :: i in s.requests && s.requests[i].Resolved? ==> Enabled(s, Load(i))
  {
    forall step: Step | !step.Resolve? && Enabled(s, step)
      ensures step.Load?
    {
      assert Fits(s, step.id, s.requests[step.id]);
    }
  }

  /** A jam is for good: the active snapshot stays as it is, and nothing is built any more. */
  lemma {:induction false} JamIsFinal(panics: Policy -> bool, s: State, steps: seq<Step>)
    requires Inv(s) && Jammed(s) && Possible(panics, s, steps)
    ensures Jammed(After(panics, s, steps)) && Inv(After(panics, s, steps))
    ensures After(panics, s, steps).active == s.active && After(panics, s, steps).builds == s.builds
    decreases |steps|
  {
    if steps != [] {
      JammedMoves(s);
      StepKeepsInv(panics, s, steps[0]);
      JamIsFinal(panics, Do(panics, s, steps[0]), steps[1..]);
    }
  }

  /**
   * After a jam a request that resolves its policy is served exactly when that is the policy of the
   * active snapshot: then its load serves it, and otherwise nothing ever does.
   */
  lemma {:induction false} ServedAfterJamExactly(panics: Policy -> bool, s: State, steps: seq<Step>, id: nat)
    requires Inv(s) && Jammed(s) && Possible(panics, s, steps) && id !in s.requests
    requires id in After(panics, s, steps).requests
    ensures
      var r := After(panics, s, steps).requests[id];
      && (r.Resolved? || r.Served? || r.Missed?)
      && (r.Served? ==> Matches(s.active, r.policy)) && (r.Missed? ==> !Matches(s.active, r.policy))
      && (r.Resolved? ==>
            var t := After(panics, s, steps);
            Enabled(t, Load(id)) && (Do(panics, t, Load(id)).requests[id].Served? <==> Matches(s.active, r.policy)))
  {
    JamIsFinal(panics, s, steps);
    LateRequests(panics, s, steps, s.requests.Keys, s.active);
  }

  /** Where the requests outside `before` may stand while the lock is jammed. */
  predicate Late(s: State, before: set<nat>, active: Option<Snapshot>) {
    forall id :: id in s.requests && id !in before ==>
      || s.requests[id].Resolved?
      || (s.requests[id].Served? && Matches(active, s.requests[id].policy))
      || (s.requests[id].Missed? && !Matches(active, s.requests[id].policy))
  }

  lemma {:induction false} LateRequests(
    panics: Policy -> bool, s: State, steps: seq<Step>, before: set<nat>, active: Option<Snapshot>)
    requires Inv(s) && Jammed(s) && Possible(panics, s, steps) && s.active == active && Late(s, before, active)
    ensures Late(After(panics, s, steps), before, active)
    decreases |steps|
  {
    if steps != [] {
      JammedMoves(s);
      StepKeepsInv(panics, s, steps[0]);
      LateRequests(panics, Do(panics, s, steps[0]), steps[1..], before, active);
    }
  }

  /** What was built or served has a policy that can be built; what panicked has one that cannot. */
  predicate Judged(panics: Policy -> bool, s: State) {
    && (s.active.Some? ==> !panics(s.active.value.policy))
    && forall id :: id in s.requests ==>
         && (s.requests[id].Built? || s.requests[id].Stored? || s.requests[id].Served? ==>
               !panics(s.requests[id].policy))
         && (s.requests[id].Panicked? ==> panics(s.requests[id].policy))
  }

  lemma {:induction false} StepKeepsJudged(panics: Policy -> bool, s: State, step: Step)
    requires Inv(s) && Judged(panics, s) && Enabled(s, step)
    ensures Judged(panics, Do(panics, s, step))
  {
    if step.id in s.requests {
      assert Fits(s, step.id, s.requests[step.id]);
    }
  }

  lemma {:induction false} RunKeepsJudged(panics: Policy -> bool, s: State, steps: seq<Step>)
    requires Inv(s) && Judged(panics, s) && Possible(panics, s, steps)
    ensures Inv(After(panics, s, steps)) && Judged(panics, After(panics, s, steps))
    decreases |steps|
  {
    if steps != [] {
      StepKeepsInv(panics, s, steps[0]);
      StepKeepsJudged(panics, s, steps[0]);
      RunKeepsJudged(panics, Do(panics, s, steps[0]), steps[1..]);
    }
  }

  predicate AllBuildable(panics: Policy -> bool, s: State) {
    forall id :: id in s.requests ==> !panics(s.requests[id].policy)
  }

  lemma {:induction false} RunKeepsBuildable(panics: Policy -> bool, s: State, steps: seq<Step>)
    requires AllBuildable(panics, s) && Possible(panics, s, steps)
    requires forall i :: 0 <= i < |steps| && steps[i].Resolve? ==> !panics(steps[i].policy)
    ensures AllBuildable(panics, After(panics, s, steps))
    decreases |steps|
  {
    if steps != [] {
      RunKeepsBuildable(panics, Do(panics, s, steps[0]), steps[1..]);
    }
  }

  /** A run whose requests all resolve policies that can be built never jams the lock. */
  lemma {:induction false} JamNeedsBadRequest(panics: Policy -> bool, steps: seq<Step>)
    requires Possible(panics, INITIAL, steps)
    requires forall i :: 0 <= i < |steps| && steps[i].Resolve? ==> !panics(steps[i].policy)
    ensures !Jammed(After(panics, INITIAL, steps))
  {
    RunKeepsJudged(panics, INITIAL, steps);
    RunKeepsBuildable(panics, INITIAL, steps);
  }

  /** Only new requests can change anything. */
  ghost predicate Settled(s: State) {
    forall step: Step :: Enabled(s, step) ==> step.Resolve?
  }

  /**
   * In every run that has come to rest, the lock is left held if and only if some request resolved a
   * policy that cannot be built.
   */
  lemma {:induction false} JamsExactly(panics: Policy -> bool, steps: seq<Step>)
    requires Possible(panics, INITIAL, steps) && Settled(After(panics, INITIAL, steps))
    ensures Jammed(After(panics, INITIAL, steps))
       <==> exists i :: 0 <= i < |steps| && steps[i].Resolve? && panics(steps[i].policy)
  {
    RunKeepsJudged(panics, INITIAL, steps);
    if exists i :: 0 <= i < |steps| && steps[i].Resolve? && panics(steps[i].policy) {
      var i :| 0 <= i < |steps| && steps[i].Resolve? && panics(steps[i].policy);
      RunRemembers(panics, INITIAL, steps, i);
      RestsJammed(panics, After(panics, INITIAL, steps), steps[i].id);
    } else {
      JamNeedsBadRequest(panics, steps);
    }
  }

  lemma {:induction false} RestsJammed(panics: Policy -> bool, s: State, id: nat)
    requires Inv(s) && Judged(panics, s) && Settled(s)
    requires id in s.requests && panics(s.requests[id].policy)
    ensures Jammed(s)
  {
    var mover := if s.holder.Some? then s.holder.value else id;
    assert Fits(s, id, s.requests[id]) && Fits(s, mover, s.requests[mover]);
    assert !Enabled(s, Load(mover)) && !Enabled(s, Lock(mover)) && !Enabled(s, Recheck(mover));
    assert !Enabled(s, Store(mover)) && !Enabled(s, Unlock(mover));
  }

  /** With one, the first request jams it before anything is active: no later request is ever served. */
  lemma {:induction false} BadPolicyJams(panics: Policy -> bool, p: Policy)
    requires panics(p)
    ensures
      var steps := [Resolve(0, p), Load(0), Lock(0), Recheck(0)];
      && Possible(panics, INITIAL, steps)
      && Jammed(After(panics, INITIAL, steps)) && After(panics, INITIAL, steps).active.None?
  {
    var s1 := Do(panics, INITIAL, Resolve(0, p));
    var s2 := Do(panics, s1, Load(0));
    var s3 := Do(panics, s2, Lock(0));
    var s4 := Do(panics, s3, Recheck(0));
    var steps := [Resolve(0, p), Load(0), Lock(0), Recheck(0)];
    assert steps[1..] == [Load(0), Lock(0), Recheck(0)];
    assert steps[1..][1..] == [Lock(0), Recheck(0)] && steps[1..][1..][1..] == [Recheck(0)];
    assert Possible(panics, s3, [Recheck(0)]) && After(panics, s3, [Recheck(0)]) == s4;
    assert Possible(panics, s2, [Lock(0), Recheck(0)]) && After(panics, s2, [Lock(0), Recheck(0)]) == s4;
  }
}
