/** The verdict of the readiness probe, in every run. */
module ReadinessVerdict {
  import opened Types
  import opened Readiness
  import opened ReadinessSafety

  const STATUS_OK := 200
  const STATUS_UNAVAILABLE := 503

  ghost predicate Reached(c: Setup, steps: seq<Step>, s: State) {
    Possible(c, Initial(c), steps) && s == After(c, Initial(c), steps)
  }

  lemma {:induction false} ReachedInv(c: Setup, steps: seq<Step>, s: State)
    requires Reached(c, steps, s)
    ensures Inv(c, s)
  {
    InitialInv(c);
    RunKeepsInv(c, Initial(c), steps);
  }

  /** The probes that have been handed over and have not finished. */
  function Unfinished(phases: seq<Phase>): set<nat> {
    set i: nat | i < |phases| && !phases[i].Waiting? && !phases[i].Finished?
  }

  lemma {:induction false} UnfinishedHoldSlots(phases: seq<Phase>)
    ensures |Unfinished(phases)| == Sum(HoldsSlot, phases)
  {
    if phases == [] {
      assert Unfinished(phases) == {};
    } else {
      var last := |phases| - 1;
      UnfinishedHoldSlots(phases[..last]);
      var more := if phases[last].Probing? || phases[last].Exiting? then {last} else {};
      assert Unfinished(phases) == Unfinished(phases[..last]) + more;
    }
  }

  /**
   * At most `limit` probes are in flight, no index is sent twice, at most one probe is handed
   * over after cancellation, and a probe that wants to send always finds room in the channel,
   * whether or not the evaluator has returned.
   */
  lemma {:induction false} ProbesAreBounded(c: Setup, steps: seq<Step>, s: State)
    requires Reached(c, steps, s)
    ensures |Unfinished(s.phases)| <= c.limit
    ensures Distinct(s.sent)
    ensures s.late <= 1
    ensures |s.phases| == |c.deps|
    ensures forall i :: 0 <= i < |c.deps| && s.phases[i].Probing? && !c.deps[i].behaviour.Panics? ==>
              Enabled(c, s, Send(i))
  {
    ReachedInv(c, steps, s);
    UnfinishedHoldSlots(s.phases);
    forall i | 0 <= i < |c.deps| && s.phases[i].Probing?
      ensures |s.queue| < |c.deps|
    {
      SumBelow(Sends, s.phases, i);
    }
  }

  /** At any moment before the evaluator returns, cancelling the request lets it return at once. */
  lemma {:induction false} CancellationReturns(c: Setup, steps: seq<Step>, s: State)
    requires Reached(c, steps, s) && s.pending > 0
    ensures
      var ending := if s.cancelled then [Abandon] else [Cancel, Abandon];
      && Possible(c, s, ending)
      && var t := After(c, s, ending);
         t.pending == 0 && t.abandoned && t.received == s.received
  {
    ReachedInv(c, steps, s);
    var t := if s.cancelled then s else Do(c, s, Cancel);
    assert Possible(c, t, [Abandon]) && After(c, t, [Abandon]) == Do(c, t, Abandon);
    assert [Cancel, Abandon][1..] == [Abandon];
  }

  /** The receiver never sees an index twice: its guard against that is never taken. */
  lemma {:induction false} NoOutcomeTwice(c: Setup, steps: seq<Step>, s: State)
    requires Reached(c, steps, s) && s.queue != []
    ensures s.queue[0].index < |s.received| && !s.received[s.queue[0].index]
  {
    ReachedInv(c, steps, s);
    var at := |s.sent| - |s.queue|;
    assert IsOutcome(c, s.queue[0], s.sent[at + 0]);
    assert s.sent[at] !in Taken(s);
  }

  /**
   * Once the evaluator has returned, it says healthy exactly when the success of every
   * dependency that is not optional was received.
   */
  lemma {:induction false} VerdictIsExact(c: Setup, steps: seq<Step>, s: State)
    requires Reached(c, steps, s) && s.pending == 0
    ensures Healthy(s) <==> forall i :: 0 <= i < |c.deps| ==> c.deps[i].optional || KnownUp(c, s, i)
  {
    ReachedInv(c, steps, s);
    AllKnown(c, s);
    forall i | 0 <= i < |c.deps|
      ensures s.aggregates[i] <==> (c.deps[i].optional || KnownUp(c, s, i))
    {
      assert FilledAt(c, s, i);
    }
  }

  /** Without abandoning, an evaluator that returns has received everything. */
  lemma {:induction false} AllKnown(c: Setup, s: State)
    requires Inv(c, s) && s.pending == 0
    ensures s.abandoned || forall i :: 0 <= i < |s.received| ==> s.received[i]
  {
    SumZero(Missing, s.received);
  }

  /** The report on a dependency: its status and its reason, each with the exact condition it stands for. */
  predicate Reports(d: Dependency, received: bool, r: CheckResult) {
    && (r.status.Up? <==> received && d.behaviour.Succeeds?)
    && (r.status.Skipped? <==> received && d.behaviour.Unresolved? && d.optional)
    && (r.status.Down? <==> !received || d.behaviour.Fails? || (d.behaviour.Unresolved? && !d.optional))
    && (r.reason.NoReason? <==> received && d.behaviour.Succeeds?)
    && (r.reason.NotConfigured? <==> received && d.behaviour.Unresolved?)
    && (r.reason.CheckFailed? <==> received && d.behaviour.Fails?)
    && (r.reason.ContextEnded? <==> !received)
  }

  /** Every dependency is reported, with the status and the reason of what was received. */
  lemma {:induction false} ReportIsComplete(c: Setup, steps: seq<Step>, s: State, i: nat)
    requires Reached(c, steps, s) && s.pending == 0 && i < |c.deps|
    ensures |s.results| == |s.received| == |c.deps| && !s.results[i].status.Blank?
    ensures Reports(c.deps[i], s.received[i], s.results[i])
    ensures s.received[i] ==> !c.deps[i].behaviour.Panics?
  {
    ReachedInv(c, steps, s);
    AllKnown(c, s);
    assert FilledAt(c, s, i);
  }

  /** The loop that turns the slots into the response. */
  method Respond(names: seq<string>, results: seq<CheckResult>, aggregates: seq<bool>)
    returns (status: int, checks: map<string, CheckResult>, healthy: bool)
    requires |names| == |results| == |aggregates|
    ensures healthy <==> forall i :: 0 <= i < |aggregates| ==> aggregates[i]
    ensures status == (if healthy then 200 else 503)
    ensures checks.Keys == set i | 0 <= i < |names| :: names[i]
    ensures Distinct(names) ==> |checks| == |names| && forall i :: 0 <= i < |names| ==> checks[names[i]] == results[i]
  {
    checks, healthy := map[], true;
    for k := 0 to |names|
      invariant healthy <==> forall i :: 0 <= i < k ==> aggregates[i]
      invariant checks.Keys == set i | 0 <= i < k :: names[i]
      invariant Distinct(names) ==> |checks| == k
      invariant Distinct(names) ==> forall i :: 0 <= i < k ==> checks[names[i]] == results[i]
    {
      if Distinct(names) {
        assert names[k] !in checks;
      }
      checks := checks[names[k] := results[k]];
      healthy := healthy && aggregates[k];
    }
    status := if healthy then STATUS_OK else STATUS_UNAVAILABLE;
  }

  /** After the evaluator has returned, nothing the probes still do changes its answer. */
  lemma {:induction false} VerdictIsFinal(c: Setup, s: State, steps: seq<Step>)
    requires s.pending == 0 && Possible(c, s, steps)
    ensures
      var t := After(c, s, steps);
      t.pending == 0 && t.results == s.results && t.aggregates == s.aggregates && t.received == s.received
    decreases |steps|
  {
    if steps != [] {
      VerdictIsFinal(c, Do(c, s, steps[0]), steps[1..]);
    }
  }

  /** Nothing is left to do but to cancel or to receive. */
  predicate Settled(c: Setup, s: State) {
    && s.dispatcher.Stopped?
    && s.queue == []
    && forall i :: 0 <= i < |s.phases| ==> !s.phases[i].Probing? && !s.phases[i].Exiting?
  }

  /**
   * Without cancellation, the probes whose outcome never arrives are exactly those that panic:
   * the evaluator then returns if and only if no probe panics.
   */
  lemma {:induction false} OnlyPanicsGoMissing(c: Setup, steps: seq<Step>, s: State)
    requires Reached(c, steps, s) && !s.cancelled && Settled(c, s)
    ensures |s.received| == |c.deps|
    ensures forall i :: 0 <= i < |c.deps| ==> (s.received[i] <==> !c.deps[i].behaviour.Panics?)
    ensures s.pending == 0 <==> forall i :: 0 <= i < |c.deps| ==> !c.deps[i].behaviour.Panics?
  {
    ReachedInv(c, steps, s);
    assert Taken(s) == s.sent;
    forall i | 0 <= i < |c.deps|
      ensures s.received[i] <==> !c.deps[i].behaviour.Panics?
    {
      assert s.phases[i].Finished?;
      assert DidSend(s.phases[i]) <==> i in s.sent;
    }
    SumZero(Missing, s.received);
  }

  /** A step of the dispatcher or of a probe that is possible, unless all is settled. */
  lemma {:induction false} SomethingCanHappen(c: Setup, steps: seq<Step>, s: State) returns (step: Step)
    requires Reached(c, steps, s) && c.limit > 0
    requires s.pending > 0 && !Settled(c, s)
    ensures !step.Cancel? && Enabled(c, s, step)
  {
    ReachedInv(c, steps, s);
    ProbesAreBounded(c, steps, s);
    if s.queue != [] {
      step := Receive;
    } else if i :| 0 <= i < |s.phases| && s.phases[i].Exiting? {
      step := Release(i);
    } else if i :| 0 <= i < |s.phases| && s.phases[i].Probing? {
      step := if c.deps[i].behaviour.Panics? then Panic(i) else Send(i);
    } else if s.dispatcher.Checking? {
      step := Check;
    } else {
      SumZero(HoldsSlot, s.phases);
      step := Hand;
    }
  }

  function Work(p: Phase): nat {
    match p
    case Waiting => 5
    case Probing => 3
    case Exiting(_) => 1
    case Finished(_) => 0
  }

  /** What the scheduler can still do, in steps. */
  function Remaining(s: State): nat {
    Sum(Work, s.phases) + |s.queue| + s.pending
    + (match s.dispatcher case Checking => 2 case Handing => 1 case Stopped => 0)
    + (if s.cancelled then 0 else 1)
  }

  lemma {:induction false} StepsRunOut(c: Setup, s: State, step: Step)
    requires InOrder(c, s) && Enabled(c, s, step)
    ensures Remaining(Do(c, s, step)) < Remaining(s)
  {
    match step {
      case Hand => SumUpdate(Work, s.phases, s.handed, Probing);
      case Send(i) => SumUpdate(Work, s.phases, i, Exiting(true));
      case Panic(i) => SumUpdate(Work, s.phases, i, Exiting(false));
      case Release(i) => SumUpdate(Work, s.phases, i, Finished(s.phases[i].sent));
      case _ =>
    }
  }

  /** Every run ends: it has at most `6 n + 3` steps. */
  lemma {:induction false} RunsEnd(c: Setup, steps: seq<Step>)
    requires Possible(c, Initial(c), steps)
    ensures |steps| <= 6 * |c.deps| + 3
  {
    InitialInv(c);
    RunsEndFrom(c, Initial(c), steps);
    AllWaiting(|c.deps|);
  }

  lemma {:induction false} RunsEndFrom(c: Setup, s: State, steps: seq<Step>)
    requires Inv(c, s) && Possible(c, s, steps)
    ensures |steps| <= Remaining(s)
    decreases |steps|
  {
    if steps != [] {
      StepKeepsInv(c, s, steps[0]);
      StepsRunOut(c, s, steps[0]);
      RunsEndFrom(c, Do(c, s, steps[0]), steps[1..]);
    }
  }

  lemma {:induction false} AllWaiting(n: nat)
    ensures Sum(Work, seq(n, _ => Waiting)) == 5 * n
  {
    if n > 0 {
      assert seq(n, _ => Waiting)[..n - 1] == seq(n - 1, _ => Waiting);
      AllWaiting(n - 1);
    }
  }
}
