/** What holds in every interleaving of dispatch, probes, panics, cancellation and receipt. */
module ReadinessSafety {
  import opened Types
  import opened Readiness

  predicate DidSend(p: Phase) {
    (p.Exiting? || p.Finished?) && p.sent
  }

  function Sends(p: Phase): nat {
    if DidSend(p) then 1 else 0
  }

  function Missing(received: bool): nat {
    if received then 0 else 1
  }

  /** Probes are handed over in order, and only to the dispatcher's position. */
  predicate InOrder(c: Setup, s: State) {
    && (s.dispatcher.Handing? ==> s.handed < |c.deps|)
    && (s.dispatcher.Stopped? ==> s.handed == |c.deps| || s.cancelled)
    && forall i :: 0 <= i < |s.phases| ==> (s.phases[i].Waiting? <==> i >= s.handed)
  }

  /** A probe has left without sending only if it panicked, and has sent only if it did not. */
  predicate Honest(c: Setup, s: State) {
    forall i :: 0 <= i < |s.phases| && i < |c.deps| && (s.phases[i].Exiting? || s.phases[i].Finished?) ==>
      (s.phases[i].sent <==> !c.deps[i].behaviour.Panics?)
  }

  /** `sent` lists, without repetition, exactly the probes that have sent. */
  predicate SentOnce(c: Setup, s: State) {
    && |s.sent| == Sum(Sends, s.phases)
    && Distinct(s.sent)
    && (forall k :: 0 <= k < |s.sent| ==> s.sent[k] < |s.phases| && DidSend(s.phases[s.sent[k]]))
    && forall i :: 0 <= i < |s.phases| && DidSend(s.phases[i]) ==> i in s.sent
  }

  /** The channel holds the outcomes last sent, each the result of its own probe. */
  predicate InChannel(c: Setup, s: State) {
    && |s.queue| <= |s.sent|
    && forall k :: 0 <= k < |s.queue| ==> IsOutcome(c, s.queue[k], s.sent[|s.sent| - |s.queue| + k])
  }

  predicate IsOutcome(c: Setup, o: Outcome, i: nat) {
    && o.index == i < |c.deps|
    && !c.deps[i].behaviour.Panics?
    && (o.result, o.aggregate) == ApplyCheck(c.deps[i].behaviour, c.deps[i].optional)
  }

  function Taken(s: State): seq<nat> {
    if |s.queue| <= |s.sent| then s.sent[..|s.sent| - |s.queue|] else []
  }

  /** The receiver has marked exactly what it took from the channel. */
  predicate Marked(c: Setup, s: State) {
    && (forall i :: 0 <= i < |s.received| && s.received[i] ==> i in Taken(s))
    && forall k :: 0 <= k < |Taken(s)| ==> Taken(s)[k] < |s.received| && s.received[Taken(s)[k]]
  }

  /** Every slot holds its probe's result, or the stand-in written on cancellation. */
  predicate Filled(c: Setup, s: State) {
    && |s.results| == |s.aggregates| == |s.received| == |c.deps|
    && forall i :: 0 <= i < |s.received| ==> FilledAt(c, s, i)
  }

  predicate FilledAt(c: Setup, s: State, i: nat)
    requires i < |s.results| == |s.aggregates| == |s.received| == |c.deps|
  {
    if s.received[i] then
      !c.deps[i].behaviour.Panics?
      && (s.results[i], s.aggregates[i]) == ApplyCheck(c.deps[i].behaviour, c.deps[i].optional)
    else
      s.abandoned ==> s.results[i] == CheckResult(Down, ContextEnded) && s.aggregates[i] == c.deps[i].optional
  }

  predicate Counted(c: Setup, s: State) {
    if s.abandoned then s.pending == 0 && s.cancelled else s.pending == Sum(Missing, s.received)
  }

  predicate FewLate(c: Setup, s: State) {
    && s.late <= 1
    && (!s.cancelled || s.dispatcher.Handing? ==> s.late == 0)
  }

  predicate Inv(c: Setup, s: State) {
    && Sized(c, s)
    && InOrder(c, s)
    && Honest(c, s)
    && InFlight(s) <= c.limit
    && SentOnce(c, s)
    && InChannel(c, s)
    && Marked(c, s)
    && Filled(c, s)
    && Counted(c, s)
    && FewLate(c, s)
  }

  lemma {:induction false} InitialInv(c: Setup)
    ensures Inv(c, Initial(c))
  {
    var s := Initial(c);
    SumZero(HoldsSlot, s.phases);
    SumZero(Sends, s.phases);
    AllMissing(|c.deps|);
  }

  lemma {:induction false} AllMissing(n: nat)
    ensures Sum(Missing, seq(n, _ => false)) == n
  {
    if n > 0 {
      assert seq(n, _ => false)[..n - 1] == seq(n - 1, _ => false);
      AllMissing(n - 1);
    }
  }

  lemma {:induction false} StepKeepsOrder(c: Setup, s: State, step: Step)
    requires InOrder(c, s) && Honest(c, s) && FewLate(c, s) && Enabled(c, s, step)
    ensures Sized(c, Do(c, s, step)) && InOrder(c, Do(c, s, step))
  {
  }

  lemma {:induction false} StepKeepsHonest(c: Setup, s: State, step: Step)
    requires InOrder(c, s) && Honest(c, s) && FewLate(c, s) && Enabled(c, s, step)
    ensures Honest(c, Do(c, s, step)) && FewLate(c, Do(c, s, step))
  {
  }

  lemma {:induction false} StepKeepsLimit(c: Setup, s: State, step: Step)
    requires InOrder(c, s) && InFlight(s) <= c.limit && Enabled(c, s, step)
    ensures InFlight(Do(c, s, step)) <= c.limit
  {
    match step {
      case Hand => SumUpdate(HoldsSlot, s.phases, s.handed, Probing);
      case Send(i) => SumUpdate(HoldsSlot, s.phases, i, Exiting(true));
      case Panic(i) => SumUpdate(HoldsSlot, s.phases, i, Exiting(false));
      case Release(i) => SumUpdate(HoldsSlot, s.phases, i, Finished(s.phases[i].sent));
      case _ =>
    }
  }

  lemma {:induction false} StepKeepsSentOnce(c: Setup, s: State, step: Step)
    requires InOrder(c, s) && SentOnce(c, s) && Enabled(c, s, step)
    ensures SentOnce(c, Do(c, s, step))
  {
    var t := Do(c, s, step);
    match step {
      case Hand => QuietPhase(c, s, t, s.handed, Probing);
      case Send(i) => SendKeepsSentOnce(c, s, i);
      case Panic(i) => QuietPhase(c, s, t, i, Exiting(false));
      case Release(i) => QuietPhase(c, s, t, i, Finished(s.phases[i].sent));
      case _ =>
    }
  }

  lemma {:induction false} QuietPhase(c: Setup, s: State, t: State, i: nat, p: Phase)
    requires SentOnce(c, s) && i < |s.phases|
    requires t.phases == s.phases[i := p] && t.sent == s.sent && DidSend(p) == DidSend(s.phases[i])
    ensures SentOnce(c, t)
  {
    SumUpdate(Sends, s.phases, i, p);
  }

  lemma {:induction false} SendKeepsSentOnce(c: Setup, s: State, i: nat)
    requires SentOnce(c, s) && Enabled(c, s, Send(i))
    ensures SentOnce(c, Do(c, s, Send(i)))
  {
    var t := Do(c, s, Send(i));
    SumUpdate(Sends, s.phases, i, Exiting(true));
    forall j | 0 <= j < |t.phases| && DidSend(t.phases[j])
      ensures j in t.sent
    {
      assert t.sent[|s.sent|] == i;
      if j != i {
        assert j in s.sent;
      }
    }
  }

  lemma {:induction false} StepKeepsChannel(c: Setup, s: State, step: Step)
    requires InChannel(c, s) && Enabled(c, s, step)
    ensures InChannel(c, Do(c, s, step))
  {
    if step.Send? {
      SendKeepsChannel(c, s, step.i);
    } else if step.Receive? {
      ReceiveKeepsChannel(c, s);
    }
  }

  lemma {:induction false} SendKeepsChannel(c: Setup, s: State, i: nat)
    requires InChannel(c, s) && Enabled(c, s, Send(i))
    ensures InChannel(c, Do(c, s, Send(i)))
  {
    var t := Do(c, s, Send(i));
    forall k | 0 <= k < |t.queue|
      ensures IsOutcome(c, t.queue[k], t.sent[|t.sent| - |t.queue| + k])
    {
      if k < |s.queue| {
        assert IsOutcome(c, s.queue[k], s.sent[|s.sent| - |s.queue| + k]);
      }
    }
  }

  lemma {:induction false} ReceiveKeepsChannel(c: Setup, s: State)
    requires InChannel(c, s) && Enabled(c, s, Receive)
    ensures InChannel(c, Do(c, s, Receive))
  {
    var t := Do(c, s, Receive);
    forall k | 0 <= k < |t.queue|
      ensures IsOutcome(c, t.queue[k], t.sent[|t.sent| - |t.queue| + k])
    {
      assert IsOutcome(c, s.queue[k + 1], s.sent[|s.sent| - |s.queue| + (k + 1)]);
    }
  }

  lemma {:induction false} StepKeepsMarked(c: Setup, s: State, step: Step)
    requires InChannel(c, s) && Marked(c, s) && Enabled(c, s, step)
    ensures Marked(c, Do(c, s, step))
  {
    var t := Do(c, s, step);
    if step.Receive? {
      ReceiveKeepsMarked(c, s);
    } else {
      assert Taken(t) == Taken(s);
    }
  }

  lemma {:induction false} ReceiveKeepsMarked(c: Setup, s: State)
    requires InChannel(c, s) && Marked(c, s) && Enabled(c, s, Receive)
    ensures Marked(c, Do(c, s, Receive))
  {
    var t, i := Do(c, s, Receive), s.queue[0].index;
    assert IsOutcome(c, s.queue[0], s.sent[|s.sent| - |s.queue| + 0]);
    assert Taken(t) == Taken(s) + [i];
    MarkOneMore(Taken(s), s.received, i, t.received);
  }

  lemma {:induction false} MarkOneMore(taken: seq<nat>, before: seq<bool>, i: nat, after: seq<bool>)
    requires forall k :: 0 <= k < |before| && before[k] ==> k in taken
    requires forall k :: 0 <= k < |taken| ==> taken[k] < |before| && before[taken[k]]
    requires i < |before| && after == before[i := true]
    ensures forall k :: 0 <= k < |after| && after[k] ==> k in taken + [i]
    ensures forall k :: 0 <= k < |taken + [i]| ==> (taken + [i])[k] < |after| && after[(taken + [i])[k]]
  {
    assert (taken + [i])[|taken|] == i;
  }

  lemma {:induction false} StepKeepsFilled(c: Setup, s: State, step: Step)
    requires InChannel(c, s) && Filled(c, s) && Counted(c, s) && Enabled(c, s, step)
    ensures Filled(c, Do(c, s, step))
  {
    var t := Do(c, s, step);
    if step.Receive? {
      assert IsOutcome(c, s.queue[0], s.sent[|s.sent| - |s.queue| + 0]);
    }
    forall i | 0 <= i < |t.received|
      ensures FilledAt(c, t, i)
    {
      assert FilledAt(c, s, i);
    }
  }

  lemma {:induction false} StepKeepsCounted(c: Setup, s: State, step: Step)
    requires Counted(c, s) && Enabled(c, s, step)
    ensures Counted(c, Do(c, s, step))
  {
    if step.Receive? {
      SumUpdate(Missing, s.received, s.queue[0].index, true);
    }
  }

  lemma {:induction false} StepKeepsInv(c: Setup, s: State, step: Step)
    requires Inv(c, s) && Enabled(c, s, step)
    ensures Inv(c, Do(c, s, step))
  {
    StepKeepsOrder(c, s, step);
    StepKeepsHonest(c, s, step);
    StepKeepsLimit(c, s, step);
    StepKeepsSentOnce(c, s, step);
    StepKeepsChannel(c, s, step);
    StepKeepsMarked(c, s, step);
    StepKeepsFilled(c, s, step);
    StepKeepsCounted(c, s, step);
  }

  lemma {:induction false} RunKeepsInv(c: Setup, s: State, steps: seq<Step>)
    requires Inv(c, s) && Possible(c, s, steps)
    ensures Inv(c, After(c, s, steps))
    decreases |steps|
  {
    if steps != [] {
      StepKeepsInv(c, s, steps[0]);
      RunKeepsInv(c, Do(c, s, steps[0]), steps[1..]);
    }
  }
}
