/**
 * Telemetry start-up with a deadline: an initialiser goroutine, a one-slot channel, a caller that waits
 * for the result or its timer, and a late cleanup that waits for the result or a timer of its own.
 */
module Telemetry {
  import opened Types

  /** What the initialiser does; only the first creates an instance. */
  datatype Attempt = Creates | YieldsNil | Panics

  predicate Makes(a: Attempt) {
    a.Creates?
  }

  /** The initialiser runs, holds its result and is about to send it, or has sent it or let it go. */
  datatype Initialiser = Running | Sending(attempt: Attempt) | Sent(attempt: Attempt) | Dropped(attempt: Attempt)

  /**
   * The caller waits, has returned the result it received, or has returned what the initialisation of a
   * disabled instance gave it instead, which may be nil.
   */
  datatype Caller = Waiting | Returned(attempt: Attempt) | TimedOut(fallback: bool)

  datatype Cleanup = NotStarted | Listening | Drained | Expired

  datatype State = State(
    initialiser: Initialiser, slot: Option<Attempt>, caller: Caller, cleanup: Cleanup, shutdowns: nat)

  datatype Step = Finish(attempt: Attempt) | Send | Receive | TimeOut(fallback: bool) | Drain | Expire

  const INITIAL := State(Running, None, Waiting, NotStarted, 0)

  predicate Enabled(s: State, step: Step) {
    match step
    case Finish(_) => s.initialiser.Running?
    case Send => s.initialiser.Sending?
    case Receive => s.caller.Waiting? && s.slot.Some?
    case TimeOut(_) => s.caller.Waiting?
    case Drain => s.cleanup.Listening? && s.slot.Some?
    case Expire => s.cleanup.Listening?
  }

  function Shut(s: State, a: Attempt): nat {
    s.shutdowns + if Makes(a) then 1 else 0
  }

  function Do(s: State, step: Step): State
    requires Enabled(s, step)
  {
    match step
    case Finish(attempt) => s.(initialiser := Sending(attempt))
    case Send =>
      var a := s.initialiser.attempt;
      if s.slot.None? then s.(initialiser := Sent(a), slot := Some(a))
      else s.(initialiser := Dropped(a), shutdowns := Shut(s, a))
    case Receive => s.(caller := Returned(s.slot.value), slot := None)
    case TimeOut(fallback) => s.(caller := TimedOut(fallback), cleanup := Listening)
    case Drain => s.(cleanup := Drained, slot := None, shutdowns := Shut(s, s.slot.value))
    case Expire => s.(cleanup := Expired)
  }

  predicate Possible(s: State, steps: seq<Step>)
    decreases |steps|
  {
    steps != [] ==> Enabled(s, steps[0]) && Possible(Do(s, steps[0]), steps[1..])
  }

  function After(s: State, steps: seq<Step>): State
    requires Possible(s, steps)
    decreases |steps|
  {
    if steps == [] then s else After(Do(s, steps[0]), steps[1..])
  }

  /** Nobody is waiting any more. */
  predicate Over(s: State) {
    (s.initialiser.Sent? || s.initialiser.Dropped?) && !s.caller.Waiting? && !s.cleanup.Listening?
  }

  function Made(s: State): nat {
    if !s.initialiser.Running? && Makes(s.initialiser.attempt) then 1 else 0
  }

  function WithInitialiser(s: State): nat {
    if s.initialiser.Sending? && Makes(s.initialiser.attempt) then 1 else 0
  }

  function InSlot(s: State): nat {
    if s.slot.Some? && Makes(s.slot.value) then 1 else 0
  }

  function WithCaller(s: State): nat {
    if s.caller.Returned? && Makes(s.caller.attempt) then 1 else 0
  }

  /** An instance is in one place, results come from the initialiser, and the slot is free before its send. */
  predicate Inv(s: State) {
    && WithInitialiser(s) + InSlot(s) + WithCaller(s) + s.shutdowns == Made(s)
    && (s.slot.Some? ==> s.initialiser == Sent(s.slot.value))
    && (s.caller.Returned? ==> s.initialiser == Sent(s.caller.attempt) && s.slot.None?)
    && (s.cleanup.NotStarted? <==> !s.caller.TimedOut?)
    && (s.cleanup.Drained? ==> s.initialiser.Sent? && s.slot.None?)
    && !s.initialiser.Dropped?
  }

  lemma {:induction false} StepKeepsInv(s: State, step: Step)
    requires Inv(s) && Enabled(s, step)
    ensures Inv(Do(s, step))
  {
    match step
    case Send => assert s.slot.None?;
    case _ =>
  }

  lemma {:induction false} RunKeepsInv(s: State, steps: seq<Step>)
    requires Inv(s) && Possible(s, steps)
    ensures Inv(After(s, steps))
    decreases |steps|
  {
    if steps != [] {
      StepKeepsInv(s, steps[0]);
      RunKeepsInv(Do(s, steps[0]), steps[1..]);
    }
  }

  /** The non-blocking send always finds the slot free. */
  lemma {:induction false} SendNeverDrops(steps: seq<Step>)
    requires Possible(INITIAL, steps)
    ensures !After(INITIAL, steps).initialiser.Dropped?
    ensures After(INITIAL, steps).initialiser.Sending? ==> After(INITIAL, steps).slot.None?
  {
    RunKeepsInv(INITIAL, steps);
  }

  /** Each result reaches one receiver: nothing that was put in the slot is lost or handed out twice. */
  predicate Delivered(s: State) {
    s.initialiser.Sent? ==> s.slot.Some? || s.caller.Returned? || s.cleanup.Drained?
  }

  lemma {:induction false} RunDelivers(s: State, steps: seq<Step>)
    requires Inv(s) && Delivered(s) && Possible(s, steps)
    ensures Delivered(After(s, steps))
    decreases |steps|
  {
    if steps != [] {
      StepKeepsInv(s, steps[0]);
      RunDelivers(Do(s, steps[0]), steps[1..]);
    }
  }

  /**
   * In every run that is over, an instance that was created is in exactly one place: returned to the
   * caller, shut down once, or left in the slot, and the last only after the cleanup timer fired.
   */
  lemma {:induction false} InstanceIsInOnePlace(steps: seq<Step>)
    requires Possible(INITIAL, steps) && Over(After(INITIAL, steps))
    ensures var s := After(INITIAL, steps);
            && WithCaller(s) + s.shutdowns + InSlot(s) == Made(s)
            && (s.slot.Some? <==> s.cleanup.Expired?)
            && (s.shutdowns == Made(s) == 1 ==> s.cleanup.Drained?)
  {
    RunKeepsInv(INITIAL, steps);
    RunDelivers(INITIAL, steps);
  }

  predicate ReturnsNil(s: State) {
    || (s.caller.Returned? && !Makes(s.caller.attempt))
    || (s.caller.TimedOut? && !s.caller.fallback)
  }

  /**
   * A caller gets nil exactly when it is answered in time and the initialiser yields nil or panics, or when
   * it is not and the disabled instance cannot be made either.
   */
  lemma {:induction false} NilExactlyWithoutInstance(steps: seq<Step>)
    requires Possible(INITIAL, steps) && !After(INITIAL, steps).caller.Waiting?
    ensures
      var s := After(INITIAL, steps);
      ReturnsNil(s) <==>
        if TimeOut(true) in steps then false
        else TimeOut(false) in steps || s.initialiser == Sent(YieldsNil) || s.initialiser == Sent(Panics)
  {
    RunKeepsInv(INITIAL, steps);
    TimesOutOnce(INITIAL, steps);
  }

  /** The step that timed out is the one the caller's state tells of. */
  lemma {:induction false} TimesOutOnce(s: State, steps: seq<Step>)
    requires Possible(s, steps)
    ensures
      var c := After(s, steps).caller;
      && (!s.caller.Waiting? ==> c == s.caller && forall b :: TimeOut(b) !in steps)
      && (s.caller.Waiting? ==> forall b :: TimeOut(b) in steps <==> c == TimedOut(b))
    decreases |steps|
  {
    if steps != [] {
      TimesOutOnce(Do(s, steps[0]), steps[1..]);
      assert steps == [steps[0]] + steps[1..];
    }
  }

  function Left(s: State): nat {
    (match s.initialiser case Running => 2 case Sending(_) => 1 case _ => 0)
    + (if s.caller.Waiting? then 2 else 0)
    + (if s.cleanup.Listening? then 1 else 0)
  }

  /** Every run can go on until it is over, and is over after at most four steps. */
  lemma {:induction false} RunsEnd(steps: seq<Step>)
    requires Possible(INITIAL, steps)
    ensures |steps| <= 4
    ensures Over(After(INITIAL, steps)) || exists step: Step :: Enabled(After(INITIAL, steps), step)
  {
    StepsUseUp(INITIAL, steps);
    RunKeepsInv(INITIAL, steps);
    var s := After(INITIAL, steps);
    assert Enabled(s, Finish(Creates)) || Enabled(s, Send) || Enabled(s, TimeOut(true)) || Enabled(s, Expire)
       || Over(s);
  }

  lemma {:induction false} StepsUseUp(s: State, steps: seq<Step>)
    requires Possible(s, steps) && (s.cleanup.NotStarted? || !s.caller.Waiting?)
    ensures |steps| <= Left(s)
    decreases |steps|
  {
    if steps != [] {
      StepsUseUp(Do(s, steps[0]), steps[1..]);
    }
  }

  /**
   * Whatever the initialiser does, it may be answered in time, and a late result may be drained, which shuts
   * an instance down, or left in the slot.
   */
  lemma {:induction false} EveryEndIsReachable(a: Attempt, fallback: bool)
    ensures
      var steps := [Finish(a), Send, Receive];
      Possible(INITIAL, steps) && After(INITIAL, steps) == State(Sent(a), None, Returned(a), NotStarted, 0)
    ensures
      var steps := [TimeOut(fallback), Finish(a), Send, Drain];
      && Possible(INITIAL, steps)
      && After(INITIAL, steps) == State(Sent(a), None, TimedOut(fallback), Drained, if a.Creates? then 1 else 0)
    ensures
      var steps := [TimeOut(fallback), Finish(a), Send, Expire];
      && Possible(INITIAL, steps)
      && After(INITIAL, steps) == State(Sent(a), Some(a), TimedOut(fallback), Expired, 0)
  {
    InTime(a);
    Late(a, fallback, Drain);
    Late(a, fallback, Expire);
  }

  lemma {:induction false} InTime(a: Attempt)
    ensures
      var steps := [Finish(a), Send, Receive];
      Possible(INITIAL, steps) && After(INITIAL, steps) == State(Sent(a), None, Returned(a), NotStarted, 0)
  {
    var s := Do(Do(INITIAL, Finish(a)), Send);
    assert Possible(s, [Receive]) && After(s, [Receive]) == Do(s, Receive);
    Two(INITIAL, Finish(a), Send, [Receive]);
  }

  lemma {:induction false} Late(a: Attempt, fallback: bool, last: Step)
    requires last.Drain? || last.Expire?
    ensures
      var steps := [TimeOut(fallback), Finish(a), Send, last];
      var s := State(Sent(a), Some(a), TimedOut(fallback), Listening, 0);
      Possible(INITIAL, steps) && Enabled(s, last) && After(INITIAL, steps) == Do(s, last)
  {
    var s1 := Do(INITIAL, TimeOut(fallback));
    var s := Do(Do(s1, Finish(a)), Send);
    assert Possible(s, [last]) && After(s, [last]) == Do(s, last);
    Two(s1, Finish(a), Send, [last]);
    var steps := [TimeOut(fallback), Finish(a), Send, last];
    assert steps[1..] == [Finish(a), Send] + [last];
  }

  lemma {:induction false} Two(s: State, a: Step, b: Step, rest: seq<Step>)
    requires Enabled(s, a) && Enabled(Do(s, a), b) && Possible(Do(Do(s, a), b), rest)
    ensures Possible(s, [a, b] + rest) && After(s, [a, b] + rest) == After(Do(Do(s, a), b), rest)
  {
    assert ([a, b] + rest)[1..] == [b] + rest && ([b] + rest)[1..] == rest;
  }
}
