/**
 * The readiness probe: a dispatcher hands one probe per dependency to a limited group, the
 * probes send their outcomes over a buffered channel, and a receiver collects them until all
 * have arrived or the request is cancelled. Any number of dependencies, any limit.
 */
module Readiness {
  import opened Types

  /** What a dependency's check would do. */
  datatype Behaviour = Unresolved | Succeeds | Fails | Panics

  datatype Dependency = Dependency(name: string, optional: bool, behaviour: Behaviour)

  /** `Blank` is the zero value of a result slot. */
  datatype Status = Blank | Up | Down | Skipped

  datatype Reason = NoReason | NotConfigured | CheckFailed | ContextEnded

  datatype CheckResult = CheckResult(status: Status, reason: Reason)

  datatype Outcome = Outcome(index: nat, result: CheckResult, aggregate: bool)

  const BLANK := CheckResult(Blank, NoReason)

  /** The result of a probe that does not panic, and whether it lets the service be ready. */
  function ApplyCheck(behaviour: Behaviour, optional: bool): (CheckResult, bool)
    requires !behaviour.Panics?
  {
    match behaviour
    case Unresolved =>
      if optional then (CheckResult(Skipped, NotConfigured), true) else (CheckResult(Down, NotConfigured), false)
    case Fails => (CheckResult(Down, CheckFailed), optional)
    case Succeeds => (CheckResult(Up, NoReason), true)
  }

  /** A probe goroutine; from Probing until Finished it holds one of the group's slots. */
  datatype Phase = Waiting | Probing | Exiting(sent: bool) | Finished(sent: bool)

  /** The dispatcher is about to look at the context, has looked and hands over a probe, or has returned. */
  datatype Dispatcher = Checking | Handing | Stopped

  datatype Setup = Setup(deps: seq<Dependency>, limit: nat)

  /** `sent` lists every index ever sent; `late` counts the probes handed over after cancellation. */
  datatype State = State(
    dispatcher: Dispatcher, handed: nat, phases: seq<Phase>, queue: seq<Outcome>, cancelled: bool,
    results: seq<CheckResult>, aggregates: seq<bool>, received: seq<bool>, pending: nat,
    sent: seq<nat>, late: nat, abandoned: bool)

  datatype Step = Check | Hand | Send(i: nat) | Panic(i: nat) | Release(i: nat) | Cancel | Receive | Abandon

  function Initial(c: Setup): State {
    var n := |c.deps|;
    State(Checking, 0, seq(n, _ => Waiting), [], false,
          seq(n, _ => BLANK), seq(n, _ => false), seq(n, _ => false), n, [], 0, false)
  }

  function HoldsSlot(p: Phase): nat {
    if p.Probing? || p.Exiting? then 1 else 0
  }

  function InFlight(s: State): nat {
    Sum(HoldsSlot, s.phases)
  }

  predicate Sized(c: Setup, s: State) {
    && |s.phases| == |s.results| == |s.aggregates| == |s.received| == |c.deps|
    && s.handed <= |c.deps|
    && forall k :: 0 <= k < |s.queue| ==> s.queue[k].index < |c.deps|
  }

  /** Which steps the scheduler may take; a send needs room in the channel. */
  predicate Enabled(c: Setup, s: State, step: Step) {
    && Sized(c, s)
    && match step
       case Check => s.dispatcher.Checking?
       case Hand => s.dispatcher.Handing? && s.handed < |c.deps| && InFlight(s) < c.limit
       case Send(i) => i < |c.deps| && s.phases[i].Probing? && !c.deps[i].behaviour.Panics? && |s.queue| < |c.deps|
       case Panic(i) => i < |c.deps| && s.phases[i].Probing? && c.deps[i].behaviour.Panics?
       case Release(i) => i < |c.deps| && s.phases[i].Exiting?
       case Cancel => !s.cancelled
       case Receive => s.pending > 0 && s.queue != []
       case Abandon => s.pending > 0 && s.cancelled
  }

  function Do(c: Setup, s: State, step: Step): State
    requires Enabled(c, s, step)
  {
    match step
    case Check =>
      s.(dispatcher := if s.handed == |c.deps| || s.cancelled then Stopped else Handing)
    case Hand =>
      s.(dispatcher := Checking, handed := s.handed + 1, phases := s.phases[s.handed := Probing],
         late := if s.cancelled then s.late + 1 else s.late)
    case Send(i) =>
      var (result, aggregate) := ApplyCheck(c.deps[i].behaviour, c.deps[i].optional);
      s.(phases := s.phases[i := Exiting(true)], queue := s.queue + [Outcome(i, result, aggregate)],
         sent := s.sent + [i])
    case Panic(i) => s.(phases := s.phases[i := Exiting(false)])
    case Release(i) => s.(phases := s.phases[i := Finished(s.phases[i].sent)])
    case Cancel => s.(cancelled := true)
    case Receive => Received(s, s.queue[0]).(queue := s.queue[1..])
    case Abandon => Abandoned(c, s)
  }

  function Received(s: State, o: Outcome): State
    requires o.index < |s.received| == |s.results| == |s.aggregates| && s.pending > 0
  {
    if s.received[o.index] then s
    else
      s.(results := s.results[o.index := o.result], aggregates := s.aggregates[o.index := o.aggregate],
         received := s.received[o.index := true], pending := s.pending - 1)
  }

  /** On cancellation, every dependency without an outcome is reported down. */
  function Abandoned(c: Setup, s: State): State
    requires Sized(c, s)
  {
    var n := |c.deps|;
    s.(results := seq(n, i requires 0 <= i < n => if s.received[i] then s.results[i] else CheckResult(Down,
          ContextEnded)),
       aggregates := seq(n, i requires 0 <= i < n => if s.received[i] then s.aggregates[i] else c.deps[i].optional),
       pending := 0, abandoned := true)
  }

  /** A run of the scheduler from a state. */
  predicate Possible(c: Setup, s: State, steps: seq<Step>)
    decreases |steps|
  {
    steps != [] ==> Enabled(c, s, steps[0]) && Possible(c, Do(c, s, steps[0]), steps[1..])
  }

  function After(c: Setup, s: State, steps: seq<Step>): State
    requires Possible(c, s, steps)
    decreases |steps|
  {
    if steps == [] then s else After(c, Do(c, s, steps[0]), steps[1..])
  }

  /** What the deciding loop over the slots computes. */
  predicate Healthy(s: State) {
    forall i :: 0 <= i < |s.aggregates| ==> s.aggregates[i]
  }

  /** The dependency's check succeeded and the receiver got to know. */
  predicate KnownUp(c: Setup, s: State, i: nat) {
    i < |c.deps| && i < |s.received| && s.received[i] && c.deps[i].behaviour.Succeeds?
  }
}
