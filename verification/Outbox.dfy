/**
 * Outbox handlers: errors as trees of wrapped and joined errors, the payload validators, the publish
 * handlers, and the classifier that decides whether an event is tried again.
 */
module Outbox {
  import opened Types

  datatype Sentinel =
    | InvalidPayload | MissingJobId | MissingContextId | MissingSourceId | MissingError | MissingMatchId
    | MissingMatchRunId | MissingMatchRuleId | MissingTransactionIds | MissingTenantId | EventRequired
    | PayloadTooLarge | PayloadNotJson | MissingEntityType | MissingEntityId | MissingAction | MissingReason
    | AuditPublisherNotConfigured | IngestionPublisherUnavailable | MatchPublisherUnavailable
    | StreamingEnvelope | StreamingPolicy | StreamingUnknownDefinition | StreamingInvalidDefinition
    | StreamingMissingTenant | StreamingInvalidTenant | StreamingNotJson | StreamingTooLarge
    | EventDisabled
    | Other(text: string)

  /** A node wraps one error or joins several. */
  datatype Error = Leaf(sentinel: Sentinel) | Node(children: seq<Error>)

  const PAYLOAD: seq<Sentinel> := [
    InvalidPayload, MissingJobId, MissingContextId, MissingSourceId, MissingError, MissingMatchId,
    MissingMatchRunId, MissingMatchRuleId, MissingTransactionIds, MissingTenantId]

  const DELIVERY: seq<Sentinel> := [
    EventRequired, PayloadTooLarge, PayloadNotJson, MissingEntityType, MissingEntityId, MissingAction, MissingReason,
    AuditPublisherNotConfigured, IngestionPublisherUnavailable, MatchPublisherUnavailable]

  /** The service's own permanent errors, in their order. */
  const MATCHER: seq<Sentinel> := PAYLOAD + DELIVERY

  const STREAMING: seq<Sentinel> := [
    StreamingEnvelope, StreamingPolicy, StreamingUnknownDefinition, StreamingInvalidDefinition,
    StreamingMissingTenant, StreamingInvalidTenant, StreamingNotJson, StreamingTooLarge]

  /** The sentinel is somewhere in the tree. */
  predicate Contains(e: Error, s: Sentinel) {
    match e
    case Leaf(t) => s == t
    case Node(children) => exists i :: 0 <= i < |children| && Contains(children[i], s)
  }

  /** The sentinels at the leaves of the tree. */
  function Leaves(e: Error): set<Sentinel> {
    match e
    case Leaf(t) => {t}
    case Node(children) => set i, s | 0 <= i < |children| && s in Leaves(children[i]) :: s
  }

  lemma {:induction false} ContainsIsLeaf(e: Error, s: Sentinel)
    ensures Contains(e, s) <==> s in Leaves(e)
  {
    if e.Node? {
      forall i | 0 <= i < |e.children|
        ensures Contains(e.children[i], s) <==> s in Leaves(e.children[i])
      {
        ContainsIsLeaf(e.children[i], s);
      }
    }
  }

  // ---- The classifier ----

  /** A caller-side error of the streaming library, which judges an error by its leaves. */
  predicate CallerError(caller: Sentinel -> bool, e: Error) {
    exists s :: s in Leaves(e) && caller(s)
  }

  /** The verdict, as a condition on the leaves only: nothing is disabled and some leaf is permanent. */
  predicate Permanent(caller: Sentinel -> bool, leaves: set<Sentinel>) {
    EventDisabled !in leaves && exists s :: s in leaves && (caller(s) || s in MATCHER || s in STREAMING)
  }

  method IsNonRetryable(caller: Sentinel -> bool, err: Option<Error>) returns (r: bool)
    ensures r <==> err.Some? && Permanent(caller, Leaves(err.value))
  {
    if err.None? {
      return false;
    }
    var e := err.value;
    forall s
      ensures Contains(e, s) <==> s in Leaves(e)
    {
      ContainsIsLeaf(e, s);
    }
    if Contains(e, EventDisabled) {
      return false;
    }
    if CallerError(caller, e) {
      return true;
    }
    for i := 0 to |MATCHER|
      invariant forall j :: 0 <= j < i ==> !Contains(e, MATCHER[j])
    {
      if Contains(e, MATCHER[i]) {
        return true;
      }
    }
    for i := 0 to |STREAMING|
      invariant forall j :: 0 <= j < i ==> !Contains(e, STREAMING[j])
    {
      if Contains(e, STREAMING[i]) {
        return true;
      }
    }
    return false;
  }

  predicate NonRetryable(caller: Sentinel -> bool, err: Option<Error>) {
    err.Some? && Permanent(caller, Leaves(err.value))
  }

  /** `part` is a subtree of `e`. */
  predicate Within(part: Error, e: Error) {
    part == e || (e.Node? && exists i :: 0 <= i < |e.children| && Within(part, e.children[i]))
  }

  lemma {:induction false} LeavesWithin(part: Error, e: Error)
    requires Within(part, e)
    ensures Leaves(part) <= Leaves(e)
  {
    if part != e {
      var i :| 0 <= i < |e.children| && Within(part, e.children[i]);
      LeavesWithin(part, e.children[i]);
    }
  }

  /** However deep a disabled event is wrapped or joined, the whole error is tried again. */
  lemma {:induction false} DisabledAnywhereIsRetryable(caller: Sentinel -> bool, part: Error, e: Error)
    requires Within(part, e) && Contains(part, EventDisabled)
    ensures !NonRetryable(caller, Some(e))
  {
    LeavesWithin(part, e);
    ContainsIsLeaf(part, EventDisabled);
  }

  /** Wrapping an error once more does not change its verdict. */
  lemma {:induction false} WrapKeepsVerdict(caller: Sentinel -> bool, e: Error)
    ensures NonRetryable(caller, Some(Node([e]))) <==> NonRetryable(caller, Some(e))
  {
    LeavesOfWrap(e);
  }

  datatype Outcome = Success | Skipped | Failure

  function Classify(caller: Sentinel -> bool, err: Option<Error>): Outcome {
    if err.None? then Success else if NonRetryable(caller, err) then Skipped else Failure
  }

  // ---- Payload validation ----

  /** A UUID; zero is the nil UUID. */
  type Uuid = nat

  datatype Event =
    | IngestionCompleted(job: Uuid, context: Uuid, source: Uuid)
    | IngestionFailed(job: Uuid, context: Uuid, source: Uuid, error: string)
    | MatchConfirmed(tenant: Uuid, context: Uuid, run: Uuid, group: Uuid, rule: Uuid, transactions: seq<Uuid>)
    | MatchUnmatched(tenant: Uuid, context: Uuid, run: Uuid, group: Uuid, transactions: seq<Uuid>, reason: string)
    | AuditLogCreated(tenant: Uuid, entityType: string, entity: Uuid, action: string)

  function Require(present: bool, s: Sentinel): Option<Error> {
    if present then None else Some(Node([Leaf(s)]))
  }

  predicate AllPresent(ids: seq<Uuid>) {
    |ids| > 0 && forall i :: 0 <= i < |ids| ==> ids[i] != 0
  }

  method RequireAllNonZero(ids: seq<Uuid>, s: Sentinel) returns (err: Option<Error>)
    ensures err == Require(AllPresent(ids), s)
  {
    if |ids| == 0 {
      return Some(Node([Leaf(s)]));
    }
    for i := 0 to |ids|
      invariant forall j :: 0 <= j < i ==> ids[j] != 0
    {
      if ids[i] == 0 {
        return Some(Node([Leaf(s)]));
      }
    }
    return None;
  }

  /** The errors that are there. */
  function Present(errs: seq<Option<Error>>): seq<Error> {
    if errs == [] then []
    else (if errs[0].Some? then [errs[0].value] else []) + Present(errs[1..])
  }

  /** Joining drops what is not there, and nothing remains nothing. */
  function Join(errs: seq<Option<Error>>): Option<Error> {
    if Present(errs) == [] then None else Some(Node(Present(errs)))
  }

  /** A field that must be present, and the sentinel that stands for it. */
  datatype Check = Check(present: bool, sentinel: Sentinel)

  function Checks(e: Event): seq<Check> {
    match e
    case IngestionCompleted(job, context, source) =>
      [Check(job != 0, MissingJobId), Check(context != 0, MissingContextId), Check(source != 0, MissingSourceId)]
    case IngestionFailed(job, context, source, error) =>
      [Check(job != 0, MissingJobId), Check(context != 0, MissingContextId), Check(source != 0, MissingSourceId),
       Check(error != "", MissingError)]
    case MatchConfirmed(tenant, context, run, group, rule, transactions) =>
      [Check(tenant != 0, MissingTenantId), Check(context != 0, MissingContextId),
       Check(run != 0, MissingMatchRunId), Check(group != 0, MissingMatchId),
       Check(rule != 0, MissingMatchRuleId), Check(AllPresent(transactions), MissingTransactionIds)]
    case MatchUnmatched(tenant, context, run, group, transactions, reason) =>
      [Check(tenant != 0, MissingTenantId), Check(context != 0, MissingContextId),
       Check(run != 0, MissingMatchRunId), Check(group != 0, MissingMatchId),
       Check(AllPresent(transactions), MissingTransactionIds), Check(reason != "", MissingReason)]
    case AuditLogCreated(tenant, entityType, entity, action) =>
      [Check(tenant != 0, MissingTenantId), Check(entityType != "", MissingEntityType),
       Check(entity != 0, MissingEntityId), Check(action != "", MissingAction)]
  }

  function Results(checks: seq<Check>): seq<Option<Error>> {
    if checks == [] then [] else [Require(checks[0].present, checks[0].sentinel)] + Results(checks[1..])
  }

  function Validate(e: Event): Option<Error> {
    Join(Results(Checks(e)))
  }

  /** The field that sentinel `s` stands for is one that this event must have, and it is missing. */
  predicate Lacks(e: Event, s: Sentinel) {
    match s
    case MissingJobId => (e.IngestionCompleted? || e.IngestionFailed?) && e.job == 0
    case MissingContextId => !e.AuditLogCreated? && e.context == 0
    case MissingSourceId => (e.IngestionCompleted? || e.IngestionFailed?) && e.source == 0
    case MissingError => e.IngestionFailed? && e.error == ""
    case MissingTenantId => (e.MatchConfirmed? || e.MatchUnmatched? || e.AuditLogCreated?) && e.tenant == 0
    case MissingMatchRunId => (e.MatchConfirmed? || e.MatchUnmatched?) && e.run == 0
    case MissingMatchId => (e.MatchConfirmed? || e.MatchUnmatched?) && e.group == 0
    case MissingMatchRuleId => e.MatchConfirmed? && e.rule == 0
    case MissingTransactionIds => (e.MatchConfirmed? || e.MatchUnmatched?)
       && (e.transactions == [] || 0 in e.transactions)
    case MissingReason => e.MatchUnmatched? && e.reason == ""
    case MissingEntityType => e.AuditLogCreated? && e.entityType == ""
    case MissingEntityId => e.AuditLogCreated? && e.entity == 0
    case MissingAction => e.AuditLogCreated? && e.action == ""
    case _ => false
  }

  function Named(err: Option<Error>): set<Sentinel> {
    if err.Some? then Leaves(err.value) else {}
  }

  function NamedByAll(errs: seq<Option<Error>>): set<Sentinel> {
    if errs == [] then {} else Named(errs[0]) + NamedByAll(errs[1..])
  }

  /** A joined error has the leaves of its parts. */
  lemma {:induction false} LeavesOfJoin(first: seq<Error>, rest: seq<Error>)
    ensures Leaves(Node(first + rest)) == Leaves(Node(first)) + Leaves(Node(rest))
  {
    var all := first + rest;
    forall s | s in Leaves(Node(all))
      ensures s in Leaves(Node(first)) + Leaves(Node(rest))
    {
      var i :| 0 <= i < |all| && s in Leaves(all[i]);
      if i < |first| {
        assert s in Leaves(first[i]);
      } else {
        assert s in Leaves(rest[i - |first|]);
      }
    }
    forall s | s in Leaves(Node(first))
      ensures s in Leaves(Node(all))
    {
      var i :| 0 <= i < |first| && s in Leaves(first[i]);
      assert all[i] == first[i];
    }
    forall s | s in Leaves(Node(rest))
      ensures s in Leaves(Node(all))
    {
      var i :| 0 <= i < |rest| && s in Leaves(rest[i]);
      assert all[|first| + i] == rest[i];
    }
  }

  lemma {:induction false} LeavesOfWrap(e: Error)
    ensures Leaves(Node([e])) == Leaves(e)
  {
    assert forall s :: s in Leaves(e) ==> s in Leaves([e][0]);
  }

  lemma {:induction false} JoinNamesAll(errs: seq<Option<Error>>)
    ensures Leaves(Node(Present(errs))) == NamedByAll(errs)
    ensures Named(Join(errs)) == NamedByAll(errs)
  {
    if errs == [] {
      assert Leaves(Node([])) == {};
    } else {
      JoinNamesAll(errs[1..]);
      var first := if errs[0].Some? then [errs[0].value] else [];
      LeavesOfJoin(first, Present(errs[1..]));
      if errs[0].Some? {
        LeavesOfWrap(errs[0].value);
      } else {
        assert Leaves(Node([])) == {};
      }
      assert Present(errs) == first + Present(errs[1..]);
      if Present(errs) == [] {
        assert Leaves(Node([])) == {};
      }
    }
  }

  lemma {:induction false} RequireNames(present: bool, s: Sentinel)
    ensures Named(Require(present, s)) == if present then {} else {s}
  {
    LeavesOfWrap(Leaf(s));
  }

  /** A check for the field that sentinel `s` stands for fails. */
  predicate Fails(checks: seq<Check>, s: Sentinel) {
    exists i :: 0 <= i < |checks| && !checks[i].present && checks[i].sentinel == s
  }

  lemma {:induction false} FailsFirst(checks: seq<Check>, s: Sentinel)
    requires checks != []
    ensures Fails(checks, s) <==> (!checks[0].present && checks[0].sentinel == s) || Fails(checks[1..], s)
  {
    assert forall i :: 0 <= i < |checks[1..]| ==> checks[1..][i] == checks[i + 1];
  }

  lemma {:induction false} ResultsName(checks: seq<Check>, s: Sentinel)
    ensures s in NamedByAll(Results(checks)) <==> Fails(checks, s)
    ensures Join(Results(checks)).None? <==> forall i :: 0 <= i < |checks| ==> checks[i].present
  {
    if checks != [] {
      var first := Require(checks[0].present, checks[0].sentinel);
      RequireNames(checks[0].present, checks[0].sentinel);
      ResultsName(checks[1..], s);
      FailsFirst(checks, s);
      assert Results(checks)[1..] == Results(checks[1..]);
      assert Present(Results(checks)) == (if first.Some? then [first.value] else []) + Present(Results(checks[1..]));
      assert forall i :: 0 <= i < |checks[1..]| ==> checks[1..][i] == checks[i + 1];
    }
  }

  lemma {:induction false} IngestionLacks(e: Event, s: Sentinel)
    requires e.IngestionCompleted? || e.IngestionFailed?
    ensures Fails(Checks(e), s) <==> Lacks(e, s)
  {
    var c := Checks(e);
    assert c[0] == Check(e.job != 0, MissingJobId) && c[1] == Check(e.context != 0, MissingContextId);
    assert c[2] == Check(e.source != 0, MissingSourceId);
    assert e.IngestionFailed? ==> c[3] == Check(e.error != "", MissingError);
  }

  lemma {:induction false} ConfirmedLacks(e: Event, s: Sentinel)
    requires e.MatchConfirmed?
    ensures Fails(Checks(e), s) <==> Lacks(e, s)
  {
    var c := Checks(e);
    assert c[0] == Check(e.tenant != 0, MissingTenantId) && c[1] == Check(e.context != 0, MissingContextId);
    assert c[2] == Check(e.run != 0, MissingMatchRunId) && c[3] == Check(e.group != 0, MissingMatchId);
    assert c[4] == Check(e.rule != 0, MissingMatchRuleId);
    assert c[5] == Check(AllPresent(e.transactions), MissingTransactionIds);
  }

  lemma {:induction false} UnmatchedLacks(e: Event, s: Sentinel)
    requires e.MatchUnmatched?
    ensures Fails(Checks(e), s) <==> Lacks(e, s)
  {
    var c := Checks(e);
    assert c[0] == Check(e.tenant != 0, MissingTenantId) && c[1] == Check(e.context != 0, MissingContextId);
    assert c[2] == Check(e.run != 0, MissingMatchRunId) && c[3] == Check(e.group != 0, MissingMatchId);
    assert c[4] == Check(AllPresent(e.transactions), MissingTransactionIds);
    assert c[5] == Check(e.reason != "", MissingReason);
  }

  lemma {:induction false} AuditLacks(e: Event, s: Sentinel)
    requires e.AuditLogCreated?
    ensures Fails(Checks(e), s) <==> Lacks(e, s)
  {
    var c := Checks(e);
    assert c[0] == Check(e.tenant != 0, MissingTenantId) && c[1] == Check(e.entityType != "", MissingEntityType);
    assert c[2] == Check(e.entity != 0, MissingEntityId) && c[3] == Check(e.action != "", MissingAction);
  }

  lemma {:induction false} ChecksLack(e: Event, s: Sentinel)
    ensures Fails(Checks(e), s) <==> Lacks(e, s)
  {
    match e
    case IngestionCompleted(_, _, _) => IngestionLacks(e, s);
    case IngestionFailed(_, _, _, _) => IngestionLacks(e, s);
    case MatchConfirmed(_, _, _, _, _, _) => ConfirmedLacks(e, s);
    case MatchUnmatched(_, _, _, _, _, _) => UnmatchedLacks(e, s);
    case AuditLogCreated(_, _, _, _) => AuditLacks(e, s);
  }

  /** A validator's error contains a field's sentinel exactly when that field is missing, and no other. */
  lemma {:induction false} ValidatorsNameWhatIsMissing(e: Event, s: Sentinel)
    ensures Validate(e).Some? && Contains(Validate(e).value, s) <==> Lacks(e, s)
  {
    ChecksLack(e, s);
    JoinNamesAll(Results(Checks(e)));
    ResultsName(Checks(e), s);
    if Validate(e).Some? {
      ContainsIsLeaf(Validate(e).value, s);
    }
  }

  ghost predicate Complete(e: Event) {
    forall s :: !Lacks(e, s)
  }

  /** Validation passes exactly when no required field is missing. */
  lemma {:induction false} ValidatesExactlyWhenComplete(e: Event)
    ensures Validate(e).None? <==> Complete(e)
  {
    var checks := Checks(e);
    ResultsName(checks, EventDisabled);
    forall s
      ensures Fails(checks, s) <==> Lacks(e, s)
    {
      ChecksLack(e, s);
    }
    if Validate(e).Some? {
      var i :| 0 <= i < |checks| && !checks[i].present;
      assert Fails(checks, checks[i].sentinel);
    }
  }
}
