/** The publish handlers, one per event type, in the wrapper that guards them and records their outcome. */
module OutboxHandlers {
  import opened Types
  import opened Outbox

  datatype Kind = Completed | Failed | Confirmed | Unmatched | Audited

  function KindOf(e: Event): Kind {
    match e
    case IngestionCompleted(_, _, _) => Completed
    case IngestionFailed(_, _, _, _) => Failed
    case MatchConfirmed(_, _, _, _, _, _) => Confirmed
    case MatchUnmatched(_, _, _, _, _, _) => Unmatched
    case AuditLogCreated(_, _, _, _) => Audited
  }

  /** What comes of decoding a payload. */
  datatype Payload = Decoded(event: Event) | Garbled(error: Error)

  class Publisher {
    const reply: Event -> Option<Error>
    var sent: seq<Event>

    constructor (reply: Event -> Option<Error>)
      ensures this.reply == reply && sent == []
    {
      this.reply := reply;
      sent := [];
    }

    method Publish(e: Event) returns (err: Option<Error>)
      modifies this
      ensures sent == old(sent) + [e] && err == reply(e)
    {
      sent := sent + [e];
      return reply(e);
    }
  }

  function Unavailable(kind: Kind): Sentinel {
    match kind
    case Completed => IngestionPublisherUnavailable
    case Failed => IngestionPublisherUnavailable
    case Confirmed => MatchPublisherUnavailable
    case Unmatched => MatchPublisherUnavailable
    case Audited => AuditPublisherNotConfigured
  }

  /** The error of a delivery that stops before publishing. */
  function Rejection(kind: Kind, available: bool, event: Option<Payload>): Option<Error> {
    if event.None? then Some(Leaf(InvalidPayload))
    else if !available then Some(Leaf(Unavailable(kind)))
    else match event.value
         case Garbled(error) => Some(Node([Leaf(InvalidPayload), error]))
         case Decoded(e) => Validate(e)
  }

  ghost predicate Acceptable(available: bool, event: Option<Payload>) {
    event.Some? && available && event.value.Decoded? && Complete(event.value.event)
  }

  lemma {:induction false} RejectsExactlyTheUnacceptable(kind: Kind, available: bool, event: Option<Payload>)
    ensures Rejection(kind, available, event).None? <==> Acceptable(available, event)
  {
    if event.Some? && event.value.Decoded? {
      ValidatesExactlyWhenComplete(event.value.event);
    }
  }

  method PublishPayload(kind: Kind, publisher: Publisher?, payload: Payload) returns (err: Option<Error>)
    requires payload.Decoded? ==> KindOf(payload.event) == kind
    modifies publisher
    ensures publisher != null && Acceptable(true, Some(payload)) ==>
              && publisher.sent == old(publisher.sent) + [payload.event]
              && err == Wrapped(publisher.reply(payload.event))
    ensures publisher == null || !Acceptable(true, Some(payload)) ==>
              && (publisher != null ==> publisher.sent == old(publisher.sent))
              && err == Rejection(kind, publisher != null, Some(payload))
  {
    RejectsExactlyTheUnacceptable(kind, publisher != null, Some(payload));
    if publisher == null {
      return Some(Leaf(Unavailable(kind)));
    }
    if payload.Garbled? {
      return Some(Node([Leaf(InvalidPayload), payload.error]));
    }
    var invalid := Validate(payload.event);
    if invalid.Some? {
      return invalid;
    }
    var failed := publisher.Publish(payload.event);
    return Wrapped(failed);
  }

  function Wrapped(err: Option<Error>): Option<Error> {
    if err.Some? then Some(Node([err.value])) else None
  }

  /** The outcome recorded for an error, told from the leaves of the error. */
  ghost predicate Judged(caller: Sentinel -> bool, err: Option<Error>, o: Outcome) {
    && (o.Success? <==> err.None?)
    && (o.Skipped? <==> err.Some? && EventDisabled !in Leaves(err.value)
                        && exists s :: s in Leaves(err.value) && (caller(s) || !s.Other?))
    && (o.Failure? <==> err.Some? && (EventDisabled in Leaves(err.value)
                                      || forall s :: s in Leaves(err.value) ==> !caller(s) && s.Other?))
  }

  /** What an event that is not published is refused with. */
  ghost predicate Refused(kind: Kind, available: bool, event: Option<Payload>, err: Error) {
    if event.None? then err == Leaf(InvalidPayload)
    else if !available then
      && err == Leaf(match kind
                     case Completed => IngestionPublisherUnavailable
                     case Failed => IngestionPublisherUnavailable
                     case Confirmed => MatchPublisherUnavailable
                     case Unmatched => MatchPublisherUnavailable
                     case Audited => AuditPublisherNotConfigured)
      && (event.value.Decoded? ==>
            var e := event.value.event;
            && (kind.Completed? <==> e.IngestionCompleted?) && (kind.Failed? <==> e.IngestionFailed?)
            && (kind.Confirmed? <==> e.MatchConfirmed?) && (kind.Unmatched? <==> e.MatchUnmatched?))
    else match event.value
         case Garbled(error) => Leaves(err) == {InvalidPayload} + Leaves(error)
         case Decoded(e) => forall s :: s in Leaves(err) <==> Lacks(e, s)
  }

  lemma {:induction false} RejectionRefuses(kind: Kind, available: bool, event: Option<Payload>)
    requires event.Some? && event.value.Decoded? ==> KindOf(event.value.event) == kind
    requires !Acceptable(available, event)
    ensures Rejection(kind, available, event).Some?
    ensures Refused(kind, available, event, Rejection(kind, available, event).value)
  {
    RejectsExactlyTheUnacceptable(kind, available, event);
    if event.Some? && available {
      match event.value
      case Garbled(error) =>
        LeavesOfJoin([Leaf(InvalidPayload)], [error]);
        LeavesOfWrap(Leaf(InvalidPayload));
        LeavesOfWrap(error);
        assert [Leaf(InvalidPayload)] + [error] == [Leaf(InvalidPayload), error];
      case Decoded(e) =>
        InvalidNamesWhatIsMissing(e);
    }
  }

  lemma {:induction false} InvalidNamesWhatIsMissing(e: Event)
    requires Validate(e).Some?
    ensures forall s :: s in Leaves(Validate(e).value) <==> Lacks(e, s)
  {
    forall s
      ensures s in Leaves(Validate(e).value) <==> Lacks(e, s)
    {
      ContainsIsLeaf(Validate(e).value, s);
      ValidatorsNameWhatIsMissing(e, s);
    }
  }

  lemma {:induction false} ClassifyJudges(caller: Sentinel -> bool, err: Option<Error>)
    ensures Judged(caller, err, Classify(caller, err))
  {
    forall s
      ensures s in MATCHER || s in STREAMING <==> !s.EventDisabled? && !s.Other?
    {
      ListedExactly(s);
    }
  }

  /** Every sentinel but the disabled event and foreign errors is listed as permanent. */
  lemma {:induction false} ListedExactly(s: Sentinel)
    ensures s in MATCHER || s in STREAMING <==> !s.EventDisabled? && !s.Other?
  {
    if !s.EventDisabled? && !s.Other? {
      PayloadSentinels();
      DeliverySentinels();
      StreamingSentinels();
      if s in PAYLOAD || s in DELIVERY {
        ListedInEither(s, PAYLOAD, DELIVERY);
      }
    }
  }

  /**
   * The wrapped handler publishes exactly once if event and publisher are there and the payload decodes
   * and is complete, and otherwise not at all; it records an outcome for every event that is there.
   */
  method Handle(kind: Kind, publisher: Publisher?, event: Option<Payload>, caller: Sentinel -> bool)
    returns (err: Option<Error>, recorded: Option<Outcome>)
    requires event.Some? && event.value.Decoded? ==> KindOf(event.value.event) == kind
    modifies publisher
    ensures publisher != null && Acceptable(true, event) ==>
              && publisher.sent == old(publisher.sent) + [event.value.event]
              && err == Wrapped(publisher.reply(event.value.event))
    ensures publisher == null || !Acceptable(true, event) ==>
              && (publisher != null ==> publisher.sent == old(publisher.sent))
              && err == Rejection(kind, publisher != null, event) && err.Some?
              && Refused(kind, publisher != null, event, err.value)
    ensures recorded.Some? <==> event.Some?
    ensures recorded.Some? ==> Judged(caller, err, recorded.value)
  {
    if event.None? {
      return Some(Leaf(InvalidPayload)), None;
    }
    if !Acceptable(publisher != null, event) {
      RejectionRefuses(kind, publisher != null, event);
    }
    err := PublishPayload(kind, publisher, event.value);
    recorded := Some(Classify(caller, err));
    ClassifyJudges(caller, err);
  }

  lemma {:induction false} PayloadSentinels()
    ensures InvalidPayload in PAYLOAD && MissingJobId in PAYLOAD && MissingContextId in PAYLOAD
    ensures MissingSourceId in PAYLOAD && MissingError in PAYLOAD && MissingMatchId in PAYLOAD
    ensures MissingMatchRunId in PAYLOAD && MissingMatchRuleId in PAYLOAD
    ensures MissingTransactionIds in PAYLOAD && MissingTenantId in PAYLOAD
  {
    assert PAYLOAD[0] == InvalidPayload && PAYLOAD[1] == MissingJobId && PAYLOAD[2] == MissingContextId;
    assert PAYLOAD[3] == MissingSourceId && PAYLOAD[4] == MissingError && PAYLOAD[5] == MissingMatchId;
    assert PAYLOAD[6] == MissingMatchRunId && PAYLOAD[7] == MissingMatchRuleId;
    assert PAYLOAD[8] == MissingTransactionIds && PAYLOAD[9] == MissingTenantId;
  }

  lemma {:induction false} StreamingSentinels()
    ensures StreamingEnvelope in STREAMING && StreamingPolicy in STREAMING
    ensures StreamingUnknownDefinition in STREAMING && StreamingInvalidDefinition in STREAMING
    ensures StreamingMissingTenant in STREAMING && StreamingInvalidTenant in STREAMING
    ensures StreamingNotJson in STREAMING && StreamingTooLarge in STREAMING
  {
    assert STREAMING[0] == StreamingEnvelope && STREAMING[1] == StreamingPolicy;
    assert STREAMING[2] == StreamingUnknownDefinition && STREAMING[3] == StreamingInvalidDefinition;
    assert STREAMING[4] == StreamingMissingTenant && STREAMING[5] == StreamingInvalidTenant;
    assert STREAMING[6] == StreamingNotJson && STREAMING[7] == StreamingTooLarge;
  }

  lemma {:induction false} DeliverySentinels()
    ensures EventRequired in DELIVERY && PayloadTooLarge in DELIVERY && PayloadNotJson in DELIVERY
    ensures MissingEntityType in DELIVERY && MissingEntityId in DELIVERY && MissingAction in DELIVERY
    ensures MissingReason in DELIVERY && AuditPublisherNotConfigured in DELIVERY
    ensures IngestionPublisherUnavailable in DELIVERY && MatchPublisherUnavailable in DELIVERY
  {
    assert DELIVERY[0] == EventRequired && DELIVERY[1] == PayloadTooLarge && DELIVERY[2] == PayloadNotJson;
    assert DELIVERY[3] == MissingEntityType && DELIVERY[4] == MissingEntityId && DELIVERY[5] == MissingAction;
    assert DELIVERY[6] == MissingReason && DELIVERY[7] == AuditPublisherNotConfigured;
    assert DELIVERY[8] == IngestionPublisherUnavailable && DELIVERY[9] == MatchPublisherUnavailable;
  }

  lemma {:induction false} ListedInEither(s: Sentinel, first: seq<Sentinel>, second: seq<Sentinel>)
    requires s in first || s in second
    ensures s in first + second
  {
  }

  /** Every sentinel a validator can name is listed as permanent. */
  lemma {:induction false} MissingIsListed(e: Event, s: Sentinel)
    requires Lacks(e, s)
    ensures s in MATCHER && s != EventDisabled
  {
    assert s in PAYLOAD || s in DELIVERY by {
      PayloadSentinels();
      DeliverySentinels();
    }
    ListedInEither(s, PAYLOAD, DELIVERY);
  }

  lemma {:induction false} InvalidIsPermanent(caller: Sentinel -> bool, e: Event)
    requires Validate(e).Some?
    ensures NonRetryable(caller, Validate(e))
  {
    InvalidNamesWhatIsMissing(e);
    ValidatesExactlyWhenComplete(e);
    var s :| Lacks(e, s);
    MissingIsListed(e, s);
    assert s in Leaves(Validate(e).value);
  }

  lemma {:induction false} ListedLeafIsPermanent(caller: Sentinel -> bool, s: Sentinel, e: Error)
    requires s in MATCHER && s in Leaves(e)
    ensures NonRetryable(caller, Some(e)) <==> !Contains(e, EventDisabled)
  {
    ContainsIsLeaf(e, EventDisabled);
  }

  lemma {:induction false} WiringSentinelsAreListed(kind: Kind)
    ensures InvalidPayload in MATCHER && Unavailable(kind) in MATCHER
    ensures Unavailable(kind) != EventDisabled
  {
    PayloadSentinels();
    DeliverySentinels();
    ListedInEither(InvalidPayload, PAYLOAD, DELIVERY);
    ListedInEither(Unavailable(kind), PAYLOAD, DELIVERY);
  }

  /** A garbled payload is permanent unless the decoder's own error holds a disabled event. */
  lemma {:induction false} GarbledIsPermanent(caller: Sentinel -> bool, error: Error)
    ensures NonRetryable(caller, Some(Node([Leaf(InvalidPayload), error]))) <==> !Contains(error, EventDisabled)
  {
    var children := [Leaf(InvalidPayload), error];
    WiringSentinelsAreListed(Completed);
    assert InvalidPayload in Leaves(children[0]);
    ListedLeafIsPermanent(caller, InvalidPayload, Node(children));
    assert Contains(children[1], EventDisabled) <==> Contains(error, EventDisabled);
    assert !Contains(children[0], EventDisabled);
  }

  /** Every rejection before publishing is permanent, unless the decoder's own error holds a disabled event. */
  lemma {:induction false} RejectionsArePermanent(
    caller: Sentinel -> bool, kind: Kind, available: bool, event: Option<Payload>)
    requires Rejection(kind, available, event).Some?
    ensures NonRetryable(caller, Rejection(kind, available, event)) <==>
            !(available && event.Some? && event.value.Garbled? && Contains(event.value.error, EventDisabled))
  {
    WiringSentinelsAreListed(kind);
    if event.None? {
      ListedLeafIsPermanent(caller, InvalidPayload, Leaf(InvalidPayload));
    } else if !available {
      ListedLeafIsPermanent(caller, Unavailable(kind), Leaf(Unavailable(kind)));
    } else if event.value.Garbled? {
      GarbledIsPermanent(caller, event.value.error);
    } else {
      InvalidIsPermanent(caller, event.value.event);
    }
  }

  /** A failed publication is judged exactly as the publisher's own error. */
  lemma {:induction false} PublishErrorsKeepTheirVerdict(caller: Sentinel -> bool, err: Option<Error>)
    ensures Classify(caller, Wrapped(err)) == Classify(caller, err)
  {
    if err.Some? {
      WrapKeepsVerdict(caller, err.value);
    }
  }
}
