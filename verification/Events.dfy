/** Event envelopes, the streams they belong to, and what an idempotent retry compares. */
module Events {
  import opened Wrappers
  import opened Values

  /** A stream name, split at the prefixes the runtime looks for. */
  datatype StreamId =
    | ReviewStream(run: Text)  // "review:" + run
    | RunStream(run: Text)     // "run:" + run
    | NamedStream(name: Text)

  datatype EventType =
    | ReviewClaimed | ReviewLeaseRenewed | ReviewProviderDispatchStarted
    | ReviewSucceeded | ReviewFailed | ReviewRequeued | ReviewReconciliationRequired
    | RunQueued | RunSucceeded
    | OtherType(name: Text)

  datatype Source = RuntimeSource | OtherSource(name: Text)

  /** An event as its author builds it, or, once `globalPosition` is assigned, as it is stored. */
  datatype Event = Event(
    eventId: Text,
    streamId: StreamId,
    streamSequence: int,
    eventType: EventType,
    schemaVersion: int,
    recordedAt: int,
    effectiveAt: int,
    correlationId: Text,
    causationId: Option<Text>,
    actor: Text,
    source: Source,
    payload: Json,
    idempotencyKey: Option<Text>,
    globalPosition: Option<nat>)
  {
    /** The digest stored beside the payload. */
    function PayloadHash(): Text {
      Sha256(payload)
    }
  }

  /** The content the idempotency hash covers: everything but occurrence and ledger metadata. */
  datatype Request = Request(
    actor: Text,
    causationId: Option<Text>,
    correlationId: Text,
    effectiveAt: int,
    eventType: EventType,
    payloadHash: Text,
    schemaVersion: int,
    source: Source,
    streamId: StreamId)

  function RequestOf(e: Event): Request {
    Request(e.actor, e.causationId, e.correlationId, e.effectiveAt, e.eventType,
            e.PayloadHash(), e.schemaVersion, e.source, e.streamId)
  }
}
