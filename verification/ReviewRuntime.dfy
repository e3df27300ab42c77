/**
 The scheduler's decisions: from the stream a client has read, the event it will
 submit, and what submitting that event does to the ledger.
 */
module ReviewRuntime {
  import opened Wrappers
  import opened Values
  import opened Events
  import opened Ledgers
  import opened ReviewLifecycle

  datatype Failure = InvalidRequest | NotFound | Conflict

  datatype Candidate = Candidate(
    runId: Text,
    reviewId: Text,
    correlationId: Text,
    runEventId: Text,
    runEventDigest: Text,
    stateDigest: Text,
    evidenceDigest: Text)
  {
    predicate Valid() {
      && IsIdentifier(runId) && IsIdentifier(reviewId) && IsIdentifier(correlationId) && IsIdentifier(runEventId)
      && IsDigest(runEventDigest) && IsDigest(stateDigest) && IsDigest(evidenceDigest)
      && reviewId == ReviewId(runId, runEventDigest)
    }

    function Identity(): ImmutableIdentity {
      ImmutableIdentity(runId, reviewId, runEventId, runEventDigest, stateDigest, evidenceDigest)
    }
  }

  /** The identity and the clock reading a new event is given. */
  datatype Stamp = Stamp(id: Text, at: int)

  // ------------------------------------------------------------------ events

  function ReviewOf(log: seq<Event>, runId: Text): seq<Event> {
    OnStream(log, ReviewStream(runId))
  }

  function Compose(runId: Text, sequence: int, body: Body, actor: Text, correlation: Text, cause: Text, key: Text,
                   stamp: Stamp): Event {
    Event(stamp.id, ReviewStream(runId), sequence, body.Type(), 1, stamp.at, stamp.at, correlation, Some(cause), actor,
          RuntimeSource, Encode(actor, body), Some(key), None)
  }

  /** The event that continues `state`. */
  function Transition(state: State, body: Body, principal: Text, key: Text, stamp: Stamp): Event {
    Compose(state.runId, state.latest.streamSequence + 1, body, principal, state.latest.correlationId,
            state.latest.eventId, key, stamp)
  }

  datatype Pending = Pending(lease: Lease, event: Event)

  /** The succeeded run the candidate speaks about. */
  predicate IsExecutionEvent(e: Event, candidate: Candidate) {
    && e.streamId == RunStream(candidate.runId)
    && e.eventType == RunSucceeded
    && e.source == RuntimeSource
    && e.correlationId == candidate.correlationId
    && e.PayloadHash() == candidate.runEventDigest
    && e.payload.Obj?
    && TextAt(e.payload.fields, RunId) == Some(candidate.runId)
    && TextAt(e.payload.fields, Status) == Some(Raw("succeeded"))
  }

  function ClaimLease(candidate: Candidate, previous: Option<State>, worker: Text, expiresAt: Time): Lease {
    Lease(candidate.runId, candidate.reviewId,
          match previous { case None => 1 case Some(s) => s.lease.attempt + 1 },
          match previous { case None => 1 case Some(s) => s.lease.fencingToken + 1 },
          worker, candidate.runEventId, candidate.runEventDigest, candidate.stateDigest, candidate.evidenceDigest,
          expiresAt)
  }

  /** `claim`, up to the append. */
  function Claim(candidate: Candidate, worker: Text, expiresAt: Time, stamp: Stamp, run: Option<Event>,
                 existing: seq<Event>)
    : Result<Pending, Failure>
  {
    if !IsIdentifier(worker) || expiresAt.instant <= stamp.at then Err(InvalidRequest)
    else if run.None? || !IsExecutionEvent(run.value, candidate) || run.value.actor == worker then Err(Conflict)
    else
      var previous := Fold(candidate.runId, existing);
      if existing != []
         && (previous.None? || previous.value.status != Requeued
             || candidate.Identity() != ImmutableOf(previous.value.lease))
      then Err(Conflict)
      else
        var lease := ClaimLease(candidate, previous, worker, expiresAt);
        Ok(Pending(lease, Compose(candidate.runId, |existing| + 1, ClaimBody(lease), worker, candidate.correlationId,
                                  if previous.None? then candidate.runEventId else previous.value.latest.eventId,
                                  Joined(ClaimKey, [lease.Digest()]), stamp)))
  }

  /** The gate of every worker call: the presented lease must be the stream's current one. */
  function RequireActive(lease: Lease, principal: Text, expected: Option<LifecycleStatus>, existing: seq<Event>)
    : Result<State, Failure> {
    if !IsIdentifier(principal) then Err(InvalidRequest)
    else if existing == [] then Err(NotFound)
    else
      match Fold(lease.runId, existing)
      case None => Err(Conflict)
      case Some(s) =>
        if (if expected.Some? then s.status == expected.value else s.Active())
           && s.lease.Digest() == lease.Digest() && s.lease.workerId == principal
        then Ok(s)
        else Err(Conflict)
  }

  function Renew(lease: Lease, expiresAt: Time, principal: Text, stamp: Stamp, existing: seq<Event>)
    : Result<Pending, Failure> {
    match RequireActive(lease, principal, Some(Claimed), existing)
    case Err(e) => Err(e)
    case Ok(s) =>
      if expiresAt.instant <= stamp.at || expiresAt.instant <= lease.expiresAt.instant then Err(InvalidRequest)
      else
        var renewed := lease.(expiresAt := expiresAt);
        Ok(Pending(renewed, Transition(s, RenewBody(lease.Digest(), renewed), principal,
                                       Joined(RenewKey, [lease.Digest(), renewed.Digest()]), stamp)))
  }

  function Dispatch(lease: Lease, acceptance: Text, context: Text, contextArtifact: Text, principal: Text, stamp: Stamp,
                    existing: seq<Event>): Result<Pending, Failure>
  {
    match RequireActive(lease, principal, Some(Claimed), existing)
    case Err(e) => Err(e)
    case Ok(s) =>
      if !IsDigest(acceptance) || !IsDigest(context) || !IsDigest(contextArtifact) then Err(InvalidRequest)
      else if context != contextArtifact || stamp.at > lease.expiresAt.instant then Err(Conflict)
      else
        var body := DispatchBody(TargetOf(lease), ProviderRequest(lease.Digest()), acceptance, context);
        Ok(Pending(lease, Transition(s, body, principal, Joined(DispatchKey, [lease.Digest()]), stamp)))
  }

  function Succeed(lease: Lease, context: Text, proposal: Text, providerResult: Text, admitted: Text, findings: int,
                   principal: Text, stamp: Stamp, existing: seq<Event>): Result<Pending, Failure>
  {
    match RequireActive(lease, principal, Some(ProviderDispatched), existing)
    case Err(e) => Err(e)
    case Ok(s) =>
      var body := SuccessBody(TargetOf(lease), context, proposal, providerResult, admitted, findings);
      if !IsDigest(context) || !body.Valid() then Err(InvalidRequest)
      else if Some(context) != s.context || stamp.at > lease.expiresAt.instant then Err(Conflict)
      else Ok(Pending(lease, Transition(s, body, principal, Joined(SuccessKey, [lease.Digest()]), stamp)))
  }

  function Fail(lease: Lease, code: Text, result: Option<Text>, principal: Text, stamp: Stamp, existing: seq<Event>)
    : Result<Pending, Failure>
  {
    match RequireActive(lease, principal, None, existing)
    case Err(e) => Err(e)
    case Ok(s) =>
      var body := FailureBody(TargetOf(lease), code, result);
      if !body.Valid() then Err(InvalidRequest)
      else Ok(Pending(lease, Transition(s, body, principal, Joined(FailureKey, [lease.Digest()]), stamp)))
  }

  /** What restart reconciliation does with one review, from the state it has read. */
  datatype Verdict = Leave | Requeue(event: Event) | MarkAmbiguous(event: Event)

  function Reconcile(s: State, principal: Text, stamp: Stamp): Result<Verdict, Failure> {
    if s.Active() && principal == s.lease.workerId then Err(Conflict)
    else if s.status == Claimed then
      Ok(Requeue(Transition(s, RequeueBody(TargetOf(s.lease)), principal, Joined(RequeueKey, [s.lease.Digest()]),
                            stamp)))
    else if s.status == ProviderDispatched then
      Ok(MarkAmbiguous(Transition(s, AmbiguousBody(TargetOf(s.lease)), principal,
                                  Joined(ReconciliationKey, [s.lease.Digest()]), stamp)))
    else Ok(Leave)
  }

  // ------------------------------------------------------------------ append

  datatype Submitted = Submitted(ledger: Ledger, result: Result<Event, Failure>)

  /**
   `_append`: validate the extension of what was read, append with the expected
   length, validate what the store returned. The ledger may have moved on since
   `existing` was read.
   */
  ghost function Submit(L: Ledger, runId: Text, existing: seq<Event>, event: Event): Submitted {
    if Fold(runId, existing + [event]).None? then Submitted(L, Err(Conflict))
    else
      match AppendMany(L, [event], map[event.streamId := |existing|])
      case None => Submitted(L, Err(Conflict))
      case Some(a) =>
        Submitted(a.ledger,
                  if a.events != [] && Fold(runId, existing + [a.events[0]]).Some? then Ok(a.events[0])
                    else Err(Conflict))
  }
}
