/**
 The transition table of a review: exactly which event may come next, in terms of the events
 and the state before, where it leads, and how its payload is spelled.
 */
module ReviewTransitions {
  import opened Wrappers
  import opened Values
  import opened Events
  import opened ReviewLifecycle
  import opened ReviewLaws

  // ---------------------------------------------------------------- the first event

  /** A review begins exactly with a claim of attempt one, caused by the execution event its lease names. */
  lemma {:induction false} FirstExactly(runId: Text, e: Event, body: Body)
    requires BodyOf(e) == Some(body)
    ensures Fold(runId, [e]).Some?
            <==> && e.streamId == ReviewStream(runId) && e.streamSequence == 1 && e.schemaVersion == 1
                 && e.source == RuntimeSource && body.ClaimBody?
                 && body.lease.runId == runId && body.lease.workerId == e.actor
                 && body.lease.attempt == 1 && body.lease.fencingToken == 1
                 && e.causationId == Some(body.lease.runEventId) && e.recordedAt < body.lease.expiresAt.instant
    ensures Fold(runId, [e]).Some? && body.ClaimBody? ==>
              Fold(runId, [e])
              == Some(State(runId, body.lease.reviewId, Claimed, body.lease, None, None, None, None, None, None, None,
                            None, None, None, e))
  {
    FoldPush(runId, [], e);
    assert [] + [e] == [e];
    BodyTyped(e);
  }

  // ---------------------------------------------------------------- every later event

  /** `e` follows `latest` on its stream. */
  ghost predicate Follows(latest: Event, e: Event) {
    && e.streamId == latest.streamId && e.streamSequence == latest.streamSequence + 1 && e.schemaVersion == 1
    && e.source == RuntimeSource && e.correlationId == latest.correlationId && e.causationId == Some(latest.eventId)
  }

  /** The lease's own worker acts, in time when it has to, about exactly this lease. */
  ghost predicate ActsUnder(s: State, e: Event, target: Target, inTime: bool) {
    && e.actor == s.lease.workerId && target == Target(s.lease.runId, s.lease.reviewId, s.lease.Digest())
    && (inTime ==> e.recordedAt <= s.lease.expiresAt.instant)
  }

  /** Which body is accepted in which state. */
  ghost predicate Allowed(s: State, e: Event, body: Body) {
    match body
    case ClaimBody(l) =>
      && s.status == Requeued && e.recordedAt < l.expiresAt.instant
      && l == Lease(s.lease.runId, s.lease.reviewId, s.lease.attempt + 1, s.lease.fencingToken + 1, e.actor,
                    s.lease.runEventId, s.lease.runEventDigest, s.lease.stateDigest, s.lease.evidenceDigest,
                    l.expiresAt)
    case RenewBody(previous, l) =>
      && s.status == Claimed && e.actor == s.lease.workerId && previous == s.lease.Digest()
      && e.recordedAt < l.expiresAt.instant && s.lease.expiresAt.instant < l.expiresAt.instant
      && l == s.lease.(expiresAt := l.expiresAt)
    case DispatchBody(target, request, _, _) =>
      s.status == Claimed && ActsUnder(s, e, target, true) && request == Joined(ProviderRequestName, [s.lease.Digest()])
    case SuccessBody(target, context, _, _, _, _) =>
      s.status == ProviderDispatched && ActsUnder(s, e, target, true) && s.context == Some(context)
    case FailureBody(target, _, _) =>
      (s.status == Claimed || s.status == ProviderDispatched) && ActsUnder(s, e, target, false)
    case RequeueBody(target) =>
      s.status == Claimed && target == Target(s.lease.runId, s.lease.reviewId, s.lease.Digest())
    case AmbiguousBody(target) =>
      s.status == ProviderDispatched && target == Target(s.lease.runId, s.lease.reviewId, s.lease.Digest())
  }

  /** Where an accepted body leads. */
  ghost function Leads(s: State, e: Event, body: Body): State {
    match body
    case ClaimBody(l) =>
      State(s.runId, l.reviewId, Claimed, l, None, None, None, None, None, None, None, None, None, None, e)
    case RenewBody(_, l) => s.(lease := l, latest := e)
    case DispatchBody(_, request, acceptance, context) =>
      s.(status := ProviderDispatched, acceptance := Some(acceptance), context := Some(context),
         providerRequestId := Some(request), dispatchEventId := Some(e.eventId), latest := e)
    case SuccessBody(_, _, proposal, providerResult, admitted, findings) =>
      s.(status := Succeeded, proposal := Some(proposal), providerResult := Some(providerResult),
         admitted := Some(admitted), findings := Some(findings), latest := e)
    case FailureBody(_, code, result) =>
      s.(status := Failed, failureCode := Some(code), resultArtifact := result, latest := e)
    case RequeueBody(_) => s.(status := Requeued, latest := e)
    case AmbiguousBody(_) =>
      s.(status := ReconciliationRequired, failureCode := Some(Raw("review-dispatch-ambiguous")), latest := e)
  }

  /** An accepted review is continued exactly by the events of this table, and each leads where the table says. */
  lemma {:induction false} NextExactly(runId: Text, es: seq<Event>, e: Event, body: Body)
    requires Fold(runId, es).Some? && BodyOf(e) == Some(body)
    ensures var s := Fold(runId, es).value;
            Fold(runId, es + [e])
            == if Follows(Last(es), e) && Allowed(s, e, body) then Some(Leads(s, e, body)) else None
  {
    var s := Fold(runId, es).value;
    FoldConsistent(runId, es);
    HistoryChained(runId, es, |es| - 1);
    FoldPush(runId, es, e);
    BodyTyped(e);
    StepExactly(runId, s, e, body);
  }

  lemma StepExactly(runId: Text, s: State, e: Event, body: Body)
    requires BodyOf(e) == Some(body) && IsReviewType(e.eventType)
    requires s.runId == runId && s.lease.runId == runId && s.latest.streamId == ReviewStream(runId)
    ensures Step(runId, Some(s), e)
            == if Follows(s.latest, e) && Allowed(s, e, body) then Some(Leads(s, e, body)) else None
  {
    assert Admits(runId, Some(s), e, body) <==> Allowed(s, e, body);
  }

  // ---------------------------------------------------------------- payloads

  /** The lease's payload, but for how its expiry is spelled. */
  ghost predicate SpellsLease(j: Json, l: Lease) {
    && j.Obj? && ExpiresAt in j.fields && j.fields[ExpiresAt].Str? && j.fields[ExpiresAt].t.Iso?
    && j.fields[ExpiresAt].t.at == l.expiresAt
    && j.fields == map[
         SchemaVersion := Str(Raw("review-lease/v1")), RunId := Str(l.runId), ReviewIdField := Str(l.reviewId),
         Attempt := Int(l.attempt), FencingToken := Int(l.fencingToken), WorkerId := Str(l.workerId),
         RunEventId := Str(l.runEventId), RunEventDigest := Str(l.runEventDigest), StateDigest := Str(l.stateDigest),
         ArtifactEvidenceDigest := Str(l.evidenceDigest), ExpiresAt := j.fields[ExpiresAt]]
  }

  /** The fields an event's payload has for `body`, beside the principal. */
  ghost predicate Spells(f: map<Field, Json>, principal: Text, body: Body) {
    match body
    case ClaimBody(l) =>
      && LeaseField in f && SpellsLease(f[LeaseField], l)
      && f == map[PrincipalId := Str(principal), LeaseDigest := Str(l.Digest()), LeaseField := f[LeaseField],
                  Status := Str(Raw("claimed"))]
    case RenewBody(previous, l) =>
      && LeaseField in f && SpellsLease(f[LeaseField], l)
      && f == map[PrincipalId := Str(principal), PreviousLeaseDigest := Str(previous), LeaseDigest := Str(l.Digest()),
                  LeaseField := f[LeaseField], Status := Str(Raw("claimed"))]
    case DispatchBody(t, request, acceptance, context) =>
      f == map[PrincipalId := Str(principal), RunId := Str(t.runId), ReviewIdField := Str(t.reviewId),
               LeaseDigest := Str(t.leaseDigest), ProviderRequestId := Str(request),
               AcceptanceDigest := Str(acceptance), ContextDigest := Str(context),
               ContextArtifactDigest := Str(context), Status := Str(Raw("provider-dispatch-started"))]
    case SuccessBody(t, context, proposal, providerResult, admitted, findings) =>
      f == map[PrincipalId := Str(principal), RunId := Str(t.runId), ReviewIdField := Str(t.reviewId),
               LeaseDigest := Str(t.leaseDigest), ContextDigest := Str(context),
               ProposalArtifactDigest := Str(proposal), ProviderResultArtifactDigest := Str(providerResult),
               AdmittedArtifactDigest := Str(admitted), FindingCount := Int(findings),
               Status := Str(Raw("succeeded"))]
    case FailureBody(t, code, result) =>
      f == map[PrincipalId := Str(principal), RunId := Str(t.runId), ReviewIdField := Str(t.reviewId),
               LeaseDigest := Str(t.leaseDigest), FailureCode := Str(code),
               ResultArtifactDigest := (if result.Some? then Str(result.value) else Null),
               Status := Str(Raw("reviewer-error"))]
    case RequeueBody(t) =>
      f == map[PrincipalId := Str(principal), RunId := Str(t.runId), ReviewIdField := Str(t.reviewId),
               LeaseDigest := Str(t.leaseDigest), Disposition := Str(Raw("pre-dispatch")),
               Status := Str(Raw("requeued"))]
    case AmbiguousBody(t) =>
      f == map[PrincipalId := Str(principal), RunId := Str(t.runId), ReviewIdField := Str(t.reviewId),
               LeaseDigest := Str(t.leaseDigest), FailureCode := Str(Raw("review-dispatch-ambiguous")),
               Status := Str(Raw("reconciliation-required"))]
  }

  /** The decoder is strict: an event read as `body` has exactly these fields. */
  lemma BodyDecodeStrict(e: Event, body: Body)
    requires BodyOf(e) == Some(body)
    ensures e.payload.Obj? && Spells(e.payload.fields, e.actor, body)
  {
    FieldsStrict(e.eventType, e.actor, e.payload.fields, body);
  }

  lemma FieldsStrict(t: EventType, principal: Text, f: map<Field, Json>, body: Body)
    requires TextAt(f, PrincipalId) == Some(principal) && DecodeFields(t, f) == Some(body)
    ensures Spells(f, principal, body)
  {
    match t {
      case ReviewClaimed => ClaimStrict(principal, f, body);
      case ReviewLeaseRenewed => RenewalStrict(principal, f, body);
      case ReviewProviderDispatchStarted => DispatchStrict(principal, f, body);
      case ReviewSucceeded => SuccessStrict(principal, f, body);
      case ReviewFailed => FailureStrict(principal, f, body);
      case _ => HostStrict(principal, f, body);
    }
  }

  lemma ClaimStrict(principal: Text, f: map<Field, Json>, body: Body)
    requires TextAt(f, PrincipalId) == Some(principal) && DecodeClaim(f) == Some(body)
    ensures Spells(f, principal, body)
  {
    LeaseDecodeStrict(f[LeaseField]);
  }

  lemma RenewalStrict(principal: Text, f: map<Field, Json>, body: Body)
    requires TextAt(f, PrincipalId) == Some(principal) && DecodeRenewal(f) == Some(body)
    ensures Spells(f, principal, body)
  {
    LeaseDecodeStrict(f[LeaseField]);
  }

  lemma DispatchStrict(principal: Text, f: map<Field, Json>, body: Body)
    requires TextAt(f, PrincipalId) == Some(principal) && DecodeDispatch(f) == Some(body)
    ensures Spells(f, principal, body)
  {
  }

  lemma SuccessStrict(principal: Text, f: map<Field, Json>, body: Body)
    requires TextAt(f, PrincipalId) == Some(principal) && DecodeSuccess(f) == Some(body)
    ensures Spells(f, principal, body)
  {
  }

  lemma FailureStrict(principal: Text, f: map<Field, Json>, body: Body)
    requires TextAt(f, PrincipalId) == Some(principal) && DecodeFailure(f) == Some(body)
    ensures Spells(f, principal, body)
  {
  }

  lemma HostStrict(principal: Text, f: map<Field, Json>, body: Body)
    requires TextAt(f, PrincipalId) == Some(principal)
    requires DecodeRequeue(f) == Some(body) || DecodeAmbiguous(f) == Some(body)
    ensures Spells(f, principal, body)
  {
  }

  predicate LeaseFits(l: Lease) {
    && IsIdentifier(l.runId) && IsIdentifier(l.reviewId) && IsIdentifier(l.workerId) && IsIdentifier(l.runEventId)
    && IsDigest(l.runEventDigest) && IsDigest(l.stateDigest) && IsDigest(l.evidenceDigest)
    && 1 <= l.attempt && 1 <= l.fencingToken
  }

  /** The shape of what a review event says. */
  predicate BodyFits(body: Body) {
    && (body.ClaimBody? || body.RenewBody? ==> LeaseFits(body.lease))
    && (body.DispatchBody? ==> IsIdentifier(body.requestId) && IsDigest(body.acceptance) && IsDigest(body.context))
    && (body.SuccessBody? ==>
          && IsDigest(body.proposal) && IsDigest(body.providerResult) && IsDigest(body.admitted)
          && 0 <= body.findings <= 64)
    && (body.FailureBody? ==> IsFailureCode(body.code) && (body.result == None || IsDigest(body.result.value)))
  }

  /** The name of the event that says `body`. */
  predicate NamedFor(t: EventType, body: Body) {
    match body
    case ClaimBody(_) => t == ReviewClaimed
    case RenewBody(_, _) => t == ReviewLeaseRenewed
    case DispatchBody(_, _, _, _) => t == ReviewProviderDispatchStarted
    case SuccessBody(_, _, _, _, _, _) => t == ReviewSucceeded
    case FailureBody(_, _, _) => t == ReviewFailed
    case RequeueBody(_) => t == ReviewRequeued
    case AmbiguousBody(_) => t == ReviewReconciliationRequired
  }

  /** Exactly which events are read, and as what. */
  lemma BodyReadExactly(e: Event, body: Body)
    ensures BodyOf(e) == Some(body)
            <==> && IsIdentifier(e.actor) && NamedFor(e.eventType, body) && BodyFits(body)
                 && e.payload.Obj? && Spells(e.payload.fields, e.actor, body)
  {
    assert BodyFits(body) <==> body.Valid();
    assert NamedFor(e.eventType, body) <==> e.eventType == body.Type();
    if BodyOf(e) == Some(body) {
      BodyDecodeStrict(e, body);
      BodyTyped(e);
    }
    if IsIdentifier(e.actor) && body.Valid() && e.payload.Obj? && Spells(e.payload.fields, e.actor, body) {
      SpelledReads(e.actor, e.payload.fields, body);
    }
  }

  lemma LeaseReads(j: Json, l: Lease)
    requires SpellsLease(j, l) && l.Valid()
    ensures LeaseFromJson(j) == Some(l)
  {
    assert j.fields.Keys == LEASE_KEYS;
  }

  /** Whatever spells a valid body is read as it. */
  lemma SpelledReads(principal: Text, f: map<Field, Json>, body: Body)
    requires IsIdentifier(principal) && body.Valid() && Spells(f, principal, body)
    ensures Decode(body.Type(), principal, Obj(f)) == Some(body)
  {
    match body {
      case ClaimBody(l) => ClaimReads(principal, f, l);
      case RenewBody(previous, l) => RenewalReads(principal, f, previous, l);
      case _ =>
        OneSpelling(principal, f, body);
        BodyRoundTrip(principal, body);
    }
  }

  /** Bodies without a lease have one spelling. */
  lemma OneSpelling(principal: Text, f: map<Field, Json>, body: Body)
    requires Spells(f, principal, body) && !body.ClaimBody? && !body.RenewBody?
    ensures Encode(principal, body) == Obj(f)
  {
    EncodingSpells(principal, body);
  }

  lemma ClaimReads(principal: Text, f: map<Field, Json>, l: Lease)
    requires IsIdentifier(principal) && l.Valid() && Spells(f, principal, ClaimBody(l))
    ensures Decode(ReviewClaimed, principal, Obj(f)) == Some(ClaimBody(l))
  {
    LeaseReads(f[LeaseField], l);
    assert f.Keys == {PrincipalId, LeaseDigest, LeaseField, Status};
    assert DecodeClaim(f) == Some(ClaimBody(l));
  }

  lemma RenewalReads(principal: Text, f: map<Field, Json>, previous: Text, l: Lease)
    requires IsIdentifier(principal) && l.Valid() && Spells(f, principal, RenewBody(previous, l))
    ensures Decode(ReviewLeaseRenewed, principal, Obj(f)) == Some(RenewBody(previous, l))
  {
    LeaseReads(f[LeaseField], l);
    RenewalHas(f, principal, previous, l);
    RenewalFieldsRead(f, previous, l);
  }

  lemma RenewalHas(f: map<Field, Json>, principal: Text, previous: Text, l: Lease)
    requires Spells(f, principal, RenewBody(previous, l))
    ensures f.Keys == {PrincipalId, PreviousLeaseDigest, LeaseDigest, LeaseField, Status}
    ensures f[PreviousLeaseDigest] == Str(previous) && f[LeaseDigest] == Str(l.Digest())
    ensures f[Status] == Str(Raw("claimed")) && f[PrincipalId] == Str(principal)
  {
  }

  lemma RenewalFieldsRead(f: map<Field, Json>, previous: Text, l: Lease)
    requires f.Keys == {PrincipalId, PreviousLeaseDigest, LeaseDigest, LeaseField, Status}
    requires f[PreviousLeaseDigest] == Str(previous) && f[LeaseDigest] == Str(l.Digest())
    requires f[Status] == Str(Raw("claimed")) && LeaseFromJson(f[LeaseField]) == Some(l) && l.Valid()
    ensures DecodeRenewal(f) == Some(RenewBody(previous, l))
  {
  }

  /** And the scheduler writes exactly these fields. */
  lemma EncodingSpells(principal: Text, body: Body)
    ensures Encode(principal, body).Obj? && Spells(Encode(principal, body).fields, principal, body)
  {
  }
}
