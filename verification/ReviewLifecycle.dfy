/**
 The fenced review lifecycle: leases and their codec, the payload each event
 carries, and the one-event step that decides whether a history is accepted.
 */
module ReviewLifecycle {
  import opened Wrappers
  import opened Values
  import opened Events

  const MAX_FINDINGS := 64
  const LEASE_SCHEMA := Raw("review-lease/v1")
  const DISPATCH_AMBIGUOUS := Raw("review-dispatch-ambiguous")

  // ------------------------------------------------------------------ leases

  datatype Lease = Lease(
    runId: Text,
    reviewId: Text,
    attempt: int,
    fencingToken: int,
    workerId: Text,
    runEventId: Text,
    runEventDigest: Text,
    stateDigest: Text,
    evidenceDigest: Text,
    expiresAt: Time)
  {
    /** What construction enforces. */
    predicate Valid() {
      && IsIdentifier(runId) && IsIdentifier(reviewId) && IsIdentifier(workerId) && IsIdentifier(runEventId)
      && attempt >= 1 && fencingToken >= 1
      && IsDigest(runEventDigest) && IsDigest(stateDigest) && IsDigest(evidenceDigest)
    }

    function Digest(): Text {
      Sha256(LeasePayload(this))
    }
  }

  /** What a requeued review must keep from one claim to the next. */
  datatype ImmutableIdentity = ImmutableIdentity(
    runId: Text, reviewId: Text, runEventId: Text, runEventDigest: Text, stateDigest: Text, evidenceDigest: Text)

  function ImmutableOf(l: Lease): ImmutableIdentity {
    ImmutableIdentity(l.runId, l.reviewId, l.runEventId, l.runEventDigest, l.stateDigest, l.evidenceDigest)
  }

  /** What a renewal must keep: everything but the expiry. */
  predicate RenewalOf(renewed: Lease, l: Lease) {
    renewed == l.(expiresAt := renewed.expiresAt)
  }

  function ReviewId(runId: Text, runEventDigest: Text): Text {
    Joined(ReviewName, [runId, runEventDigest])
  }

  function ProviderRequest(leaseDigest: Text): Text {
    Joined(ProviderRequestName, [leaseDigest])
  }

  function LeasePayload(l: Lease): Json {
    Obj(map[
      SchemaVersion := Str(LEASE_SCHEMA),
      RunId := Str(l.runId),
      ReviewIdField := Str(l.reviewId),
      Attempt := Int(l.attempt),
      FencingToken := Int(l.fencingToken),
      WorkerId := Str(l.workerId),
      RunEventId := Str(l.runEventId),
      RunEventDigest := Str(l.runEventDigest),
      StateDigest := Str(l.stateDigest),
      ArtifactEvidenceDigest := Str(l.evidenceDigest),
      ExpiresAt := Str(Iso(l.expiresAt, 0))])
  }

  const LEASE_KEYS: set<Field> := {
    SchemaVersion, RunId, ReviewIdField, Attempt, FencingToken, WorkerId, RunEventId,
    RunEventDigest, StateDigest, ArtifactEvidenceDigest, ExpiresAt }

  function LeaseFromJson(value: Json): Option<Lease> {
    if !value.Obj? || value.fields.Keys != LEASE_KEYS then None
    else
      var f := value.fields;
      match (TextAt(f, RunId), TextAt(f, ReviewIdField), IntAt(f, Attempt), IntAt(f, FencingToken), TextAt(f, WorkerId))
      case (Some(run), Some(review), Some(attempt), Some(fence), Some(worker)) =>
        (match (TextAt(f, RunEventId), TextAt(f, RunEventDigest), TextAt(f, StateDigest),
                TextAt(f, ArtifactEvidenceDigest), TextAt(f, ExpiresAt))
         case (Some(event), Some(eventDigest), Some(state), Some(evidence), Some(Iso(at, _))) =>
           var l := Lease(run, review, attempt, fence, worker, event, eventDigest, state, evidence, at);
           if f[SchemaVersion] == Str(LEASE_SCHEMA) && l.Valid() then Some(l) else None
         case _ => None)
      case _ => None
  }

  /** Decoding undoes encoding for every valid lease. */
  lemma LeaseRoundTrip(l: Lease)
    requires l.Valid()
    ensures LeaseFromJson(LeasePayload(l)) == Some(l)
  {
    assert LeasePayload(l).fields.Keys == LEASE_KEYS;
  }

  /** The decoder is strict: what it accepts is the encoding, but for how the expiry is spelled. */
  lemma LeaseDecodeStrict(value: Json)
    requires LeaseFromJson(value).Some?
    ensures value.Obj? && value.fields.Keys == LEASE_KEYS
    ensures var l := LeaseFromJson(value).value;
            && l.Valid()
            && value.fields[ExpiresAt].Str? && value.fields[ExpiresAt].t.Iso? &&
              value.fields[ExpiresAt].t.at == l.expiresAt
            && value == Obj(LeasePayload(l).fields[ExpiresAt := value.fields[ExpiresAt]])
  {
    var l := LeaseFromJson(value).value;
    assert value.fields == LeasePayload(l).fields[ExpiresAt := value.fields[ExpiresAt]];
  }

  /** Equal digests mean equal leases, expiry included. */
  lemma LeaseDigestInjective(a: Lease, b: Lease)
    requires a.Digest() == b.Digest()
    ensures a == b
  {
    var f, g := LeasePayload(a).fields, LeasePayload(b).fields;
    assert f == g;
    assert f[RunId] == g[RunId] && f[ReviewIdField] == g[ReviewIdField] && f[WorkerId] == g[WorkerId];
    assert f[Attempt] == g[Attempt] && f[FencingToken] == g[FencingToken];
    assert f[RunEventId] == g[RunEventId] && f[RunEventDigest] == g[RunEventDigest];
    assert f[StateDigest] == g[StateDigest] && f[ArtifactEvidenceDigest] == g[ArtifactEvidenceDigest];
    assert f[ExpiresAt] == g[ExpiresAt];
  }

  // ---------------------------------------------------------------- payloads

  /** The review and the exact lease an event speaks about. */
  datatype Target = Target(runId: Text, reviewId: Text, leaseDigest: Text)

  function TargetOf(l: Lease): Target {
    Target(l.runId, l.reviewId, l.Digest())
  }

  /** What a review event says beside its principal. */
  datatype Body =
    | ClaimBody(lease: Lease)
    | RenewBody(previousDigest: Text, lease: Lease)
    | DispatchBody(target: Target, requestId: Text, acceptance: Text, context: Text)
    | SuccessBody(target: Target, context: Text, proposal: Text, providerResult: Text, admitted: Text, findings: int)
    | FailureBody(target: Target, code: Text, result: Option<Text>)
    | RequeueBody(target: Target)
    | AmbiguousBody(target: Target)
  {
    function Type(): EventType {
      match this
      case ClaimBody(_) => ReviewClaimed
      case RenewBody(_, _) => ReviewLeaseRenewed
      case DispatchBody(_, _, _, _) => ReviewProviderDispatchStarted
      case SuccessBody(_, _, _, _, _, _) => ReviewSucceeded
      case FailureBody(_, _, _) => ReviewFailed
      case RequeueBody(_) => ReviewRequeued
      case AmbiguousBody(_) => ReviewReconciliationRequired
    }

    /** The field checks a decoder makes. */
    predicate Valid() {
      match this
      case ClaimBody(lease) => lease.Valid()
      case RenewBody(_, lease) => lease.Valid()
      case DispatchBody(_, request, acceptance, context) =>
        IsIdentifier(request) && IsDigest(acceptance) && IsDigest(context)
      case SuccessBody(_, _, proposal, providerResult, admitted, findings) =>
        IsDigest(proposal) && IsDigest(providerResult) && IsDigest(admitted) && 0 <= findings <= MAX_FINDINGS
      case FailureBody(_, code, result) => IsFailureCode(code) && (result.Some? ==> IsDigest(result.value))
      case RequeueBody(_) => true
      case AmbiguousBody(_) => true
    }
  }

  function Txt(s: string): Json {
    Str(Raw(s))
  }

  /** The payload the scheduler writes for `body`. */
  function Encode(principal: Text, body: Body): Json {
    match body
    case ClaimBody(lease) => Obj(ClaimFields(principal, lease))
    case RenewBody(previous, lease) => Obj(RenewalFields(principal, previous, lease))
    case DispatchBody(target, request, acceptance, context) =>
      Obj(DispatchFields(principal, target, request, acceptance, context))
    case SuccessBody(target, context, proposal, providerResult, admitted, findings) =>
      Obj(SuccessFields(principal, target, context, proposal, providerResult, admitted, findings))
    case FailureBody(target, code, result) => Obj(FailureFields(principal, target, code, result))
    case RequeueBody(target) => Obj(RequeueFields(principal, target))
    case AmbiguousBody(target) => Obj(AmbiguousFields(principal, target))
  }

  function ClaimFields(principal: Text, lease: Lease): map<Field, Json> {
    map[PrincipalId := Str(principal), LeaseDigest := Str(lease.Digest()), LeaseField := LeasePayload(lease),
        Status := Txt("claimed")]
  }

  function RenewalFields(principal: Text, previous: Text, lease: Lease): map<Field, Json> {
    map[PrincipalId := Str(principal), PreviousLeaseDigest := Str(previous), LeaseDigest := Str(lease.Digest()),
        LeaseField := LeasePayload(lease), Status := Txt("claimed")]
  }

  function DispatchFields(principal: Text, t: Target, request: Text, acceptance: Text, context: Text)
    : map<Field, Json> {
    map[PrincipalId := Str(principal), RunId := Str(t.runId), ReviewIdField := Str(t.reviewId),
        LeaseDigest := Str(t.leaseDigest), ProviderRequestId := Str(request), AcceptanceDigest := Str(acceptance),
        ContextDigest := Str(context), ContextArtifactDigest := Str(context),
        Status := Txt("provider-dispatch-started")]
  }

  function SuccessFields(principal: Text, t: Target, context: Text, proposal: Text, providerResult: Text,
                         admitted: Text, findings: int): map<Field, Json>
  {
    map[PrincipalId := Str(principal), RunId := Str(t.runId), ReviewIdField := Str(t.reviewId),
        LeaseDigest := Str(t.leaseDigest), ContextDigest := Str(context), ProposalArtifactDigest := Str(proposal),
        ProviderResultArtifactDigest := Str(providerResult), AdmittedArtifactDigest := Str(admitted),
        FindingCount := Int(findings), Status := Txt("succeeded")]
  }

  function FailureFields(principal: Text, t: Target, code: Text, result: Option<Text>): map<Field, Json> {
    map[PrincipalId := Str(principal), RunId := Str(t.runId), ReviewIdField := Str(t.reviewId),
        LeaseDigest := Str(t.leaseDigest), FailureCode := Str(code),
        ResultArtifactDigest := (if result.Some? then Str(result.value) else Null), Status := Txt("reviewer-error")]
  }

  function RequeueFields(principal: Text, t: Target): map<Field, Json> {
    map[PrincipalId := Str(principal), RunId := Str(t.runId), ReviewIdField := Str(t.reviewId),
        LeaseDigest := Str(t.leaseDigest), Disposition := Txt("pre-dispatch"), Status := Txt("requeued")]
  }

  function AmbiguousFields(principal: Text, t: Target): map<Field, Json> {
    map[PrincipalId := Str(principal), RunId := Str(t.runId), ReviewIdField := Str(t.reviewId),
        LeaseDigest := Str(t.leaseDigest), FailureCode := Str(DISPATCH_AMBIGUOUS),
        Status := Txt("reconciliation-required")]
  }

  function TargetAt(f: map<Field, Json>): Option<Target> {
    match (TextAt(f, RunId), TextAt(f, ReviewIdField), TextAt(f, LeaseDigest))
    case (Some(run), Some(review), Some(digest)) => Some(Target(run, review, digest))
    case _ => None
  }

  function Checked(ok: bool, body: Body): Option<Body> {
    if ok && body.Valid() then Some(body) else None
  }

  /** The strict decoder: exact keys, the principal is the actor, every field well formed. */
  function Decode(t: EventType, actor: Text, payload: Json): Option<Body> {
    if !payload.Obj? || TextAt(payload.fields, PrincipalId) != Some(actor) || !IsIdentifier(actor) then None
    else DecodeFields(t, payload.fields)
  }

  function DecodeFields(t: EventType, f: map<Field, Json>): Option<Body> {
    match t
    case ReviewClaimed => DecodeClaim(f)
    case ReviewLeaseRenewed => DecodeRenewal(f)
    case ReviewProviderDispatchStarted => DecodeDispatch(f)
    case ReviewSucceeded => DecodeSuccess(f)
    case ReviewFailed => DecodeFailure(f)
    case ReviewRequeued => DecodeRequeue(f)
    case ReviewReconciliationRequired => DecodeAmbiguous(f)
    case _ => None
  }

  function DecodeClaim(f: map<Field, Json>): Option<Body> {
    if f.Keys != {PrincipalId, LeaseDigest, LeaseField, Status} then None
    else
      match LeaseFromJson(f[LeaseField])
      case None => None
      case Some(l) => Checked(f[LeaseDigest] == Str(l.Digest()) && f[Status] == Txt("claimed"), ClaimBody(l))
  }

  function DecodeRenewal(f: map<Field, Json>): Option<Body> {
    if f.Keys != {PrincipalId, PreviousLeaseDigest, LeaseDigest, LeaseField, Status} then None
    else
      match (LeaseFromJson(f[LeaseField]), TextAt(f, PreviousLeaseDigest))
      case (Some(l), Some(previous)) =>
        Checked(f[LeaseDigest] == Str(l.Digest()) && f[Status] == Txt("claimed"), RenewBody(previous, l))
      case _ => None
  }

  function DecodeDispatch(f: map<Field, Json>): Option<Body> {
    if f.Keys != {PrincipalId, RunId, ReviewIdField, LeaseDigest, Status, ProviderRequestId, AcceptanceDigest,
                  ContextDigest, ContextArtifactDigest} then None
    else
      match (TargetAt(f), TextAt(f, ProviderRequestId), TextAt(f, AcceptanceDigest), TextAt(f, ContextDigest))
      case (Some(target), Some(request), Some(acceptance), Some(context)) =>
        Checked(f[ContextArtifactDigest] == Str(context) && f[Status] == Txt("provider-dispatch-started"),
                DispatchBody(target, request, acceptance, context))
      case _ => None
  }

  function DecodeSuccess(f: map<Field, Json>): Option<Body> {
    if f.Keys != {PrincipalId, RunId, ReviewIdField, LeaseDigest, Status, ContextDigest, ProposalArtifactDigest,
                  ProviderResultArtifactDigest, AdmittedArtifactDigest, FindingCount} then None
    else
      match (TargetAt(f), TextAt(f, ContextDigest), TextAt(f, ProposalArtifactDigest),
             TextAt(f, ProviderResultArtifactDigest), TextAt(f, AdmittedArtifactDigest), IntAt(f, FindingCount))
      case (Some(target), Some(context), Some(proposal), Some(providerResult), Some(admitted), Some(findings)) =>
        Checked(f[Status] == Txt("succeeded"),
                SuccessBody(target, context, proposal, providerResult, admitted, findings))
      case _ => None
  }

  function DecodeFailure(f: map<Field, Json>): Option<Body> {
    if f.Keys != {PrincipalId, RunId, ReviewIdField, LeaseDigest, Status, FailureCode, ResultArtifactDigest} then None
    else
      match (TargetAt(f), TextAt(f, FailureCode))
      case (Some(target), Some(code)) =>
        var r := f[ResultArtifactDigest];
        Checked((r == Null || r.Str?) && f[Status] == Txt("reviewer-error"),
                FailureBody(target, code, if r.Str? then Some(r.t) else None))
      case _ => None
  }

  function DecodeRequeue(f: map<Field, Json>): Option<Body> {
    if f.Keys != {PrincipalId, RunId, ReviewIdField, LeaseDigest, Status, Disposition} then None
    else
      match TargetAt(f)
      case Some(target) =>
        Checked(f[Disposition] == Txt("pre-dispatch") && f[Status] == Txt("requeued"), RequeueBody(target))
      case None => None
  }

  function DecodeAmbiguous(f: map<Field, Json>): Option<Body> {
    if f.Keys != {PrincipalId, RunId, ReviewIdField, LeaseDigest, Status, FailureCode} then None
    else
      match TargetAt(f)
      case Some(target) =>
        Checked(f[FailureCode] == Str(DISPATCH_AMBIGUOUS) && f[Status] == Txt("reconciliation-required"),
                AmbiguousBody(target))
      case None => None
  }

  lemma ClaimRoundTrip(principal: Text, lease: Lease)
    requires lease.Valid()
    ensures DecodeClaim(ClaimFields(principal, lease)) == Some(ClaimBody(lease))
  {
    LeaseRoundTrip(lease);
  }

  lemma RenewalRoundTrip(principal: Text, previous: Text, lease: Lease)
    requires lease.Valid()
    ensures DecodeRenewal(RenewalFields(principal, previous, lease)) == Some(RenewBody(previous, lease))
  {
    LeaseRoundTrip(lease);
  }

  lemma DispatchRoundTrip(principal: Text, t: Target, request: Text, acceptance: Text, context: Text)
    ensures DecodeDispatch(DispatchFields(principal, t, request, acceptance, context))
            == Checked(true, DispatchBody(t, request, acceptance, context))
  {
  }

  lemma SuccessRoundTrip(principal: Text, t: Target, context: Text, proposal: Text, providerResult: Text,
                         admitted: Text, findings: int)
    ensures DecodeSuccess(SuccessFields(principal, t, context, proposal, providerResult, admitted, findings))
            == Checked(true, SuccessBody(t, context, proposal, providerResult, admitted, findings))
  {
  }

  lemma FailureRoundTrip(principal: Text, t: Target, code: Text, result: Option<Text>)
    ensures DecodeFailure(FailureFields(principal, t, code, result)) == Checked(true, FailureBody(t, code, result))
  {
  }

  lemma HostRoundTrip(principal: Text, t: Target)
    ensures DecodeRequeue(RequeueFields(principal, t)) == Some(RequeueBody(t))
    ensures DecodeAmbiguous(AmbiguousFields(principal, t)) == Some(AmbiguousBody(t))
  {
  }

  predicate RoundTrips(principal: Text, body: Body) {
    Decode(body.Type(), principal, Encode(principal, body)) == Some(body)
  }

  lemma LeaseBodyRoundTrip(principal: Text, body: Body)
    requires body.Valid() && IsIdentifier(principal) && (body.ClaimBody? || body.RenewBody?)
    ensures RoundTrips(principal, body)
  {
    if body.ClaimBody? {
      ClaimRoundTrip(principal, body.lease);
      NamesActor(ReviewClaimed, principal, ClaimFields(principal, body.lease));
    } else {
      RenewalRoundTrip(principal, body.previousDigest, body.lease);
      NamesActor(ReviewLeaseRenewed, principal, RenewalFields(principal, body.previousDigest, body.lease));
    }
  }

  /** A payload that names its actor is decoded by its fields. */
  lemma NamesActor(t: EventType, principal: Text, f: map<Field, Json>)
    requires IsIdentifier(principal) && PrincipalId in f && f[PrincipalId] == Str(principal)
    ensures Decode(t, principal, Obj(f)) == DecodeFields(t, f)
  {
  }

  lemma DispatchBodyRoundTrip(principal: Text, body: Body)
    requires body.Valid() && IsIdentifier(principal) && (body.DispatchBody?)
    ensures RoundTrips(principal, body)
  {
    DispatchRoundTrip(principal, body.target, body.requestId, body.acceptance, body.context);
  }

  lemma SuccessBodyRoundTrip(principal: Text, body: Body)
    requires body.Valid() && IsIdentifier(principal) && (body.SuccessBody?)
    ensures RoundTrips(principal, body)
  {
    SuccessRoundTrip(principal, body.target, body.context, body.proposal, body.providerResult, body.admitted,
                     body.findings);
  }

  lemma FailureBodyRoundTrip(principal: Text, body: Body)
    requires body.Valid() && IsIdentifier(principal) && (body.FailureBody?)
    ensures RoundTrips(principal, body)
  {
    FailureRoundTrip(principal, body.target, body.code, body.result);
  }

  lemma HostBodyRoundTrip(principal: Text, body: Body)
    requires body.Valid() && IsIdentifier(principal) && (body.RequeueBody? || body.AmbiguousBody?)
    ensures RoundTrips(principal, body)
  {
    HostRoundTrip(principal, body.target);
  }

  /** What the scheduler writes is what the fold reads. */
  lemma BodyRoundTrip(principal: Text, body: Body)
    requires body.Valid() && IsIdentifier(principal)
    ensures RoundTrips(principal, body)
  {
    match body {
      case ClaimBody(_) => LeaseBodyRoundTrip(principal, body);
      case RenewBody(_, _) => LeaseBodyRoundTrip(principal, body);
      case DispatchBody(_, _, _, _) => DispatchBodyRoundTrip(principal, body);
      case SuccessBody(_, _, _, _, _, _) => SuccessBodyRoundTrip(principal, body);
      case FailureBody(_, _, _) => FailureBodyRoundTrip(principal, body);
      case _ => HostBodyRoundTrip(principal, body);
    }
  }

  // -------------------------------------------------------------------- step

  datatype LifecycleStatus =
    | Claimed | ProviderDispatched | Succeeded | Failed | Requeued | ReconciliationRequired

  datatype State = State(
    runId: Text,
    reviewId: Text,
    status: LifecycleStatus,
    lease: Lease,
    acceptance: Option<Text>,
    context: Option<Text>,
    providerRequestId: Option<Text>,
    dispatchEventId: Option<Text>,
    proposal: Option<Text>,
    providerResult: Option<Text>,
    admitted: Option<Text>,
    findings: Option<int>,
    failureCode: Option<Text>,
    resultArtifact: Option<Text>,
    latest: Event)
  {
    predicate Active() {
      status == Claimed || status == ProviderDispatched
    }
  }

  predicate IsReviewType(t: EventType) {
    match t
    case ReviewClaimed | ReviewLeaseRenewed | ReviewProviderDispatchStarted | ReviewSucceeded
       | ReviewFailed | ReviewRequeued | ReviewReconciliationRequired => true
    case _ => false
  }

  /** Event `e` continues the stream of `runId` after `previous`. */
  predicate Chained(runId: Text, previous: Option<Event>, e: Event) {
    && e.streamId == ReviewStream(runId)
    && e.schemaVersion == 1
    && e.source == RuntimeSource
    && IsReviewType(e.eventType)
    && match previous
       case None => e.streamSequence == 1
       case Some(p) =>
         e.streamSequence == p.streamSequence + 1 && e.correlationId == p.correlationId
         && e.causationId == Some(p.eventId)
  }

  /** The event names the state's exact lease, in the status it must find. */
  predicate Names(target: Target, state: State, status: LifecycleStatus) {
    state.status == status && target == TargetOf(state.lease)
  }

  /** A worker's event: the lease's own worker, no later than expiry unless that is allowed. */
  predicate ByHolder(e: Event, target: Target, state: State, status: LifecycleStatus, allowExpired: bool) {
    && Names(target, state, status)
    && e.actor == state.lease.workerId
    && (allowExpired || e.recordedAt <= state.lease.expiresAt.instant)
  }

  /** Whether `e`, carrying `body`, is accepted after `previous`. */
  predicate Admits(runId: Text, previous: Option<State>, e: Event, body: Body) {
    match body
    case ClaimBody(lease) =>
      && lease.runId == runId
      && lease.workerId == e.actor
      && lease.expiresAt.instant > e.recordedAt
      && (match previous
          case None => e.causationId == Some(lease.runEventId) && lease.attempt == 1 && lease.fencingToken == 1
          case Some(s) =>
            && s.status == Requeued
            && lease.attempt == s.lease.attempt + 1
            && lease.fencingToken == s.lease.fencingToken + 1
            && ImmutableOf(lease) == ImmutableOf(s.lease))
    case RenewBody(previousDigest, lease) =>
      && previous.Some?
      && previous.value.status == Claimed
      && e.actor == previous.value.lease.workerId
      && previousDigest == previous.value.lease.Digest()
      && lease.expiresAt.instant > e.recordedAt
      && lease.expiresAt.instant > previous.value.lease.expiresAt.instant
      && RenewalOf(lease, previous.value.lease)
    case DispatchBody(target, request, _, _) =>
      && previous.Some?
      && ByHolder(e, target, previous.value, Claimed, false)
      && request == ProviderRequest(previous.value.lease.Digest())
    case SuccessBody(target, context, _, _, _, _) =>
      && previous.Some?
      && ByHolder(e, target, previous.value, ProviderDispatched, false)
      && previous.value.context == Some(context)
    case FailureBody(target, _, _) =>
      && previous.Some?
      && previous.value.Active()
      && ByHolder(e, target, previous.value, previous.value.status, true)
    case RequeueBody(target) => previous.Some? && Names(target, previous.value, Claimed)
    case AmbiguousBody(target) => previous.Some? && Names(target, previous.value, ProviderDispatched)
  }

  /** The state after an accepted event. */
  function After(runId: Text, previous: Option<State>, e: Event, body: Body): State
    requires !body.ClaimBody? ==> previous.Some?
  {
    match body
    case ClaimBody(lease) =>
      State(runId, lease.reviewId, Claimed, lease, None, None, None, None, None, None, None, None, None, None, e)
    case RenewBody(_, lease) => previous.value.(lease := lease, latest := e)
    case DispatchBody(_, request, acceptance, context) =>
      previous.value.(status := ProviderDispatched, acceptance := Some(acceptance), context := Some(context),
                      providerRequestId := Some(request), dispatchEventId := Some(e.eventId), latest := e)
    case SuccessBody(_, _, proposal, providerResult, admitted, findings) =>
      previous.value.(status := Succeeded, proposal := Some(proposal), providerResult := Some(providerResult),
                      admitted := Some(admitted), findings := Some(findings), latest := e)
    case FailureBody(_, code, result) =>
      previous.value.(status := Failed, failureCode := Some(code), resultArtifact := result, latest := e)
    case RequeueBody(_) => previous.value.(status := Requeued, latest := e)
    case AmbiguousBody(_) =>
      previous.value.(status := ReconciliationRequired, failureCode := Some(DISPATCH_AMBIGUOUS), latest := e)
  }

  /** The body of a review event, when its payload is well formed. */
  function BodyOf(e: Event): Option<Body> {
    Decode(e.eventType, e.actor, e.payload)
  }

  function LatestOf(previous: Option<State>): Option<Event> {
    match previous case None => None case Some(s) => Some(s.latest)
  }

  /** One event: the only thing that decides whether a longer history is accepted. */
  function Step(runId: Text, previous: Option<State>, e: Event): Option<State> {
    match BodyOf(e)
    case None => None
    case Some(body) =>
      if Chained(runId, LatestOf(previous), e) && Admits(runId, previous, e, body) then
        Some(After(runId, previous, e, body))
      else None
  }

  /** The accepted state of a whole history, when there is one. */
  function Fold(runId: Text, events: seq<Event>): Option<State> {
    if events == [] then None
    else
      var prior := events[..|events| - 1];
      if prior != [] && Fold(runId, prior).None? then None
      else Step(runId, Fold(runId, prior), events[|events| - 1])
  }

  /** A stored review stream is in order when it is empty or accepted. */
  predicate Accepted(runId: Text, events: seq<Event>) {
    events == [] || Fold(runId, events).Some?
  }
}
