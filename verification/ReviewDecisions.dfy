/**
 Exactly when each worker call is decided, what it is refused with otherwise, and the event it
 submits, read off the ledger and the arguments of the call.
 */
module ReviewDecisions {
  import opened Wrappers
  import opened Sequences
  import opened Values
  import opened Events
  import opened Ledgers
  import opened LedgerLaws
  import opened LedgerReads
  import opened ReviewLifecycle
  import opened ReviewLaws
  import opened ReviewRuntime
  import opened ReviewProtocol
  import opened ReviewProgress
  import ReviewClients
  import opened ReviewCorrelation

  // ---------------------------------------------------------------- the events submitted

  /** `e` is event number `n` of a review, by `actor`, keyed by `format` over `parts`, saying `body`. */
  ghost predicate Says(e: Event, runId: Text, n: int, actor: Text, cause: Text, stamp: Stamp, format: Format,
                       parts: seq<Text>, body: Body)
  {
    && e.eventId == stamp.id && e.streamId == ReviewStream(runId) && e.streamSequence == n && e.schemaVersion == 1
    && e.recordedAt == e.effectiveAt == stamp.at && e.causationId == Some(cause) && e.actor == actor
    && e.source == RuntimeSource && e.idempotencyKey == Some(Joined(format, parts)) && e.globalPosition == None
    && BodyOf(e) == Some(body)
  }

  /** `e` continues the review whose last event is `latest`. */
  ghost predicate Continues(e: Event, latest: Event, actor: Text, stamp: Stamp, format: Format, parts: seq<Text>,
                            body: Body)
  {
    && latest.streamId.ReviewStream? && e.correlationId == latest.correlationId
    && Says(e, latest.streamId.run, latest.streamSequence + 1, actor, latest.eventId, stamp, format, parts, body)
  }

  lemma ComposedSays(runId: Text, n: int, body: Body, actor: Text, correlation: Text, cause: Text, format: Format,
                     parts: seq<Text>, stamp: Stamp)
    requires body.Valid() && IsIdentifier(actor)
    ensures var e := Compose(runId, n, body, actor, correlation, cause, Joined(format, parts), stamp);
            Says(e, runId, n, actor, cause, stamp, format, parts, body)
            && e.correlationId == correlation && e.eventType == body.Type()
  {
    ComposedBody(runId, n, body, actor, correlation, cause, Joined(format, parts), stamp);
  }

  lemma {:induction false} TransitionContinues(runId: Text, existing: seq<Event>, body: Body, actor: Text,
                                               format: Format, parts: seq<Text>, stamp: Stamp)
    requires Fold(runId, existing).Some? && body.Valid() && IsIdentifier(actor)
    ensures var s := Fold(runId, existing).value;
            existing != []
            && Continues(Transition(s, body, actor, Joined(format, parts), stamp), Last(existing), actor, stamp,
                         format, parts, body)
  {
    var s := Fold(runId, existing).value;
    FoldConsistent(runId, existing);
    HistoryChained(runId, existing, |existing| - 1);
    ComposedSays(s.runId, s.latest.streamSequence + 1, body, actor, s.latest.correlationId, s.latest.eventId, format,
                 parts, stamp);
  }

  // ---------------------------------------------------------------- claims

  /** A stored success of the candidate's run that the candidate speaks about, by someone other than `worker`. */
  ghost predicate Reviewable(log: seq<Event>, candidate: Candidate, worker: Text) {
    exists run :: && run in log && run.eventId == candidate.runEventId
                  && Executed(run, candidate.runId, candidate.runEventDigest, candidate.correlationId, worker)
                  && run.payload.Obj? && RunId in run.payload.fields && Status in run.payload.fields
                  && run.payload.fields[RunId] == Str(candidate.runId)
                  && run.payload.fields[Status] == Str(Raw("succeeded"))
  }

  /** No review yet, or one that was requeued and is about the very same execution. */
  ghost predicate Claimable(log: seq<Event>, candidate: Candidate) {
    var existing := ReviewOf(log, candidate.runId);
    existing == []
    || (var folded := Fold(candidate.runId, existing);
        && folded.Some? && folded.value.status == Requeued
        && folded.value.lease.runId == candidate.runId && folded.value.lease.reviewId == candidate.reviewId
        && folded.value.lease.runEventId == candidate.runEventId
        && folded.value.lease.runEventDigest == candidate.runEventDigest
        && folded.value.lease.stateDigest == candidate.stateDigest
        && folded.value.lease.evidenceDigest == candidate.evidenceDigest)
  }

  function ClaimOf(log: seq<Event>, candidate: Candidate, worker: Text, expiresAt: Time, stamp: Stamp)
    : Result<Pending, Failure>
  {
    ReviewClients.Decide(log, ReviewClients.ClaimRequest(candidate, worker, expiresAt, stamp))
  }

  lemma {:induction false} ReviewableExactly(log: seq<Event>, candidate: Candidate, worker: Text)
    requires IdsUnique(log)
    ensures var run := ById(log, candidate.runEventId);
            Reviewable(log, candidate, worker)
            <==> run.Some? && IsExecutionEvent(run.value, candidate) && run.value.actor != worker
  {
    ByIdMeaning(log, candidate.runEventId);
    if Reviewable(log, candidate, worker) {
      var run :| && run in log && run.eventId == candidate.runEventId
                 && Executed(run, candidate.runId, candidate.runEventDigest, candidate.correlationId, worker)
                 && run.payload.Obj? && RunId in run.payload.fields && Status in run.payload.fields
                 && run.payload.fields[RunId] == Str(candidate.runId)
                 && run.payload.fields[Status] == Str(Raw("succeeded"));
      SameId(log, run, ById(log, candidate.runEventId).value);
    }
  }

  lemma SameId(log: seq<Event>, a: Event, b: Event)
    requires IdsUnique(log) && a in log && b in log && a.eventId == b.eventId
    ensures a == b
  {
    var i :| 0 <= i < |log| && log[i] == a;
    var j :| 0 <= j < |log| && log[j] == b;
  }

  lemma ClaimableExactly(log: seq<Event>, candidate: Candidate)
    ensures var existing := ReviewOf(log, candidate.runId);
            var previous := Fold(candidate.runId, existing);
            Claimable(log, candidate)
            <==> existing == [] || (previous.Some? && previous.value.status == Requeued
                                    && candidate.Identity() == ImmutableOf(previous.value.lease))
  {
  }

  /**
   Exactly when a claim is decided: the worker is an identifier, the lease ends in the future, the
   execution can be reviewed by this worker, and the review can be claimed.
   */
  lemma ClaimExactly(log: seq<Event>, candidate: Candidate, worker: Text, expiresAt: Time, stamp: Stamp)
    requires IdsUnique(log)
    ensures var r := ClaimOf(log, candidate, worker, expiresAt, stamp);
            var asked := IsIdentifier(worker) && stamp.at < expiresAt.instant;
            && (r.Ok? <==> asked && Reviewable(log, candidate, worker) && Claimable(log, candidate))
            && (r.Err? ==> r.error == if asked then Conflict else InvalidRequest)
  {
    ReviewableExactly(log, candidate, worker);
    ClaimableExactly(log, candidate);
  }

  /**
   What a decided claim grants and submits: a lease on the candidate for this worker until that
   time, one attempt and one fencing token after the last claim, and the event that says so.
   */
  lemma ClaimGrants(log: seq<Event>, candidate: Candidate, worker: Text, expiresAt: Time, stamp: Stamp)
    requires candidate.Valid() && ClaimOf(log, candidate, worker, expiresAt, stamp).Ok?
    ensures var pending := ClaimOf(log, candidate, worker, expiresAt, stamp).value;
            var existing := ReviewOf(log, candidate.runId);
            var n := Count(existing, ReviewClaimed) + 1;
            var cause := if existing == [] then candidate.runEventId else Last(existing).eventId;
            && pending.lease == Lease(candidate.runId, candidate.reviewId, n, n, worker, candidate.runEventId,
                                      candidate.runEventDigest, candidate.stateDigest, candidate.evidenceDigest,
                                      expiresAt)
            && pending.event.correlationId == candidate.correlationId
            && Says(pending.event, candidate.runId, |existing| + 1, worker, cause, stamp, ClaimKey,
                    [pending.lease.Digest()], ClaimBody(pending.lease))
  {
    ClaimLeases(log, candidate, worker, expiresAt, stamp);
    var existing := ReviewOf(log, candidate.runId);
    var previous := Fold(candidate.runId, existing);
    var lease := ClaimOf(log, candidate, worker, expiresAt, stamp).value.lease;
    ComposedSays(candidate.runId, |existing| + 1, ClaimBody(lease), worker, candidate.correlationId,
                 if previous.None? then candidate.runEventId else previous.value.latest.eventId, ClaimKey,
                 [lease.Digest()], stamp);
  }

  lemma ClaimLeases(log: seq<Event>, candidate: Candidate, worker: Text, expiresAt: Time, stamp: Stamp)
    requires candidate.Valid() && ClaimOf(log, candidate, worker, expiresAt, stamp).Ok?
    ensures var pending := ClaimOf(log, candidate, worker, expiresAt, stamp).value;
            var existing := ReviewOf(log, candidate.runId);
            var previous, n := Fold(candidate.runId, existing), Count(existing, ReviewClaimed) + 1;
            && IsIdentifier(worker) && (existing == [] <==> previous.None?)
            && (previous.Some? ==> existing != [] && previous.value.latest == Last(existing))
            && pending.lease == Lease(candidate.runId, candidate.reviewId, n, n, worker, candidate.runEventId,
                                      candidate.runEventDigest, candidate.stateDigest, candidate.evidenceDigest,
                                      expiresAt)
            && pending.lease.Valid()
            && pending.event == Compose(candidate.runId, |existing| + 1, ClaimBody(pending.lease), worker,
                                        candidate.correlationId,
                                        if previous.None? then candidate.runEventId else previous.value.latest.eventId,
                                        Joined(ClaimKey, [pending.lease.Digest()]), stamp)
  {
    if ReviewOf(log, candidate.runId) != [] {
      FoldConsistent(candidate.runId, ReviewOf(log, candidate.runId));
    }
  }

  // ---------------------------------------------------------------- calls under a lease

  /** The review is open under exactly this lease, which `principal` holds, in one of `statuses`. */
  ghost predicate Held(lease: Lease, principal: Text, statuses: set<LifecycleStatus>, existing: seq<Event>) {
    var folded := Fold(lease.runId, existing);
    folded.Some? && folded.value.lease == lease && lease.workerId == principal && folded.value.status in statuses
  }

  /** What a call under a lease is refused with before its own checks, if it is. */
  ghost function Refusal(lease: Lease, principal: Text, statuses: set<LifecycleStatus>, existing: seq<Event>)
    : Option<Failure>
  {
    if !IsIdentifier(principal) then Some(InvalidRequest)
    else if existing == [] then Some(NotFound)
    else if !Held(lease, principal, statuses, existing) then Some(Conflict)
    else None
  }

  lemma {:induction false} ActiveExactly(lease: Lease, principal: Text, expected: Option<LifecycleStatus>,
                                         existing: seq<Event>)
    requires lease.Valid()
    ensures var statuses := if expected.Some? then {expected.value} else {Claimed, ProviderDispatched};
            match RequireActive(lease, principal, expected, existing)
            case Ok(s) => Refusal(lease, principal, statuses, existing).None? && Fold(lease.runId, existing) == Some(s)
            case Err(e) => Refusal(lease, principal, statuses, existing) == Some(e)
  {
    if Fold(lease.runId, existing).Some? && Fold(lease.runId, existing).value.lease.Digest() == lease.Digest() {
      LeaseDigestInjective(Fold(lease.runId, existing).value.lease, lease);
    }
  }

  /** A renewal is decided exactly for the holder of a claimed review, to a later time that lies in the future. */
  lemma RenewExactly(lease: Lease, expiresAt: Time, principal: Text, stamp: Stamp, existing: seq<Event>)
    requires lease.Valid()
    ensures var r := Renew(lease, expiresAt, principal, stamp, existing);
            var refusal := Refusal(lease, principal, {Claimed}, existing);
            var later := stamp.at < expiresAt.instant && lease.expiresAt.instant < expiresAt.instant;
            && (r.Ok? <==> refusal.None? && later)
            && (r.Err? ==> r.error == if refusal.Some? then refusal.value else InvalidRequest)
            && (r.Ok? ==>
                  var renewed := lease.(expiresAt := expiresAt);
                  && existing != [] && r.value.lease == renewed
                  && Continues(r.value.event, Last(existing), principal, stamp, RenewKey,
                               [lease.Digest(), renewed.Digest()], RenewBody(lease.Digest(), renewed)))
  {
    ActiveExactly(lease, principal, Some(Claimed), existing);
    if Renew(lease, expiresAt, principal, stamp, existing).Ok? {
      var renewed := lease.(expiresAt := expiresAt);
      TransitionContinues(lease.runId, existing, RenewBody(lease.Digest(), renewed), principal, RenewKey,
                          [lease.Digest(), renewed.Digest()], stamp);
    }
  }

  /**
   A dispatch is decided exactly for the holder of a claimed review, not after the lease ends, with
   three digests of which the context and its artifact agree.
   */
  lemma DispatchExactly(lease: Lease, acceptance: Text, context: Text, artifact: Text, principal: Text, stamp: Stamp,
                        existing: seq<Event>)
    requires lease.Valid()
    ensures var r := Dispatch(lease, acceptance, context, artifact, principal, stamp, existing);
            var refusal := Refusal(lease, principal, {Claimed}, existing);
            var digests := IsDigest(acceptance) && IsDigest(context) && IsDigest(artifact);
            && (r.Ok? <==> refusal.None? && digests && context == artifact && stamp.at <= lease.expiresAt.instant)
            && (r.Err? ==>
                  r.error == if refusal.Some? then refusal.value else if digests then Conflict else InvalidRequest)
            && (r.Ok? ==>
                  && existing != [] && r.value.lease == lease
                  && Continues(r.value.event, Last(existing), principal, stamp, DispatchKey, [lease.Digest()],
                               DispatchBody(Target(lease.runId, lease.reviewId, lease.Digest()),
                                            Joined(ProviderRequestName, [lease.Digest()]), acceptance, context)))
  {
    ActiveExactly(lease, principal, Some(Claimed), existing);
    if Dispatch(lease, acceptance, context, artifact, principal, stamp, existing).Ok? {
      TransitionContinues(lease.runId, existing,
                          DispatchBody(TargetOf(lease), ProviderRequest(lease.Digest()), acceptance, context),
                          principal, DispatchKey, [lease.Digest()], stamp);
    }
  }

  /**
   A success is decided exactly for the holder of a dispatched review, not after the lease ends,
   under the context that was dispatched, with digests and a number of findings in range.
   */
  lemma {:induction false} SuccessExactly(lease: Lease, context: Text, proposal: Text, providerResult: Text,
                                          admitted: Text, findings: int, principal: Text, stamp: Stamp,
                                          existing: seq<Event>)
    requires lease.Valid()
    ensures var r := Succeed(lease, context, proposal, providerResult, admitted, findings, principal, stamp, existing);
            var refusal := Refusal(lease, principal, {ProviderDispatched}, existing);
            var formed := IsDigest(context) && IsDigest(proposal) && IsDigest(providerResult) && IsDigest(admitted)
                          && 0 <= findings <= 64;
            && (r.Ok? <==> refusal.None? && formed && stamp.at <= lease.expiresAt.instant
                           && Fold(lease.runId, existing).value.context == Some(context))
            && (r.Err? ==>
                  r.error == if refusal.Some? then refusal.value else if formed then Conflict else InvalidRequest)
            && (r.Ok? ==>
                  && existing != [] && r.value.lease == lease
                  && Continues(r.value.event, Last(existing), principal, stamp, SuccessKey, [lease.Digest()],
                               SuccessBody(Target(lease.runId, lease.reviewId, lease.Digest()), context, proposal,
                                           providerResult, admitted, findings)))
  {
    ActiveExactly(lease, principal, Some(ProviderDispatched), existing);
    if Succeed(lease, context, proposal, providerResult, admitted, findings, principal, stamp, existing).Ok? {
      TransitionContinues(lease.runId, existing,
                          SuccessBody(TargetOf(lease), context, proposal, providerResult, admitted, findings),
                          principal, SuccessKey, [lease.Digest()], stamp);
    }
  }

  /** A failure is decided exactly for the holder of an open review, expired or not, when it is well formed. */
  lemma FailureExactly(lease: Lease, code: Text, result: Option<Text>, principal: Text, stamp: Stamp,
                       existing: seq<Event>)
    requires lease.Valid()
    ensures var r := Fail(lease, code, result, principal, stamp, existing);
            var refusal := Refusal(lease, principal, {Claimed, ProviderDispatched}, existing);
            var formed := IsFailureCode(code) && (result.Some? ==> IsDigest(result.value));
            && (r.Ok? <==> refusal.None? && formed)
            && (r.Err? ==> r.error == if refusal.Some? then refusal.value else InvalidRequest)
            && (r.Ok? ==>
                  && existing != [] && r.value.lease == lease
                  && Continues(r.value.event, Last(existing), principal, stamp, FailureKey, [lease.Digest()],
                               FailureBody(Target(lease.runId, lease.reviewId, lease.Digest()), code, result)))
  {
    ActiveExactly(lease, principal, None, existing);
    if Fail(lease, code, result, principal, stamp, existing).Ok? {
      TransitionContinues(lease.runId, existing, FailureBody(TargetOf(lease), code, result), principal, FailureKey,
                          [lease.Digest()], stamp);
    }
  }

  /** Reconciliation refuses its own open review, requeues a claimed one, marks a dispatched one, leaves the rest. */
  lemma {:induction false} ReconcileExactly(runId: Text, existing: seq<Event>, principal: Text, stamp: Stamp)
    requires Fold(runId, existing).Some? && IsIdentifier(principal)
    ensures var s := Fold(runId, existing).value;
            var target := Target(s.lease.runId, s.lease.reviewId, s.lease.Digest());
            match Reconcile(s, principal, stamp)
            case Err(e) => e == Conflict && s.status in {Claimed, ProviderDispatched} && s.lease.workerId == principal
            case Ok(Leave) => s.status !in {Claimed, ProviderDispatched}
            case Ok(Requeue(event)) =>
              && s.status == Claimed && s.lease.workerId != principal && existing != []
              && Continues(event, Last(existing), principal, stamp, RequeueKey, [s.lease.Digest()], RequeueBody(target))
            case Ok(MarkAmbiguous(event)) =>
              && s.status == ProviderDispatched && s.lease.workerId != principal && existing != []
              && Continues(event, Last(existing), principal, stamp, ReconciliationKey, [s.lease.Digest()],
                           AmbiguousBody(target))
  {
    var s := Fold(runId, existing).value;
    TransitionContinues(runId, existing, RequeueBody(TargetOf(s.lease)), principal, RequeueKey, [s.lease.Digest()],
                        stamp);
    TransitionContinues(runId, existing, AmbiguousBody(TargetOf(s.lease)), principal, ReconciliationKey,
                        [s.lease.Digest()], stamp);
  }
}
