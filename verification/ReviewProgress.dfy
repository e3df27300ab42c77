/**
 What the scheduler's decisions lead to: the event each of them composes is one the
 fold accepts, and the state it leads to is the one the call is for.
 */
module ReviewProgress {
  import opened Wrappers
  import opened Values
  import opened Events
  import opened Ledgers
  import opened LedgerLaws
  import opened ReviewLifecycle
  import opened ReviewLaws
  import opened ReviewRuntime
  import opened ReviewProtocol

  /** A composed event carries its body, and continues what it says it continues. */
  lemma ComposedBody(runId: Text, sequence: int, body: Body, actor: Text, correlation: Text, cause: Text, key: Text,
                     stamp: Stamp)
    requires IsIdentifier(actor) && body.Valid()
    ensures BodyOf(Compose(runId, sequence, body, actor, correlation, cause, key, stamp)) == Some(body)
  {
    BodyRoundTrip(actor, body);
  }

  /** An event that carries an admitted body on the chain extends the fold. */
  lemma {:induction false} AdmittedFolds(runId: Text, existing: seq<Event>, s: State, e: Event, body: Body)
    requires Fold(runId, existing) == Some(s) && BodyOf(e) == Some(body)
    requires Chained(runId, Some(s.latest), e) && Admits(runId, Some(s), e, body)
    ensures Fold(runId, existing + [e]) == Some(After(runId, Some(s), e, body))
  {
    FoldPush(runId, existing, e);
    assert Step(runId, Some(s), e) == Some(After(runId, Some(s), e, body));
  }

  lemma TransitionCarries(s: State, body: Body, principal: Text, key: Text, stamp: Stamp)
    requires IsIdentifier(principal) && body.Valid()
    ensures BodyOf(Transition(s, body, principal, key, stamp)) == Some(body)
  {
    ComposedBody(s.runId, s.latest.streamSequence + 1, body, principal, s.latest.correlationId, s.latest.eventId, key,
                 stamp);
  }

  lemma TransitionChained(runId: Text, s: State, body: Body, principal: Text, key: Text, stamp: Stamp)
    requires s.runId == runId
    ensures Chained(runId, Some(s.latest), Transition(s, body, principal, key, stamp))
  {
  }

  /** The event that continues a state leads where its body says, when the state admits it. */
  lemma {:induction false} TransitionFolds(runId: Text, existing: seq<Event>, s: State, body: Body, principal: Text,
                                           key: Text, stamp: Stamp)
    requires Fold(runId, existing) == Some(s) && IsIdentifier(principal) && body.Valid()
    requires Admits(runId, Some(s), Transition(s, body, principal, key, stamp), body)
    ensures Fold(runId, existing + [Transition(s, body, principal, key, stamp)])
            == Some(After(runId, Some(s), Transition(s, body, principal, key, stamp), body))
  {
    FoldConsistent(runId, existing);
    TransitionCarries(s, body, principal, key, stamp);
    TransitionChained(runId, s, body, principal, key, stamp);
    AdmittedFolds(runId, existing, s, Transition(s, body, principal, key, stamp), body);
  }

  /** What the active-lease check guarantees: the presented lease is the stream's own. */
  lemma {:induction false} ActiveLeaseIsCurrent(lease: Lease, principal: Text, expected: Option<LifecycleStatus>,
                                                existing: seq<Event>)
    requires lease.Valid() && RequireActive(lease, principal, expected, existing).Ok?
    ensures var s := RequireActive(lease, principal, expected, existing).value;
            && Fold(lease.runId, existing) == Some(s) && s.lease == lease && s.runId == lease.runId
            && s.lease.workerId == principal && IsIdentifier(principal)
            && (if expected.Some? then s.status == expected.value else s.Active())
  {
    var s := RequireActive(lease, principal, expected, existing).value;
    FoldConsistent(lease.runId, existing);
    LeaseDigestInjective(s.lease, lease);
  }

  /** A renewal leads to the same claimed review under the renewed lease. */
  lemma {:induction false} RenewalProgresses(lease: Lease, expiresAt: Time, principal: Text, stamp: Stamp,
                                             existing: seq<Event>)
    requires lease.Valid() && Renew(lease, expiresAt, principal, stamp, existing).Ok?
    ensures var pending := Renew(lease, expiresAt, principal, stamp, existing).value;
            var renewed := lease.(expiresAt := expiresAt);
            && pending.lease == renewed && Supersedes(renewed, lease)
            && Fold(lease.runId, existing).Some? && Fold(lease.runId, existing).value.lease == lease
            && Fold(lease.runId, existing).value.status == Claimed
            && Fold(lease.runId, existing + [pending.event])
               == Some(Fold(lease.runId, existing).value.(lease := renewed, latest := pending.event))
  {
    ActiveLeaseIsCurrent(lease, principal, Some(Claimed), existing);
    var s := Fold(lease.runId, existing).value;
    var renewed := lease.(expiresAt := expiresAt);
    TransitionFolds(lease.runId, existing, s, RenewBody(lease.Digest(), renewed), principal,
                    Joined(RenewKey, [lease.Digest(), renewed.Digest()]), stamp);
  }

  /** A dispatch leads to a dispatched review that remembers what was dispatched. */
  lemma {:induction false} DispatchProgresses(lease: Lease, acceptance: Text, context: Text, artifact: Text,
                                              principal: Text, stamp: Stamp, existing: seq<Event>)
    requires lease.Valid() && Dispatch(lease, acceptance, context, artifact, principal, stamp, existing).Ok?
    ensures var pending := Dispatch(lease, acceptance, context, artifact, principal, stamp, existing).value;
            && Fold(lease.runId, existing).Some? && Fold(lease.runId, existing).value.lease == lease
            && Fold(lease.runId, existing).value.status == Claimed
            && Fold(lease.runId, existing + [pending.event])
               == Some(Fold(lease.runId, existing).value.(
                    status := ProviderDispatched, acceptance := Some(acceptance), context := Some(context),
                    providerRequestId := Some(ProviderRequest(lease.Digest())), dispatchEventId := Some(stamp.id),
                    latest := pending.event))
  {
    ActiveLeaseIsCurrent(lease, principal, Some(Claimed), existing);
    var s := Fold(lease.runId, existing).value;
    TransitionFolds(lease.runId, existing, s,
                    DispatchBody(TargetOf(lease), ProviderRequest(lease.Digest()), acceptance, context),
                    principal, Joined(DispatchKey, [lease.Digest()]), stamp);
  }

  /** A success leads to a succeeded review that holds every artifact named. */
  lemma {:induction false} SuccessProgresses(lease: Lease, context: Text, proposal: Text, providerResult: Text,
                                             admitted: Text, findings: int, principal: Text, stamp: Stamp,
                                             existing: seq<Event>)
    requires lease.Valid() &&
      Succeed(lease, context, proposal, providerResult, admitted, findings, principal, stamp, existing).Ok?
    ensures var pending := Succeed(lease, context, proposal, providerResult, admitted, findings, principal, stamp,
                                   existing).value;
            && Fold(lease.runId, existing).Some? && Fold(lease.runId, existing).value.lease == lease
            && Fold(lease.runId, existing).value.status == ProviderDispatched
            && Fold(lease.runId, existing).value.context == Some(context)
            && Fold(lease.runId, existing + [pending.event])
               == Some(Fold(lease.runId, existing).value.(
                    status := LifecycleStatus.Succeeded, proposal := Some(proposal),
                    providerResult := Some(providerResult),
                    admitted := Some(admitted), findings := Some(findings), latest := pending.event))
  {
    ActiveLeaseIsCurrent(lease, principal, Some(ProviderDispatched), existing);
    var s := Fold(lease.runId, existing).value;
    TransitionFolds(lease.runId, existing, s,
                    SuccessBody(TargetOf(lease), context, proposal, providerResult, admitted, findings),
                    principal, Joined(SuccessKey, [lease.Digest()]), stamp);
  }

  /** A failure leads to a failed review with its code, expired lease or not. */
  lemma {:induction false} FailureProgresses(lease: Lease, code: Text, result: Option<Text>, principal: Text,
                                             stamp: Stamp, existing: seq<Event>)
    requires lease.Valid() && Fail(lease, code, result, principal, stamp, existing).Ok?
    ensures var pending := Fail(lease, code, result, principal, stamp, existing).value;
            && Fold(lease.runId, existing).Some? && Fold(lease.runId, existing).value.lease == lease
            && Fold(lease.runId, existing + [pending.event])
               == Some(Fold(lease.runId, existing).value.(
                    status := LifecycleStatus.Failed, failureCode := Some(code), resultArtifact := result,
                    latest := pending.event))
  {
    ActiveLeaseIsCurrent(lease, principal, None, existing);
    var s := Fold(lease.runId, existing).value;
    TransitionFolds(lease.runId, existing, s, FailureBody(TargetOf(lease), code, result), principal,
                    Joined(FailureKey, [lease.Digest()]), stamp);
  }

  /**
   * The verdict's event is accepted and leads to the state it names; nothing is submitted for a
   * review that is not active.
   */
  ghost predicate Closes(runId: Text, existing: seq<Event>, s: State, verdict: Result<Verdict, Failure>) {
    match verdict
    case Ok(Requeue(event)) =>
      s.status == Claimed && Fold(runId, existing + [event]) == Some(s.(status := Requeued, latest := event))
    case Ok(MarkAmbiguous(event)) =>
      s.status == ProviderDispatched
      && Fold(runId, existing + [event])
         == Some(s.(status := ReconciliationRequired, failureCode := Some(DISPATCH_AMBIGUOUS), latest := event))
    case Ok(Leave) => !s.Active()
    case Err(_) => s.Active()
  }

  /** What reconciliation submits closes the review: requeued before the dispatch, ambiguous after it. */
  lemma {:induction false} ReconciliationProgresses(runId: Text, principal: Text, stamp: Stamp, existing: seq<Event>)
    requires Fold(runId, existing).Some? && IsIdentifier(principal)
    ensures Closes(runId, existing, Fold(runId, existing).value,
                   Reconcile(Fold(runId, existing).value, principal, stamp))
  {
    var s := Fold(runId, existing).value;
    FoldConsistent(runId, existing);
    if Reconcile(s, principal, stamp).Ok? {
      if s.status == Claimed {
        TransitionFolds(runId, existing, s, RequeueBody(TargetOf(s.lease)), principal,
                        Joined(RequeueKey, [s.lease.Digest()]), stamp);
      } else if s.status == ProviderDispatched {
        TransitionFolds(runId, existing, s, AmbiguousBody(TargetOf(s.lease)), principal,
                        Joined(ReconciliationKey, [s.lease.Digest()]), stamp);
      }
    }
  }

  /** The state a claim is for. */
  function ClaimedState(runId: Text, lease: Lease, event: Event): State {
    State(runId, lease.reviewId, Claimed, lease, None, None, None, None, None, None, None, None, None, None, event)
  }

  /** The event a claim composes, from the state it found. */
  function ClaimEvent(candidate: Candidate, previous: Option<State>, worker: Text, expiresAt: Time, stamp: Stamp,
                      sequence: int): Event {
    var lease := ClaimLease(candidate, previous, worker, expiresAt);
    Compose(candidate.runId, sequence, ClaimBody(lease), worker, candidate.correlationId,
            if previous.None? then candidate.runEventId else previous.value.latest.eventId,
            Joined(ClaimKey, [lease.Digest()]), stamp)
  }

  /** The fold's answer to a claim, one step after the state it found. */
  lemma ClaimSteps(candidate: Candidate, previous: Option<State>, worker: Text, expiresAt: Time, stamp: Stamp,
                   sequence: int)
    requires candidate.Valid() && IsIdentifier(worker) && expiresAt.instant > stamp.at
    requires previous.None? ==> sequence == 1
    requires previous.Some? ==>
      && sequence == previous.value.latest.streamSequence + 1
      && previous.value.lease.attempt >= 1 && previous.value.lease.fencingToken >= 1
      && previous.value.status == Requeued && candidate.Identity() == ImmutableOf(previous.value.lease)
    ensures var lease := ClaimLease(candidate, previous, worker, expiresAt);
            var e := ClaimEvent(candidate, previous, worker, expiresAt, stamp, sequence);
            Step(candidate.runId, previous, e)
            == if previous.None? || candidate.correlationId == previous.value.latest.correlationId
               then Some(ClaimedState(candidate.runId, lease, e)) else None
  {
    ClaimCarriesLease(candidate, previous, worker, expiresAt, stamp, sequence);
    ClaimAdmitted(candidate, previous, worker, expiresAt, stamp,
                  ClaimEvent(candidate, previous, worker, expiresAt, stamp, sequence));
  }

  lemma ClaimAdmitted(candidate: Candidate, previous: Option<State>, worker: Text, expiresAt: Time, stamp: Stamp,
                      e: Event)
    requires expiresAt.instant > stamp.at
    requires BodyOf(e) == Some(ClaimBody(ClaimLease(candidate, previous, worker, expiresAt)))
    requires e.streamId == ReviewStream(candidate.runId) && e.eventType == ReviewClaimed && e.schemaVersion == 1
    requires e.source == RuntimeSource && e.actor == worker && e.recordedAt == stamp.at &&
      e.correlationId == candidate.correlationId
    requires previous.None? ==> e.streamSequence == 1 && e.causationId == Some(candidate.runEventId)
    requires previous.Some? ==>
      && e.streamSequence == previous.value.latest.streamSequence + 1 &&
        e.causationId == Some(previous.value.latest.eventId)
      && previous.value.status == Requeued && candidate.Identity() == ImmutableOf(previous.value.lease)
    ensures Step(candidate.runId, previous, e)
            == if previous.None? || candidate.correlationId == previous.value.latest.correlationId
               then Some(ClaimedState(candidate.runId, ClaimLease(candidate, previous, worker, expiresAt), e)) else None
  {
  }

  lemma ClaimCarriesLease(candidate: Candidate, previous: Option<State>, worker: Text, expiresAt: Time, stamp: Stamp,
                          sequence: int)
    requires candidate.Valid() && IsIdentifier(worker)
    requires previous.Some? ==> previous.value.lease.attempt >= 1 && previous.value.lease.fencingToken >= 1
    ensures BodyOf(ClaimEvent(candidate, previous, worker, expiresAt, stamp, sequence))
            == Some(ClaimBody(ClaimLease(candidate, previous, worker, expiresAt)))
  {
    var lease := ClaimLease(candidate, previous, worker, expiresAt);
    assert ClaimBody(lease).Valid();
    BodyRoundTrip(worker, ClaimBody(lease));
  }

  /** What the fold makes of a decided claim, before anything is known of the stream's correlation. */
  lemma {:induction false} ClaimFolds(candidate: Candidate, worker: Text, expiresAt: Time, stamp: Stamp,
                                      run: Option<Event>, existing: seq<Event>)
    requires candidate.Valid() && Claim(candidate, worker, expiresAt, stamp, run, existing).Ok?
    ensures var pending := Claim(candidate, worker, expiresAt, stamp, run, existing).value;
            && Fold(candidate.runId, existing + [pending.event])
               == (if existing == [] || candidate.correlationId == Last(existing).correlationId
                   then Some(ClaimedState(candidate.runId, pending.lease, pending.event)) else None)
            && pending.lease.attempt == pending.lease.fencingToken == Count(existing, ReviewClaimed) + 1
  {
    var pending := Claim(candidate, worker, expiresAt, stamp, run, existing).value;
    var previous := Fold(candidate.runId, existing);
    if existing != [] {
      FoldConsistent(candidate.runId, existing);
    }
    ClaimSteps(candidate, previous, worker, expiresAt, stamp, |existing| + 1);
    assert pending.event == ClaimEvent(candidate, previous, worker, expiresAt, stamp, |existing| + 1);
    FoldPush(candidate.runId, existing, pending.event);
  }

  // ---------------------------------------------------------------- on a quiet ledger

  /**
   A submission that has read the whole stream and reports success has stored its own
   event: the stream folds to the state that event leads to.
   */
  lemma {:induction false} WholeSubmissionStores(L: Ledger, runId: Text, event: Event)
    requires Valid(L) && event.streamId == ReviewStream(runId)
    requires Submit(L, runId, ReviewOf(L.log, runId), event).result.Ok?
    ensures var existing := ReviewOf(L.log, runId);
            var r := Submit(L, runId, existing, event);
            && SameDraft(r.result.value, event) && ReviewOf(r.ledger.log, runId) == existing + [r.result.value]
            && Fold(runId, existing + [event]).Some?
            && Fold(runId, existing + [r.result.value])
               == Some(Fold(runId, existing + [event]).value.(latest := r.result.value))
  {
    var existing := ReviewOf(L.log, runId);
    AppendOne(L, event, |existing|);
    if Stored(L.log, event).Some? {
      WholeStreamHoldsTwin(L, runId, event);
    }
    var placed := Placed(L.log, event);
    OnStreamPush(L.log, placed, ReviewStream(runId));
    PositionIrrelevant(runId, existing, event, placed);
  }

  /** A stored twin stands within the stream, so it cannot continue all of it. */
  lemma {:induction false} WholeStreamHoldsTwin(L: Ledger, runId: Text, event: Event)
    requires Valid(L) && event.streamId == ReviewStream(runId) && Stored(L.log, event).Some?
    ensures Fold(runId, ReviewOf(L.log, runId) + [Stored(L.log, event).value]).None?
  {
    var existing, kept := ReviewOf(L.log, runId), Stored(L.log, event).value;
    FindMeaning(L.log, event.streamId, event.idempotencyKey.value);
    OnStreamMembers(L.log, ReviewStream(runId));
    assert StreamValid(L, ReviewStream(runId));
    assert kept in existing;
    var i :| 0 <= i < |existing| && existing[i] == kept;
    if Fold(runId, existing + [kept]).Some? {
      HistoryChained(runId, existing + [kept], |existing|);
    }
  }

  /** An event of a whole read with a new id, a free key and a known cause can be inserted. */
  lemma NextIsInsertable(L: Ledger, runId: Text, event: Event)
    requires InOrder(L) && event.streamId == ReviewStream(runId)
    requires event.streamSequence == |ReviewOf(L.log, runId)| + 1 && Stored(L.log, event).None?
    requires forall e :: e in L.log ==> e.eventId != event.eventId
    requires exists e :: e in L.log && event.causationId == Some(e.eventId)
    ensures Insertable(L.log, event)
  {
    assert StreamValid(L, ReviewStream(runId));
    OnStreamMembers(L.log, ReviewStream(runId));
    var mine := ReviewOf(L.log, runId);
    forall e | e in L.log && e.streamId == event.streamId ensures e.streamSequence != event.streamSequence {
      assert e in mine;
      var i :| 0 <= i < |mine| && mine[i] == e;
    }
    if event.idempotencyKey.Some? {
      FindMeaning(L.log, event.streamId, event.idempotencyKey.value);
    }
  }

  /**
   With nobody else writing, an accepted event with a new id, a free key and a known
   cause is stored, and the stream then folds to the state the event leads to.
   */
  lemma {:induction false} QuietSubmissionSucceeds(L: Ledger, runId: Text, event: Event)
    requires InOrder(L) && event.streamId == ReviewStream(runId)
    requires Fold(runId, ReviewOf(L.log, runId) + [event]).Some? && Stored(L.log, event).None?
    requires forall e :: e in L.log ==> e.eventId != event.eventId
    requires exists e :: e in L.log && event.causationId == Some(e.eventId)
    ensures var existing := ReviewOf(L.log, runId);
            var r := Submit(L, runId, existing, event);
            && r.result.Ok? && SameDraft(r.result.value, event)
            && ReviewOf(r.ledger.log, runId) == existing + [r.result.value]
            && Fold(runId, ReviewOf(r.ledger.log, runId))
               == Some(Fold(runId, existing + [event]).value.(latest := r.result.value))
  {
    var existing := ReviewOf(L.log, runId);
    FoldPush(runId, existing, event);
    assert event.streamSequence == |existing| + 1 by {
      HistoryChained(runId, existing + [event], |existing|);
    }
    NextIsInsertable(L, runId, event);
    SubmissionSucceedsExactly(L, runId, existing, event);
    SubmissionIsSafe(L, runId, existing, event);
    AppendOne(L, event, |existing|);
    PositionIrrelevant(runId, existing, event, Submit(L, runId, existing, event).result.value);
  }
}
