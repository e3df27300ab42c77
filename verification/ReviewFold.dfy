/** The fold as the program runs it: header passes, then one loop over a dozen variables. */
module ReviewFold {
  import opened Wrappers
  import opened Values
  import opened Events
  import opened ReviewLifecycle
  import opened ReviewLaws

  /** An accepted history belongs to a well-formed run. */
  lemma {:induction false} AcceptedRun(runId: Text, es: seq<Event>)
    requires Fold(runId, es).Some?
    ensures es != [] && IsIdentifier(runId)
  {
    FoldConsistent(runId, es);
  }

  /** Event `k` continues the one before it. */
  predicate Linked(runId: Text, es: seq<Event>, k: nat)
    requires k < |es|
  {
    Chained(runId, if k == 0 then None else Some(es[k - 1]), es[k])
  }

  /** A history that breaks the chain anywhere is refused. */
  lemma {:induction false} BrokenChainRefused(runId: Text, es: seq<Event>, k: nat)
    requires k < |es|
    requires !Linked(runId, es, k) || es[k].streamSequence != k + 1
    ensures Fold(runId, es).None?
  {
    if Fold(runId, es).Some? {
      HistoryChained(runId, es, k);
      assert false;
    }
  }

  /** Linked headers carry one correlation. */
  lemma {:induction false} OneCorrelation(runId: Text, es: seq<Event>, k: nat)
    requires k < |es| && forall i :: 0 <= i <= k ==> Linked(runId, es, i)
    ensures es[k].correlationId == es[0].correlationId
  {
    if k > 0 {
      OneCorrelation(runId, es, k - 1);
      assert Linked(runId, es, k);
    }
  }

  lemma {:induction false} AcceptedLinked(runId: Text, es: seq<Event>)
    requires Fold(runId, es).Some?
    ensures forall k :: 0 <= k < |es| ==> Linked(runId, es, k)
  {
    forall k | 0 <= k < |es| ensures Linked(runId, es, k) {
      HistoryChained(runId, es, k);
    }
  }

  /** Validate and fold one complete review stream. */
  method FoldReviewLifecycle(runId: Text, events: seq<Event>) returns (r: Option<State>)
    ensures r == Fold(runId, events)
  {
    if !IsIdentifier(runId) || events == [] {
      if Fold(runId, events).Some? { AcceptedRun(runId, events); }
      return None;
    }
    var chained := CheckHeaders(runId, events);
    if !chained {
      return None;
    }
    var bodies := ReadBodies(events);
    r := FoldBodies(runId, events, bodies);
    FoldWithBodies(runId, events, bodies);
  }

  /** Decode every payload; the fold proper looks only at what the bodies say. */
  method ReadBodies(events: seq<Event>) returns (bodies: seq<Option<Body>>)
    ensures |bodies| == |events| && forall k :: 0 <= k < |events| ==> bodies[k] == BodyOf(events[k])
  {
    bodies := [];
    for k := 0 to |events|
      invariant |bodies| == k && forall i :: 0 <= i < k ==> bodies[i] == BodyOf(events[i])
    {
      bodies := bodies + [BodyOf(events[k])];
    }
  }

  /** `Fold` with the decoded bodies given. */
  function FoldWith(runId: Text, es: seq<Event>, bodies: seq<Option<Body>>): Option<State>
    requires |es| == |bodies|
  {
    if es == [] then None
    else
      var n := |es| - 1;
      if n > 0 && FoldWith(runId, es[..n], bodies[..n]).None? then None
      else Grow(runId, FoldWith(runId, es[..n], bodies[..n]), es[n], bodies[n])
  }

  function Grow(runId: Text, previous: Option<State>, e: Event, body: Option<Body>): Option<State> {
    if body.Some? && Chained(runId, LatestOf(previous), e) && Admits(runId, previous, e, body.value) then
      Some(After(runId, previous, e, body.value))
    else None
  }

  lemma {:induction false} FoldWithBodies(runId: Text, es: seq<Event>, bodies: seq<Option<Body>>)
    requires |es| == |bodies| && forall k :: 0 <= k < |es| ==> bodies[k] == BodyOf(es[k])
    ensures FoldWith(runId, es, bodies) == Fold(runId, es)
  {
    if es != [] {
      FoldWithBodies(runId, es[..|es| - 1], bodies[..|es| - 1]);
    }
  }

  lemma {:induction false} FoldWithStuck(runId: Text, es: seq<Event>, bodies: seq<Option<Body>>, k: nat)
    requires |es| == |bodies| && 0 < k <= |es| && FoldWith(runId, es[..k], bodies[..k]).None?
    ensures FoldWith(runId, es, bodies).None?
  {
    var n := |es| - 1;
    if k == |es| {
      assert es[..k] == es && bodies[..k] == bodies;
    } else {
      assert es[..n][..k] == es[..k] && bodies[..n][..k] == bodies[..k];
      FoldWithStuck(runId, es[..n], bodies[..n], k);
    }
  }

  lemma {:induction false} FoldWithPush(runId: Text, es: seq<Event>, bodies: seq<Option<Body>>, k: nat)
    requires |es| == |bodies| && k < |es|
    ensures FoldWith(runId, es[..k + 1], bodies[..k + 1])
            == if k > 0 && FoldWith(runId, es[..k], bodies[..k]).None? then None
               else Grow(runId, FoldWith(runId, es[..k], bodies[..k]), es[k], bodies[k])
  {
    assert es[..k + 1][..k] == es[..k] && bodies[..k + 1][..k] == bodies[..k];
  }

  method CheckHeaders(runId: Text, events: seq<Event>) returns (ok: bool)
    requires events != []
    ensures !ok ==> Fold(runId, events).None?
    ensures ok ==> forall k :: 0 <= k < |events| ==> Linked(runId, events, k)
  {
    for k := 0 to |events|
      invariant forall i :: 0 <= i < k ==>
        events[i].streamId == ReviewStream(runId) && events[i].streamSequence == i + 1 && events[i].schemaVersion == 1
        && events[i].source == RuntimeSource && IsReviewType(events[i].eventType)
    {
      var e := events[k];
      if e.streamId != ReviewStream(runId) || e.streamSequence != k + 1 || e.schemaVersion != 1
         || e.source != RuntimeSource || !IsReviewType(e.eventType)
      {
        BrokenChainRefused(runId, events, k);
        return false;
      }
    }
    var correlation := events[0].correlationId;
    for k := 0 to |events|
      invariant forall i :: 0 <= i < k ==>
        events[i].correlationId == correlation && (i > 0 ==> events[i].causationId == Some(events[i - 1].eventId))
    {
      if events[k].correlationId != correlation || (k > 0 && events[k].causationId != Some(events[k - 1].eventId)) {
        if Fold(runId, events).Some? {
          AcceptedLinked(runId, events);
          OneCorrelation(runId, events, k);
          assert Linked(runId, events, k);
        }
        return false;
      }
    }
    return true;
  }

  /** The loop's variables stand for the state folded so far. */
  predicate Stands(folded: Option<State>, status: Option<LifecycleStatus>, lease: Option<Lease>,
                   baseline: Option<Lease>,
                   context: Option<Text>)
  {
    && status.Some? == lease.Some? == baseline.Some? == folded.Some?
    && (folded.Some? ==>
          status.value == folded.value.status && lease.value == folded.value.lease
          && context == folded.value.context && ImmutableOf(lease.value) == ImmutableOf(baseline.value))
  }

  /** An event the loop refuses ends the fold for good. */
  lemma {:induction false} RefusedStep(runId: Text, events: seq<Event>, bodies: seq<Option<Body>>, k: nat,
                                       folded: Option<State>, status: Option<LifecycleStatus>, lease: Option<Lease>,
                                       baseline: Option<Lease>, context: Option<Text>)
    requires |bodies| == |events| && k < |events| && FoldWith(runId, events[..k], bodies[..k]) == folded
    requires Stands(folded, status, lease, baseline, context)
    requires bodies[k].None? || Refused(runId, events[k], bodies[k].value, status, lease, baseline, context)
    ensures FoldWith(runId, events, bodies).None?
  {
    FoldWithPush(runId, events, bodies, k);
    if bodies[k].Some? {
      RefusedMeansNotAdmitted(runId, folded, events[k], bodies[k].value, status, lease, baseline, context);
    }
    FoldWithStuck(runId, events, bodies, k + 1);
  }

  /** An event the loop lets through extends the fold by one step. */
  lemma {:induction false} AcceptedStep(runId: Text, events: seq<Event>, bodies: seq<Option<Body>>, k: nat,
                                        folded: Option<State>, body: Body, status: Option<LifecycleStatus>,
                                        lease: Option<Lease>, baseline: Option<Lease>, context: Option<Text>)
    requires |bodies| == |events| && k < |events| && FoldWith(runId, events[..k], bodies[..k]) == folded
    requires Stands(folded, status, lease, baseline, context) && folded.Some? == (k > 0)
    requires k > 0 ==> folded.value.latest == events[k - 1]
    requires Linked(runId, events, k)
    requires bodies[k] == Some(body) && !Refused(runId, events[k], body, status, lease, baseline, context)
    ensures !body.ClaimBody? ==> folded.Some?
    ensures FoldWith(runId, events[..k + 1], bodies[..k + 1]) == Some(After(runId, folded, events[k], body))
  {
    FoldWithPush(runId, events, bodies, k);
    RefusedMeansNotAdmitted(runId, folded, events[k], body, status, lease, baseline, context);
  }

  method FoldBodies(runId: Text, events: seq<Event>, bodies: seq<Option<Body>>) returns (r: Option<State>)
    requires events != [] && |bodies| == |events|
    requires forall k :: 0 <= k < |events| ==> Linked(runId, events, k)
    ensures r == FoldWith(runId, events, bodies)
  {
    var status: Option<LifecycleStatus> := None;
    var lease: Option<Lease> := None;
    var baseline: Option<Lease> := None;
    var acceptance, context, providerRequestId, dispatchEventId: Option<Text> := None, None, None, None;
    var proposal, providerResult, admitted, failureCode, resultArtifact: Option<Text> := None, None, None, None, None;
    var findings: Option<int> := None;
    ghost var folded: Option<State> := None;
    for k := 0 to |events|
      invariant status.Some? == lease.Some? == baseline.Some? == (k > 0)
      invariant k > 0 ==> ImmutableOf(lease.value) == ImmutableOf(baseline.value)
      invariant FoldWith(runId, events[..k], bodies[..k]) == folded
      invariant folded
                == if k == 0 then None
                   else Some(State(runId, lease.value.reviewId, status.value, lease.value, acceptance, context,
                                   providerRequestId, dispatchEventId, proposal, providerResult, admitted, findings,
                                   failureCode, resultArtifact, events[k - 1]))
    {
      var event := events[k];
      if bodies[k].None? || Refused(runId, event, bodies[k].value, status, lease, baseline, context) {
        RefusedStep(runId, events, bodies, k, folded, status, lease, baseline, context);
        return None;
      }
      var body := bodies[k].value;
      AcceptedStep(runId, events, bodies, k, folded, body, status, lease, baseline, context);
      folded := Some(After(runId, folded, event, body));
      match body {
        case ClaimBody(candidate) =>
          baseline := if baseline.None? then Some(candidate) else baseline;
          lease, status := Some(candidate), Some(Claimed);
          acceptance, context, providerRequestId, dispatchEventId := None, None, None, None;
          proposal, providerResult, admitted, findings := None, None, None, None;
          failureCode, resultArtifact := None, None;
        case RenewBody(_, renewed) =>
          lease := Some(renewed);
        case DispatchBody(_, request, accepted, digest) =>
          acceptance, context, providerRequestId := Some(accepted), Some(digest), Some(request);
          dispatchEventId := Some(event.eventId);
          status := Some(ProviderDispatched);
        case SuccessBody(_, _, proposed, result, admission, count) =>
          proposal, providerResult, admitted, findings := Some(proposed), Some(result), Some(admission), Some(count);
          status := Some(Succeeded);
        case FailureBody(_, code, result) =>
          failureCode, resultArtifact := Some(code), result;
          status := Some(Failed);
        case RequeueBody(_) =>
          status := Some(Requeued);
        case AmbiguousBody(_) =>
          failureCode := Some(DISPATCH_AMBIGUOUS);
          status := Some(ReconciliationRequired);
      }
    }
    assert events[..|events|] == events && bodies[..|events|] == bodies;
    return Some(State(runId, lease.value.reviewId, status.value, lease.value, acceptance, context, providerRequestId,
                      dispatchEventId, proposal, providerResult, admitted, findings, failureCode, resultArtifact,
                      events[|events| - 1]));
  }

  /** When the loop raises, in terms of its own variables. */
  predicate Refused(runId: Text, event: Event, body: Body, status: Option<LifecycleStatus>, lease: Option<Lease>,
                    baseline: Option<Lease>, context: Option<Text>)
  {
    match body
    case ClaimBody(candidate) =>
      || (status.Some? && status.value != Requeued)
      || candidate.runId != runId
      || candidate.workerId != event.actor
      || candidate.expiresAt.instant <= event.recordedAt
      || (lease.None? && event.causationId != Some(candidate.runEventId))
      || candidate.attempt != (if lease.None? then 1 else lease.value.attempt + 1)
      || candidate.fencingToken != (if lease.None? then 1 else lease.value.fencingToken + 1)
      || (baseline.Some? && ImmutableOf(candidate) != ImmutableOf(baseline.value))
    case RenewBody(previousDigest, renewed) =>
      || lease.None?
      || status != Some(Claimed)
      || event.actor != lease.value.workerId
      || renewed.workerId != event.actor
      || previousDigest != lease.value.Digest()
      || renewed.expiresAt.instant <= event.recordedAt
      || renewed.expiresAt.instant <= lease.value.expiresAt.instant
      || !RenewalOf(renewed, lease.value)
    case DispatchBody(target, request, _, _) =>
      || !ActiveLease(event, target, lease, status, Claimed, false)
      || request != ProviderRequest(lease.value.Digest())
    case SuccessBody(target, digest, _, _, _, _) =>
      || !ActiveLease(event, target, lease, status, ProviderDispatched, false)
      || Some(digest) != context
    case FailureBody(target, _, _) =>
      || (status != Some(Claimed) && status != Some(ProviderDispatched))
      || !ActiveLease(event, target, lease, status, status.value, true)
    case RequeueBody(target) => !HostTransition(target, lease, status, Claimed)
    case AmbiguousBody(target) => !HostTransition(target, lease, status, ProviderDispatched)
  }

  lemma RefusedMeansNotAdmitted(runId: Text, previous: Option<State>, event: Event, body: Body,
                                status: Option<LifecycleStatus>,
                                lease: Option<Lease>, baseline: Option<Lease>, context: Option<Text>)
    requires Stands(previous, status, lease, baseline, context)
    ensures Refused(runId, event, body, status, lease, baseline, context) <==> !Admits(runId, previous, event, body)
  {
  }

  predicate ActiveLease(event: Event, target: Target, lease: Option<Lease>, actual: Option<LifecycleStatus>,
                        expected: LifecycleStatus, allowExpired: bool)
  {
    && lease.Some?
    && actual == Some(expected)
    && target == TargetOf(lease.value)
    && event.actor == lease.value.workerId
    && (allowExpired || event.recordedAt <= lease.value.expiresAt.instant)
  }

  predicate HostTransition(target: Target, lease: Option<Lease>, actual: Option<LifecycleStatus>,
                           expected: LifecycleStatus) {
    lease.Some? && actual == Some(expected) && target == TargetOf(lease.value)
  }
}
