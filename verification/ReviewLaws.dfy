/** What every accepted review history satisfies. */
module ReviewLaws {
  import opened Wrappers
  import opened Sequences
  import opened Values
  import opened Events
  import opened ReviewLifecycle

  function Last(es: seq<Event>): Event
    requires es != []
  {
    es[|es| - 1]
  }

  /** How many events of type `t` a history holds. */
  function Count(es: seq<Event>, t: EventType): nat {
    if es == [] then 0
    else Count(es[..|es| - 1], t) + if es[|es| - 1].eventType == t then 1 else 0
  }

  lemma {:induction false} FoldPush(runId: Text, es: seq<Event>, e: Event)
    ensures Fold(runId, es + [e]) == if Accepted(runId, es) then Step(runId, Fold(runId, es), e) else None
  {
    FrontOfPush(es, e);
  }

  /** Histories are accepted event by event: every prefix of an accepted history is accepted. */
  lemma {:induction false} PrefixClosed(runId: Text, es: seq<Event>, k: nat)
    requires k <= |es|
    ensures Accepted(runId, es) ==> Accepted(runId, es[..k])
    decreases |es| - k
  {
    if k == |es| {
      assert es[..k] == es;
    } else {
      PrefixClosed(runId, es, k + 1);
      PrefixPush(es, k);
      FoldPush(runId, es[..k], es[k]);
    }
  }

  lemma BodyTyped(e: Event)
    requires BodyOf(e).Some?
    ensures BodyOf(e).value.Type() == e.eventType && BodyOf(e).value.Valid() && IsIdentifier(e.actor)
  {
  }

  /** What one accepted step says, without the decoder. */
  ghost predicate Stepped(runId: Text, previous: Option<State>, e: Event, body: Body, next: State) {
    && body.Type() == e.eventType && body.Valid()
    && Chained(runId, LatestOf(previous), e)
    && Admits(runId, previous, e, body)
    && (previous.None? ==> body.ClaimBody?)
    && next == After(runId, previous, e, body)
  }

  lemma StepMeaning(runId: Text, previous: Option<State>, e: Event) returns (body: Body)
    requires Step(runId, previous, e).Some?
    ensures BodyOf(e) == Some(body) && Stepped(runId, previous, e, body, Step(runId, previous, e).value)
  {
    body := BodyOf(e).value;
    BodyTyped(e);
  }

  /** The part of the state every history determines. */
  ghost predicate Consistent(runId: Text, es: seq<Event>, s: State) {
    && es != [] && s.latest == Last(es) && s.latest.streamSequence == |es|
    && s.runId == runId && s.lease.runId == runId && s.lease.Valid() && s.reviewId == s.lease.reviewId
    && s.lease.attempt == s.lease.fencingToken == Count(es, ReviewClaimed)
    && Count(es, ReviewProviderDispatchStarted) == (if s.dispatchEventId.Some? then 1 else 0)
    && (s.dispatchEventId.Some? <==> s.acceptance.Some?)
    && (s.dispatchEventId.Some? <==> s.context.Some?)
    && (s.dispatchEventId.Some? ==> s.providerRequestId == Some(ProviderRequest(s.lease.Digest())))
    && (s.status == Claimed || s.status == Requeued ==> s.dispatchEventId.None?)
    && (s.status == ProviderDispatched || s.status == Succeeded || s.status == ReconciliationRequired ==>
        s.dispatchEventId.Some?)
    && (s.status == Succeeded <==> s.admitted.Some?)
    && (s.status == Succeeded ==> s.proposal.Some? && s.providerResult.Some? && s.findings.Some?)
  }

  lemma StepConsistent(runId: Text, es: seq<Event>, s: State, e: Event, body: Body, next: State)
    requires Consistent(runId, es, s) && Stepped(runId, Some(s), e, body, next)
    ensures Consistent(runId, es + [e], next)
  {
    FrontOfPush(es, e);
  }

  lemma FirstConsistent(runId: Text, e: Event, body: Body, next: State)
    requires Stepped(runId, None, e, body, next)
    ensures Consistent(runId, [e], next)
  {
    assert [e][..|[e]| - 1] == [];
  }

  /**
   The fold is a one-event machine over its own result. Attempt and fencing token
   count the claims; at most one dispatch exists, across every attempt; a success
   leaves every field its reader needs.
   */
  lemma {:induction false} FoldConsistent(runId: Text, es: seq<Event>)
    requires Fold(runId, es).Some?
    ensures Consistent(runId, es, Fold(runId, es).value)
  {
    var prior, e := es[..|es| - 1], Last(es);
    SplitLast(es);
    FoldPushed(runId, prior, e, es);
    var body := StepMeaning(runId, Fold(runId, prior), e);
    if prior == [] {
      FirstConsistent(runId, e, body, Fold(runId, es).value);
    } else {
      FoldConsistent(runId, prior);
      StepConsistent(runId, prior, Fold(runId, prior).value, e, body, Fold(runId, es).value);
    }
  }

  lemma {:induction false} FoldsAt(runId: Text, es: seq<Event>, k: nat)
    requires k < |es| && Fold(runId, es).Some?
    ensures k > 0 ==> Fold(runId, es[..k]).Some?
    ensures Step(runId, Fold(runId, es[..k]), es[k]).Some?
    ensures Fold(runId, es[..k + 1]) == Step(runId, Fold(runId, es[..k]), es[k])
  {
    PrefixAccepted(runId, es, k + 1);
    PrefixPush(es, k);
    FoldPushed(runId, es[..k], es[k], es[..k + 1]);
  }

  lemma {:induction false} PrefixAccepted(runId: Text, es: seq<Event>, k: nat)
    requires 0 < k <= |es| && Fold(runId, es).Some?
    ensures Fold(runId, es[..k]).Some?
  {
    PrefixClosed(runId, es, k);
  }

  lemma {:induction false} FoldPushed(runId: Text, prior: seq<Event>, e: Event, es: seq<Event>)
    requires es == prior + [e] && Fold(runId, es).Some?
    ensures prior != [] ==> Fold(runId, prior).Some?
    ensures Step(runId, Fold(runId, prior), e).Some? && Fold(runId, es) == Step(runId, Fold(runId, prior), e)
  {
    FoldPush(runId, prior, e);
  }

  /** The step that led from the prefix of length `k` to the next one. */
  lemma StepAt(runId: Text, es: seq<Event>, k: nat) returns (body: Body)
    requires k < |es| && Fold(runId, es).Some?
    ensures k > 0 ==> Fold(runId, es[..k]).Some?
    ensures Fold(runId, es[..k + 1]).Some? && BodyOf(es[k]) == Some(body)
    ensures Stepped(runId, Fold(runId, es[..k]), es[k], body, Fold(runId, es[..k + 1]).value)
  {
    FoldsAt(runId, es, k);
    body := StepMeaning(runId, Fold(runId, es[..k]), es[k]);
  }

  lemma {:induction false} FoldAt(runId: Text, es: seq<Event>, k: nat)
    requires 0 < k <= |es| && Fold(runId, es).Some?
    ensures Fold(runId, es[..k]).Some? && Consistent(runId, es[..k], Fold(runId, es[..k]).value)
  {
    PrefixClosed(runId, es, k);
    FoldConsistent(runId, es[..k]);
  }

  /** Every accepted history is one chain: one stream, numbers 1..n, each event caused by the one before. */
  lemma {:induction false} HistoryChained(runId: Text, es: seq<Event>, k: nat)
    requires k < |es| && Fold(runId, es).Some?
    ensures Chained(runId, if k == 0 then None else Some(es[k - 1]), es[k])
    ensures es[k].streamSequence == k + 1
  {
    var body := StepAt(runId, es, k);
    LatestAt(runId, es, k);
    FoldLatest(runId, es, k + 1);
  }

  /** After its first `k` events a history has reached number `k`, and its latest event is that one. */
  lemma {:induction false} FoldLatest(runId: Text, es: seq<Event>, k: nat)
    requires 0 < k <= |es| && Fold(runId, es).Some?
    ensures Fold(runId, es[..k]).Some? && Fold(runId, es[..k]).value.latest == es[k - 1]
    ensures es[k - 1].streamSequence == k
  {
    FoldAt(runId, es, k);
    assert Last(es[..k]) == es[k - 1];
  }

  lemma {:induction false} LatestAt(runId: Text, es: seq<Event>, k: nat)
    requires k <= |es| && Fold(runId, es).Some?
    ensures LatestOf(Fold(runId, es[..k])) == if k == 0 then None else Some(es[k - 1])
  {
    if k == 0 {
      assert es[..k] == [];
    } else {
      FoldLatest(runId, es, k);
    }
  }

  /** Succeeded, failed and reconciliation-required accept no extension. */
  lemma {:induction false} TerminalIsFinal(runId: Text, es: seq<Event>, more: seq<Event>)
    requires Fold(runId, es).Some? && more != []
    requires Fold(runId, es).value.status in {Succeeded, Failed, ReconciliationRequired}
    ensures Fold(runId, es + more).None?
  {
    var n := |es| + 1;
    PrefixIntoSecond(es, more);
    TerminalStep(runId, es, more[0]);
    PrefixClosed(runId, es + more, n);
  }

  lemma {:induction false} TerminalStep(runId: Text, es: seq<Event>, e: Event)
    requires Fold(runId, es).Some? && Fold(runId, es).value.status in {Succeeded, Failed, ReconciliationRequired}
    ensures Fold(runId, es + [e]).None?
  {
    FoldPush(runId, es, e);
    if BodyOf(e).Some? {
      TerminalRefuses(runId, Fold(runId, es).value, e, BodyOf(e).value);
    }
  }

  lemma TerminalRefuses(runId: Text, s: State, e: Event, body: Body)
    requires s.status in {Succeeded, Failed, ReconciliationRequired}
    ensures !Admits(runId, Some(s), e, body)
  {
  }

  lemma {:induction false} TerminalIsLast(runId: Text, es: seq<Event>, k: nat)
    requires k <= |es| && Fold(runId, es[..k]).Some?
    requires Fold(runId, es[..k]).value.status in {Succeeded, Failed, ReconciliationRequired}
    ensures Fold(runId, es).Some? ==> k == |es|
  {
    SplitAt(es, k);
    if k < |es| {
      TerminalIsFinal(runId, es[..k], es[k..]);
    }
  }

  // -------------------------------------------------------------- dispatches

  /** Across every attempt and requeue, an accepted history dispatches to the provider at most once. */
  lemma DispatchedAtMostOnce(runId: Text, es: seq<Event>, i: nat, j: nat)
    requires i < |es| && j < |es| && Accepted(runId, es)
    requires es[i].eventType == es[j].eventType == ReviewProviderDispatchStarted
    ensures i == j
  {
    FoldConsistent(runId, es);
    if i != j {
      var a, b := if i < j then i else j, if i < j then j else i;
      CountTwo(es, ReviewProviderDispatchStarted, a, b);
    }
  }

  lemma {:induction false} CountTwo(es: seq<Event>, t: EventType, i: nat, j: nat)
    requires i < j < |es| && es[i].eventType == es[j].eventType == t
    ensures Count(es, t) >= 2
  {
    if j < |es| - 1 {
      CountTwo(es[..|es| - 1], t, i, j);
    } else {
      CountOne(es[..|es| - 1], t, i);
    }
  }

  lemma {:induction false} CountOne(es: seq<Event>, t: EventType, i: nat)
    requires i < |es| && es[i].eventType == t
    ensures Count(es, t) >= 1
  {
    if i < |es| - 1 {
      CountOne(es[..|es| - 1], t, i);
    }
  }

  /** In a dispatched state, the latest event is the dispatch, and it names the state's lease and context. */
  lemma {:induction false} DispatchedLatest(runId: Text, es: seq<Event>)
    requires Fold(runId, es).Some? && Fold(runId, es).value.status == ProviderDispatched
    ensures var s := Fold(runId, es).value;
            && Last(es).eventType == ReviewProviderDispatchStarted
            && BodyOf(Last(es)).Some? && BodyOf(Last(es)).value.DispatchBody?
            && BodyOf(Last(es)).value.target == TargetOf(s.lease)
            && Some(BodyOf(Last(es)).value.context) == s.context
            && Last(es).actor == s.lease.workerId
            && Last(es).recordedAt <= s.lease.expiresAt.instant
  {
    var n := |es| - 1;
    assert es[..n + 1] == es;
    var body := StepAt(runId, es, n);
    if n > 0 {
      FoldAt(runId, es, n);
    }
  }

  /**
   A success directly follows its own, only dispatch: the same lease, worker and
   context, both recorded no later than the lease's expiry.
   */
  lemma SuccessFollowsDispatch(runId: Text, es: seq<Event>, k: nat)
    returns (dispatch: Body, success: Body, lease: Lease)
    requires Fold(runId, es).Some? && k < |es| && es[k].eventType == ReviewSucceeded
    ensures k == |es| - 1 && k >= 2 && lease == Fold(runId, es).value.lease
    ensures es[k - 1].eventType == ReviewProviderDispatchStarted
    ensures forall i :: 0 <= i < |es| && es[i].eventType == ReviewProviderDispatchStarted ==> i == k - 1
    ensures BodyOf(es[k - 1]) == Some(dispatch) && dispatch.DispatchBody?
    ensures BodyOf(es[k]) == Some(success) && success.SuccessBody?
    ensures dispatch.target == success.target == TargetOf(lease) && dispatch.context == success.context
    ensures es[k - 1].actor == es[k].actor == lease.workerId
    ensures es[k - 1].recordedAt <= lease.expiresAt.instant && es[k].recordedAt <= lease.expiresAt.instant
  {
    success := StepAt(runId, es, k);
    TerminalIsLast(runId, es, k + 1);
    assert es[..k + 1] == es;
    var before := es[..k];
    DispatchedLatest(runId, before);
    dispatch := BodyOf(Last(before)).value;
    lease := Fold(runId, es).value.lease;
    forall i | 0 <= i < |es| && es[i].eventType == ReviewProviderDispatchStarted ensures i == k - 1 {
      DispatchedAtMostOnce(runId, es, i, k - 1);
    }
    var first := StepAt(runId, es, 0);
  }

  // ------------------------------------------------------------------ leases

  /** The order in which leases of one stream replace each other. */
  predicate Supersedes(b: Lease, a: Lease) {
    b.fencingToken > a.fencingToken
    || (b.fencingToken == a.fencingToken && b.expiresAt.instant > a.expiresAt.instant)
  }

  /** Along an accepted history the lease stays or is superseded, never anything else. */
  lemma {:induction false} LeaseOnlyAdvances(runId: Text, es: seq<Event>, k: nat)
    requires 0 < k <= |es| && Fold(runId, es).Some?
    ensures Fold(runId, es[..k]).Some?
    ensures var was, now := Fold(runId, es[..k]).value.lease, Fold(runId, es).value.lease;
            now == was || Supersedes(now, was)
  {
    if k == |es| {
      assert es[..k] == es;
    } else {
      var n := |es| - 1;
      assert es[..n + 1] == es && es[..n][..k] == es[..k];
      var body := StepAt(runId, es, n);
      LeaseStep(runId, Fold(runId, es[..n]).value, es[n], body, Fold(runId, es).value);
      LeaseOnlyAdvances(runId, es[..n], k);
    }
  }

  lemma LeaseStep(runId: Text, s: State, e: Event, body: Body, next: State)
    requires Stepped(runId, Some(s), e, body, next)
    ensures next.lease == s.lease || Supersedes(next.lease, s.lease)
  {
  }

  /** A lease that was current and then was not never is again: nothing presenting its digest matches. */
  lemma {:induction false} SupersededForever(runId: Text, es: seq<Event>, i: nat, j: nat, lease: Lease)
    requires 0 < i <= j <= |es| && Fold(runId, es).Some?
    requires Fold(runId, es[..i]).Some? && Fold(runId, es[..i]).value.lease == lease
    requires Fold(runId, es[..j]).Some? && Fold(runId, es[..j]).value.lease != lease
    ensures Fold(runId, es).value.lease.Digest() != lease.Digest()
  {
    assert es[..j][..i] == es[..i];
    LeaseOnlyAdvances(runId, es[..j], i);
    LeaseOnlyAdvances(runId, es, j);
    var now := Fold(runId, es).value.lease;
    if now.Digest() == lease.Digest() {
      LeaseDigestInjective(now, lease);
    }
  }
}
