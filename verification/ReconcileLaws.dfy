/** What a reconciliation that returns normally has achieved. */
module ReconcileLaws {
  import opened Wrappers
  import opened Sequences
  import opened Values
  import opened Events
  import opened Ledgers
  import opened LedgerLaws
  import opened ReviewLifecycle
  import opened ReviewLaws
  import opened ReviewRuntime
  import opened ReviewProtocol
  import opened ReviewService

  // -------------------------------------------------------------- the run list

  /** Each run is listed once, and the list holds every run whose review was ever claimed. */
  lemma {:induction false} RunsListed(log: seq<Event>)
    ensures forall i, j :: 0 <= i < j < |ReviewRuns(log)| ==> ReviewRuns(log)[i] != ReviewRuns(log)[j]
    ensures forall e :: e in log && e.eventType == ReviewClaimed && e.streamId.ReviewStream? ==>
      e.streamId.run in ReviewRuns(log)
    ensures forall run :: run in ReviewRuns(log) ==>
      exists e :: e in log && e.eventType == ReviewClaimed && e.streamId == ReviewStream(run)
  {
    if log != [] {
      var shorter, last := log[..|log| - 1], log[|log| - 1];
      RunsListed(shorter);
      assert log == shorter + [last];
      forall run | run in ReviewRuns(log)
        ensures exists e :: e in log && e.eventType == ReviewClaimed && e.streamId == ReviewStream(run)
      {
        if run in ReviewRuns(shorter) {
          var e :| e in shorter && e.eventType == ReviewClaimed && e.streamId == ReviewStream(run);
          assert e in log;
        } else {
          assert last in log && last.streamId == ReviewStream(run);
        }
      }
    }
  }

  /** Every accepted stream starts with a claim, so its run is listed. */
  lemma AcceptedIsListed(L: Ledger, runId: Text)
    requires InOrder(L) && ReviewOf(L.log, runId) != []
    ensures runId in ReviewRuns(L.log)
  {
    var es := ReviewOf(L.log, runId);
    assert StreamAccepted(L.log, runId);
    var body := StepAt(runId, es, 0);
    assert es[..0] == [];
    OnStreamMembers(L.log, ReviewStream(runId));
    assert es[0] in es;
    RunsListed(L.log);
  }

  // ------------------------------------------------------------- one review

  function StatusOf(log: seq<Event>, runId: Text): Option<LifecycleStatus> {
    match Fold(runId, ReviewOf(log, runId)) case None => None case Some(s) => Some(s.status)
  }

  /** Where reconciliation leaves a review that was in `status`. */
  function Settled(status: LifecycleStatus): LifecycleStatus {
    match status
    case Claimed => Requeued
    case ProviderDispatched => ReconciliationRequired
    case other => other
  }

  /** The status an accepted host event leads to. */
  lemma {:induction false} HostStatus(runId: Text, es: seq<Event>, e: Event)
    requires Fold(runId, es + [e]).Some?
    ensures e.eventType == ReviewRequeued ==> Fold(runId, es + [e]).value.status == Requeued
    ensures e.eventType == ReviewReconciliationRequired ==> Fold(runId, es + [e]).value.status == ReconciliationRequired
  {
    FoldPushed(runId, es, e, es + [e]);
    var body := StepMeaning(runId, Fold(runId, es), e);
    SteppedStatus(runId, Fold(runId, es), e, body, Fold(runId, es + [e]).value);
  }

  lemma SteppedStatus(runId: Text, previous: Option<State>, e: Event, body: Body, next: State)
    requires Stepped(runId, previous, e, body, next)
    ensures e.eventType == ReviewRequeued ==> next.status == Requeued
    ensures e.eventType == ReviewReconciliationRequired ==> next.status == ReconciliationRequired
  {
  }

  /** Submitted against the whole stream, a reported success is an append. */
  lemma WholeReadAppends(L: Ledger, runId: Text, event: Event)
    requires InOrder(L) && event.streamId == ReviewStream(runId)
    requires Submit(L, runId, ReviewOf(L.log, runId), event).result.Ok?
    ensures var r := Submit(L, runId, ReviewOf(L.log, runId), event);
            && InOrder(r.ledger) && SameDraft(r.result.value, event)
            && ReviewOf(r.ledger.log, runId) == ReviewOf(L.log, runId) + [r.result.value]
            && forall other :: other != runId ==> ReviewOf(r.ledger.log, other) == ReviewOf(L.log, other)
  {
    var es := ReviewOf(L.log, runId);
    SubmissionSucceedsExactly(L, runId, es, event);
    SubmissionIsSafe(L, runId, es, event);
    if Stored(L.log, event).Some? {
      StoredInStream(L, event);
    } else {
      AppendOne(L, event, |es|);
    }
  }

  lemma StatusAfter(L: Ledger, runId: Text, event: Event)
    requires InOrder(L) && event.streamId == ReviewStream(runId)
    requires Submit(L, runId, ReviewOf(L.log, runId), event).result.Ok?
    requires event.eventType == ReviewRequeued || event.eventType == ReviewReconciliationRequired
    ensures StatusOf(Submit(L, runId, ReviewOf(L.log, runId), event).ledger.log, runId)
            == Some(if event.eventType == ReviewRequeued then Requeued else ReconciliationRequired)
  {
    var r := Submit(L, runId, ReviewOf(L.log, runId), event);
    WholeReadAppends(L, runId, event);
    assert StreamAccepted(r.ledger.log, runId);
    HostStatus(runId, ReviewOf(L.log, runId), r.result.value);
  }

  lemma VerdictEvents(s: State, principal: Text, stamp: Stamp)
    ensures match Reconcile(s, principal, stamp)
            case Ok(Requeue(e)) => s.status == Claimed && e.eventType == ReviewRequeued &&
              e.streamId == ReviewStream(s.runId)
            case Ok(MarkAmbiguous(e)) =>
              s.status == ProviderDispatched && e.eventType == ReviewReconciliationRequired &&
                e.streamId == ReviewStream(s.runId)
            case Ok(Leave) => !s.Active()
            case Err(_) => s.Active()
  {
  }

  /** From `p` to `q` one review, in `status`, is settled and reported once; every other review is untouched. */
  ghost predicate OneSettled(p: Progress, q: Progress, runId: Text) {
    && InOrder(q.ledger)
    && StatusOf(p.ledger.log, runId).Some?
    && var status := StatusOf(p.ledger.log, runId).value;
    && StatusOf(q.ledger.log, runId) == Some(Settled(status))
    && (forall other :: other != runId ==> ReviewOf(q.ledger.log, other) == ReviewOf(p.ledger.log, other))
    && q.requeued == p.requeued + (if status == Claimed then [runId] else [])
    && q.ambiguous == p.ambiguous + (if status == ProviderDispatched then [runId] else [])
    && (status != Claimed && status != ProviderDispatched ==> q == p)
  }

  lemma OneSettles(p: Progress, runId: Text, principal: Text, stamp: Stamp)
    requires InOrder(p.ledger) && !p.failed && !ReconcileOne(p, runId, principal, stamp).failed
    ensures OneSettled(p, ReconcileOne(p, runId, principal, stamp), runId)
  {
    var es := ReviewOf(p.ledger.log, runId);
    var s := Fold(runId, es).value;
    FoldConsistent(runId, es);
    VerdictEvents(s, principal, stamp);
    SettleSettles(p, runId, es, s.status, Reconcile(s, principal, stamp));
  }

  lemma SettleSettles(p: Progress, runId: Text, es: seq<Event>, status: LifecycleStatus,
                      verdict: Result<Verdict, Failure>)
    requires InOrder(p.ledger) && es == ReviewOf(p.ledger.log, runId) && StatusOf(p.ledger.log, runId) == Some(status)
    requires !Settle(p, runId, es, verdict).failed && !p.failed
    requires match verdict
             case Ok(Requeue(e)) => status == Claimed && e.eventType == ReviewRequeued &&
               e.streamId == ReviewStream(runId)
             case Ok(MarkAmbiguous(e)) =>
               status == ProviderDispatched && e.eventType == ReviewReconciliationRequired &&
                 e.streamId == ReviewStream(runId)
             case Ok(Leave) => status != Claimed && status != ProviderDispatched
             case Err(_) => true
    ensures OneSettled(p, Settle(p, runId, es, verdict), runId)
  {
    match verdict {
      case Ok(Requeue(e)) =>
        WholeReadAppends(p.ledger, runId, e);
        StatusAfter(p.ledger, runId, e);
      case Ok(MarkAmbiguous(e)) =>
        WholeReadAppends(p.ledger, runId, e);
        StatusAfter(p.ledger, runId, e);
      case Ok(Leave) =>
    }
  }

  /** The runs of a list that a ledger holds in a given status, in list order. */
  function WithStatus(log: seq<Event>, runs: seq<Text>, status: LifecycleStatus): seq<Text> {
    if runs == [] then []
    else
      var last := runs[|runs| - 1];
      WithStatus(log, runs[..|runs| - 1], status) + if StatusOf(log, last) == Some(status) then [last] else []
  }

  ghost predicate Distinct(runs: seq<Text>) {
    forall i, j :: 0 <= i < j < |runs| ==> runs[i] != runs[j]
  }

  /** A run of a reconciled list has moved to its settled status; any other review is as it was. */
  ghost predicate RunSettled(before: seq<Event>, after: seq<Event>, runs: seq<Text>, run: Text) {
    if run in runs then
      StatusOf(before, run).Some? && StatusOf(after, run) == Some(Settled(StatusOf(before, run).value))
    else ReviewOf(after, run) == ReviewOf(before, run)
  }

  /** From `L` to `p` every run of the list is settled, and the reports say which way. */
  ghost predicate ListSettled(L: Ledger, p: Progress, runs: seq<Text>) {
    && InOrder(p.ledger)
    && p.requeued == WithStatus(L.log, runs, Claimed)
    && p.ambiguous == WithStatus(L.log, runs, ProviderDispatched)
    && forall run :: RunSettled(L.log, p.ledger.log, runs, run)
  }

  lemma {:induction false} ListSettles(L: Ledger, runs: seq<Text>, principal: Text, stamps: Text -> Stamp)
    requires InOrder(L) && Distinct(runs) && !ReconcileRuns(L, runs, principal, stamps).failed
    ensures ListSettled(L, ReconcileRuns(L, runs, principal, stamps), runs)
  {
    if runs == [] {
      forall run ensures RunSettled(L.log, L.log, runs, run) {
      }
    } else {
      var shorter, last := runs[..|runs| - 1], runs[|runs| - 1];
      var p := ReconcileRuns(L, shorter, principal, stamps);
      ListSettles(L, shorter, principal, stamps);
      OneSettles(p, last, principal, stamps(last));
      SplitLast(runs);
      ListGrows(L, shorter, last, p, ReconcileRuns(L, runs, principal, stamps));
    }
  }

  lemma ListGrows(L: Ledger, runs: seq<Text>, last: Text, p: Progress, q: Progress)
    requires ListSettled(L, p, runs) && OneSettled(p, q, last) && last !in runs
    ensures ListSettled(L, q, runs + [last])
  {
    FrontOfPush(runs, last);
    assert RunSettled(L.log, p.ledger.log, runs, last);
    forall run ensures RunSettled(L.log, q.ledger.log, runs + [last], run) {
      assert RunSettled(L.log, p.ledger.log, runs, run);
      RunSettledStep(L.log, p.ledger.log, q.ledger.log, runs, last, run);
    }
  }

  lemma RunSettledStep(before: seq<Event>, mid: seq<Event>, after: seq<Event>, runs: seq<Text>, last: Text, run: Text)
    requires RunSettled(before, mid, runs, run) && RunSettled(before, mid, runs, last) && last !in runs
    requires StatusOf(mid, last).Some? && StatusOf(after, last) == Some(Settled(StatusOf(mid, last).value))
    requires forall other :: other != last ==> ReviewOf(after, other) == ReviewOf(mid, other)
    ensures RunSettled(before, after, runs + [last], run)
  {
  }

  /** No review is open any more, and the reports name exactly those that were, each once. */
  ghost predicate Closed(L: Ledger, p: Progress, run: Text) {
    && StatusOf(p.ledger.log, run) != Some(Claimed) && StatusOf(p.ledger.log, run) != Some(ProviderDispatched)
    && (run in p.requeued <==> StatusOf(L.log, run) == Some(Claimed))
    && (run in p.ambiguous <==> StatusOf(L.log, run) == Some(ProviderDispatched))
    && Distinct(p.requeued) && Distinct(p.ambiguous)
  }

  lemma ListCloses(L: Ledger, p: Progress, runs: seq<Text>, run: Text)
    requires ListSettled(L, p, runs) && Distinct(runs) && (run !in runs ==> StatusOf(L.log, run).None?)
    ensures Closed(L, p, run)
  {
    assert RunSettled(L.log, p.ledger.log, runs, run);
    WithStatusMembers(L.log, runs, Claimed, run);
    WithStatusMembers(L.log, runs, ProviderDispatched, run);
  }

  /**
   When reconciliation of a quiescent store returns normally, no review is claimed or
   dispatched any more, and the two reports are exactly the reviews that were, each
   once, in the order of their first claims.
   */
  lemma {:induction false} ReconcileCloses(L: Ledger, principal: Text, stamps: Text -> Stamp, run: Text)
    requires InOrder(L) && !ReconcileRuns(L, ReviewRuns(L.log), principal, stamps).failed
    ensures var p := ReconcileRuns(L, ReviewRuns(L.log), principal, stamps);
            && InOrder(p.ledger) && Closed(L, p, run)
            && p.requeued == WithStatus(L.log, ReviewRuns(L.log), Claimed)
            && p.ambiguous == WithStatus(L.log, ReviewRuns(L.log), ProviderDispatched)
  {
    RunsListed(L.log);
    ListSettles(L, ReviewRuns(L.log), principal, stamps);
    if run !in ReviewRuns(L.log) {
      EmptyWhenUnlisted(L, run);
    }
    ListCloses(L, ReconcileRuns(L, ReviewRuns(L.log), principal, stamps), ReviewRuns(L.log), run);
  }

  lemma EmptyWhenUnlisted(L: Ledger, run: Text)
    requires InOrder(L) && run !in ReviewRuns(L.log)
    ensures StatusOf(L.log, run).None?
  {
    if ReviewOf(L.log, run) != [] {
      AcceptedIsListed(L, run);
    }
  }

  lemma {:induction false} WithStatusMembers(log: seq<Event>, runs: seq<Text>, status: LifecycleStatus, run: Text)
    requires Distinct(runs)
    ensures run in WithStatus(log, runs, status) <==> run in runs && StatusOf(log, run) == Some(status)
    ensures Distinct(WithStatus(log, runs, status))
  {
    if runs != [] {
      var shorter, last := runs[..|runs| - 1], runs[|runs| - 1];
      assert runs == shorter + [last];
      WithStatusMembers(log, shorter, status, run);
      WithStatusMembers(log, shorter, status, last);
      assert last !in shorter;
    }
  }

  ghost predicate DoneWith(log: seq<Event>, run: Text) {
    StatusOf(log, run).Some? && StatusOf(log, run) != Some(Claimed) && StatusOf(log, run) != Some(ProviderDispatched)
  }

  /** A listed run has an accepted stream. */
  lemma ListedHasStatus(L: Ledger, run: Text)
    requires InOrder(L) && run in ReviewRuns(L.log)
    ensures StatusOf(L.log, run).Some?
  {
    RunsListed(L.log);
    var e :| e in L.log && e.streamId == ReviewStream(run);
    OnStreamMembers(L.log, ReviewStream(run));
    assert e in ReviewOf(L.log, run);
    assert StreamAccepted(L.log, run);
  }

  /** Reconciling again, by anyone, appends nothing and reports nothing. */
  lemma {:induction false} ReconcileIsIdempotent(L: Ledger, principal: Text, stamps: Text -> Stamp, again: Text,
                                                 later: Text -> Stamp)
    requires InOrder(L) && !ReconcileRuns(L, ReviewRuns(L.log), principal, stamps).failed
    ensures var M := ReconcileRuns(L, ReviewRuns(L.log), principal, stamps).ledger;
            ReconcileRuns(M, ReviewRuns(M.log), again, later) == Progress(M, [], [], false)
  {
    var M := ReconcileRuns(L, ReviewRuns(L.log), principal, stamps).ledger;
    forall run | run in ReviewRuns(M.log) ensures DoneWith(M.log, run) {
      ReconcileCloses(L, principal, stamps, run);
      ListedHasStatus(M, run);
    }
    NothingToDo(M, ReviewRuns(M.log), again, later);
  }

  lemma {:induction false} NothingToDo(L: Ledger, runs: seq<Text>, principal: Text, stamps: Text -> Stamp)
    requires forall run :: run in runs ==> DoneWith(L.log, run)
    ensures ReconcileRuns(L, runs, principal, stamps) == Progress(L, [], [], false)
  {
    if runs != [] {
      NothingToDo(L, runs[..|runs| - 1], principal, stamps);
      var last := runs[|runs| - 1];
      assert DoneWith(L.log, last);
      VerdictEvents(Fold(last, ReviewOf(L.log, last)).value, principal, stamps(last));
    }
  }
}
