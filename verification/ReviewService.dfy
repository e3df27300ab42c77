/** The review scheduler over a live event store. */
module ReviewService {
  import opened Wrappers
  import opened Sequences
  import opened Values
  import opened Events
  import opened Ledgers
  import opened LedgerLaws
  import opened EventStores
  import opened ReviewLifecycle
  import opened ReviewLaws
  import opened ReviewFold
  import opened ReviewRuntime
  import opened ReviewProgress
  import opened ReviewProtocol
  import Reads = LedgerReads

  // ---------------------------------------------------- the reconciled runs

  /** The runs whose review was ever claimed, in the order of their first claim. */
  function ReviewRuns(log: seq<Event>): seq<Text> {
    if log == [] then []
    else AddRun(ReviewRuns(log[..|log| - 1]), log[|log| - 1])
  }

  function AddRun(runs: seq<Text>, e: Event): seq<Text> {
    if e.eventType == ReviewClaimed && e.streamId.ReviewStream? && e.streamId.run !in runs
    then runs + [e.streamId.run] else runs
  }

  // -------------------------------------------------------- reconciling runs

  /** How far reconciliation got: the ledger, the two reported lists, and whether it raised. */
  datatype Progress = Progress(ledger: Ledger, requeued: seq<Text>, ambiguous: seq<Text>, failed: bool)

  /** One review: read its state, decide, append. */
  ghost function ReconcileOne(p: Progress, runId: Text, principal: Text, stamp: Stamp): Progress {
    var es := ReviewOf(p.ledger.log, runId);
    match Fold(runId, es)
    case None => p.(failed := true)
    case Some(s) => Settle(p, runId, es, Reconcile(s, principal, stamp))
  }

  ghost function Settle(p: Progress, runId: Text, existing: seq<Event>, verdict: Result<Verdict, Failure>): Progress {
    match verdict
    case Err(_) => p.(failed := true)
    case Ok(Leave) => p
    case Ok(Requeue(event)) => Recorded(p.(requeued := p.requeued + [runId]), Submit(p.ledger, runId, existing, event))
    case Ok(MarkAmbiguous(event)) =>
      Recorded(p.(ambiguous := p.ambiguous + [runId]), Submit(p.ledger, runId, existing, event))
  }

  function Recorded(p: Progress, submitted: Submitted): Progress {
    p.(ledger := submitted.ledger, failed := submitted.result.Err?)
  }

  /** The runs in order; the first failure stops it, keeping what is already appended. */
  ghost function ReconcileRuns(L: Ledger, runs: seq<Text>, principal: Text, stamps: Text -> Stamp): Progress {
    if runs == [] then Progress(L, [], [], false)
    else
      var p := ReconcileRuns(L, runs[..|runs| - 1], principal, stamps);
      if p.failed then p else ReconcileOne(p, runs[|runs| - 1], principal, stamps(runs[|runs| - 1]))
  }

  class ReviewRuntimeService {
    const events: EventStore

    constructor (events: EventStore)
      ensures this.events == events
    {
      this.events := events;
    }

    /** `_append`: only an extension the fold accepts is submitted, and the answer is checked again. */
    method AppendReview(runId: Text, existing: seq<Event>, event: Event) returns (r: Result<Event, Failure>)
      requires Valid(events.State())
      modifies events
      ensures Valid(events.State())
      ensures Submitted(events.State(), r) == Submit(old(events.State()), runId, existing, event)
    {
      var extended := FoldReviewLifecycle(runId, existing + [event]);
      if extended.None? {
        return Err(Conflict);
      }
      var appended := events.Append(event, |existing|);
      match appended {
        case Err(error) =>
          // a wrong sequence number is not among the errors the scheduler translates
          NeverMisnumbered(old(events.State()), runId, existing, event, error);
          assert !error.WrongSequence?;
          return Err(Conflict);
        case Ok(stored) =>
          var confirmed := FoldReviewLifecycle(runId, existing + [stored]);
          return if confirmed.Some? then Ok(stored) else Err(Conflict);
      }
    }

    method Inspect(runId: Text) returns (r: Result<Option<State>, Failure>)
      ensures var es := ReviewOf(events.log, runId);
              r == if es == [] then Ok(None) else if Fold(runId, es).None? then Err(Conflict) else Ok(Fold(runId, es))
    {
      var stream := events.ReadStream(ReviewStream(runId));
      if stream == [] {
        return Ok(None);
      }
      var state := FoldReviewLifecycle(runId, stream);
      return if state.None? then Err(Conflict) else Ok(state);
    }

    method Claim(candidate: Candidate, worker: Text, expiresAt: Time, stamp: Stamp)
      returns (r: Result<ClaimedReview, Failure>)
      requires Valid(events.State()) && candidate.Valid()
      modifies events
      ensures Valid(events.State())
      ensures Answered(old(events.State()), candidate.runId,
                       ReviewRuntime.Claim(candidate, worker, expiresAt, stamp,
                                           Reads.ById(old(events.log), candidate.runEventId),
                                           ReviewOf(old(events.log), candidate.runId)),
                       events.State(), Done(r))
      ensures r.Ok? ==> r.value.eventId == stamp.id
    {
      var run := events.Get(candidate.runEventId);
      var existing := events.ReadStream(ReviewStream(candidate.runId));
      var decided := ReviewRuntime.Claim(candidate, worker, expiresAt, stamp, run, existing);
      match decided {
        case Err(failure) => return Err(failure);
        case Ok(pending) =>
          var appended := AppendReview(candidate.runId, existing, pending.event);
          return if appended.Ok? then Ok(ClaimedReview(pending.lease, pending.event.eventId)) else Err(appended.error);
      }
    }

    method RenewLease(lease: Lease, expiresAt: Time, principal: Text, stamp: Stamp) returns (r: Result<Lease, Failure>)
      requires Valid(events.State()) && lease.Valid()
      modifies events
      ensures Valid(events.State())
      ensures Answered(old(events.State()), lease.runId,
                       Renew(lease, expiresAt, principal, stamp, ReviewOf(old(events.log), lease.runId)),
                       events.State(), Done(r))
      ensures r.Ok? ==> r.value == lease.(expiresAt := expiresAt)
    {
      var existing := events.ReadStream(ReviewStream(lease.runId));
      var decided := Renew(lease, expiresAt, principal, stamp, existing);
      match decided {
        case Err(failure) => return Err(failure);
        case Ok(pending) =>
          var appended := AppendReview(lease.runId, existing, pending.event);
          return if appended.Ok? then Ok(pending.lease) else Err(appended.error);
      }
    }

    method RecordProviderDispatch(lease: Lease, acceptance: Text, context: Text, contextArtifact: Text, principal: Text,
                                  stamp: Stamp)
      returns (r: Result<Text, Failure>)
      requires Valid(events.State()) && lease.Valid()
      modifies events
      ensures Valid(events.State())
      ensures Answered(old(events.State()), lease.runId,
                       Dispatch(lease, acceptance, context, contextArtifact, principal, stamp,
                                ReviewOf(old(events.log), lease.runId)),
                       events.State(), Done(r))
      ensures r.Ok? ==> r.value == stamp.id
    {
      var existing := events.ReadStream(ReviewStream(lease.runId));
      var decided := Dispatch(lease, acceptance, context, contextArtifact, principal, stamp, existing);
      match decided {
        case Err(failure) => return Err(failure);
        case Ok(pending) =>
          var appended := AppendReview(lease.runId, existing, pending.event);
          return if appended.Ok? then Ok(pending.event.eventId) else Err(appended.error);
      }
    }

    /** `_require_state` */
    method RequireState(runId: Text) returns (r: Result<State, Failure>)
      ensures var es := ReviewOf(events.log, runId);
              match r
              case Ok(state) => Fold(runId, es) == Some(state)
              case Err(failure) => Fold(runId, es).None? && failure == if es == [] then NotFound else Conflict
    {
      var state := Inspect(runId);
      match state {
        case Err(failure) => return Err(failure);
        case Ok(None) => return Err(NotFound);
        case Ok(Some(found)) => return Ok(found);
      }
    }

    /** The state returned is the stream's: succeeded, under this lease, with every artifact named. */
    method RecordSuccess(lease: Lease, context: Text, proposal: Text, providerResult: Text, admitted: Text,
                         findings: int,
                         principal: Text, stamp: Stamp)
      returns (r: Result<State, Failure>)
      requires Valid(events.State()) && lease.Valid()
      modifies events
      ensures Valid(events.State())
      ensures Answered(old(events.State()), lease.runId,
                       Succeed(lease, context, proposal, providerResult, admitted, findings, principal, stamp,
                               ReviewOf(old(events.log), lease.runId)),
                       events.State(), Done(r))
      ensures r.Ok? ==> Fold(lease.runId, ReviewOf(events.log, lease.runId)) == Some(r.value)
      ensures r.Ok? ==> r.value.status == LifecycleStatus.Succeeded && r.value.lease == lease
                        && r.value.context == Some(context) && r.value.proposal == Some(proposal)
                        && r.value.providerResult == Some(providerResult) && r.value.admitted == Some(admitted)
                        && r.value.findings == Some(findings)
    {
      var existing := events.ReadStream(ReviewStream(lease.runId));
      var decided := Succeed(lease, context, proposal, providerResult, admitted, findings, principal, stamp, existing);
      match decided {
        case Err(failure) => return Err(failure);
        case Ok(pending) =>
          ghost var before := events.State();
          SuccessProgresses(lease, context, proposal, providerResult, admitted, findings, principal, stamp, existing);
          var appended := AppendReview(lease.runId, existing, pending.event);
          if appended.Err? {
            return Err(appended.error);
          }
          WholeSubmissionStores(before, lease.runId, pending.event);
          r := RequireState(lease.runId);
      }
    }

    /** The state returned is the stream's: failed, under this lease, with its code. */
    method RecordFailure(lease: Lease, code: Text, result: Option<Text>, principal: Text, stamp: Stamp)
      returns (r: Result<State, Failure>)
      requires Valid(events.State()) && lease.Valid()
      modifies events
      ensures Valid(events.State())
      ensures Answered(old(events.State()), lease.runId,
                       Fail(lease, code, result, principal, stamp, ReviewOf(old(events.log), lease.runId)),
                       events.State(), Done(r))
      ensures r.Ok? ==> Fold(lease.runId, ReviewOf(events.log, lease.runId)) == Some(r.value)
      ensures r.Ok? ==> r.value.status == LifecycleStatus.Failed && r.value.lease == lease
                        && r.value.failureCode == Some(code) && r.value.resultArtifact == result
    {
      var existing := events.ReadStream(ReviewStream(lease.runId));
      var decided := Fail(lease, code, result, principal, stamp, existing);
      match decided {
        case Err(failure) => return Err(failure);
        case Ok(pending) =>
          ghost var before := events.State();
          FailureProgresses(lease, code, result, principal, stamp, existing);
          var appended := AppendReview(lease.runId, existing, pending.event);
          if appended.Err? {
            return Err(appended.error);
          }
          WholeSubmissionStores(before, lease.runId, pending.event);
          r := RequireState(lease.runId);
      }
    }

    /** Page through the whole ledger, two hundred rows at a time. */
    method ReviewRunIds() returns (runs: seq<Text>)
      requires Valid(events.State())
      ensures runs == ReviewRuns(events.log)
    {
      runs := [];
      var seen: set<Text> := {};
      var cursor: nat := 0;
      ghost var n: nat := 0;
      ghost var log := events.log;
      while true
        invariant n <= |log| && cursor == Reads.Cursor(log, n)
        invariant runs == ReviewRuns(log[..n])
        invariant SameRuns(seen, runs)
        decreases |log| - n
      {
        var page := events.ReadAll(cursor, 200);
        PageAdvances(log, n);
        if page.value == [] {
          break;
        }
        runs, seen := CollectRuns(page.value, runs, seen);
        cursor := Reads.Position(page.value[|page.value| - 1]);
        n := n + |page.value|;
      }
    }

    method CollectRuns(rows: seq<Event>, before: seq<Text>, known: set<Text>) returns (runs: seq<Text>, seen: set<Text>)
      requires SameRuns(known, before)
      ensures runs == AddRuns(before, rows)
      ensures SameRuns(seen, runs)
    {
      runs, seen := before, known;
      for i := 0 to |rows|
        invariant runs == AddRuns(before, rows[..i])
        invariant SameRuns(seen, runs)
      {
        FrontOfPrefix(rows, i);
        if rows[i].eventType == ReviewClaimed && rows[i].streamId.ReviewStream? {
          var run := rows[i].streamId.run;
          if run !in seen {
            seen := seen + {run};
            runs := runs + [run];
          }
        }
      }
      WholePrefix(rows);
    }

    /** One review of the reconciliation loop, with the reports so far. */
    method ReconcileReview(runId: Text, principal: Text, stamp: Stamp, requeuedBefore: seq<Text>,
                           ambiguousBefore: seq<Text>)
      returns (failure: Option<Failure>, requeued: seq<Text>, ambiguous: seq<Text>)
      requires Valid(events.State())
      modifies events
      ensures Valid(events.State())
      ensures Progress(events.State(), requeued, ambiguous, failure.Some?)
              == ReconcileOne(Progress(old(events.State()), requeuedBefore, ambiguousBefore, false), runId, principal,
                              stamp)
    {
      var inspected := Inspect(runId);
      if inspected.Err? || inspected.value.None? {
        return Some(if inspected.Err? then inspected.error else NotFound), requeuedBefore, ambiguousBefore;
      }
      var existing := events.ReadStream(ReviewStream(runId));
      var verdict := Reconcile(inspected.value.value, principal, stamp);
      failure, requeued, ambiguous := SettleReview(runId, existing, verdict, requeuedBefore, ambiguousBefore);
    }

    method SettleReview(runId: Text, existing: seq<Event>, verdict: Result<Verdict, Failure>,
                        requeuedBefore: seq<Text>, ambiguousBefore: seq<Text>)
      returns (failure: Option<Failure>, requeued: seq<Text>, ambiguous: seq<Text>)
      requires Valid(events.State())
      modifies events
      ensures Valid(events.State())
      ensures Progress(events.State(), requeued, ambiguous, failure.Some?)
              == Settle(Progress(old(events.State()), requeuedBefore, ambiguousBefore, false), runId, existing, verdict)
    {
      requeued, ambiguous, failure := requeuedBefore, ambiguousBefore, None;
      match verdict {
        case Err(error) => failure := Some(error);
        case Ok(Leave) =>
        case Ok(Requeue(event)) =>
          requeued := requeued + [runId];
          var appended := AppendReview(runId, existing, event);
          failure := if appended.Err? then Some(appended.error) else None;
        case Ok(MarkAmbiguous(event)) =>
          ambiguous := ambiguous + [runId];
          var appended := AppendReview(runId, existing, event);
          failure := if appended.Err? then Some(appended.error) else None;
      }
    }

    /** Restart reconciliation: every claimed review is requeued, every dispatched one marked ambiguous. */
    method ReconcileAll(principal: Text, stamps: Text -> Stamp) returns (r: Result<Report, Failure>)
      requires Valid(events.State())
      modifies events
      ensures Valid(events.State())
      ensures !IsIdentifier(principal) ==> r == Err(InvalidRequest) && events.State() == old(events.State())
      ensures IsIdentifier(principal) ==>
        Reported(ReconcileRuns(old(events.State()), ReviewRuns(old(events.log)), principal, stamps),
                 events.State(), r)
    {
      if !IsIdentifier(principal) {
        return Err(InvalidRequest);
      }
      var runs := ReviewRunIds();
      var requeued, ambiguous: seq<Text> := [], [];
      ghost var L := events.State();
      for i := 0 to |runs|
        invariant Valid(events.State())
        invariant ReconcileRuns(L, runs[..i], principal, stamps) == Progress(events.State(), requeued, ambiguous, false)
      {
        RunsStep(L, runs, i, principal, stamps, Progress(events.State(), requeued, ambiguous, false));
        var failure: Option<Failure>;
        failure, requeued, ambiguous := ReconcileReview(runs[i], principal, stamps(runs[i]), requeued, ambiguous);
        if failure.Some? {
          return Err(failure.value);
        }
      }
      WholePrefix(runs);
      return Ok(Report(requeued, ambiguous));
    }
  }

  function AddRuns(runs: seq<Text>, rows: seq<Event>): seq<Text> {
    if rows == [] then runs else AddRun(AddRuns(runs, rows[..|rows| - 1]), rows[|rows| - 1])
  }

  lemma {:induction false} AddRunsContinues(log: seq<Event>, rows: seq<Event>)
    ensures ReviewRuns(log + rows) == AddRuns(ReviewRuns(log), rows)
  {
    if rows == [] {
      assert log + rows == log;
    } else {
      assert (log + rows)[..|log + rows| - 1] == log + rows[..|rows| - 1];
      AddRunsContinues(log, rows[..|rows| - 1]);
    }
  }

  /** A page read at the cursor after `n` rows is the next rows of the log, and moves the cursor past them. */
  lemma PageAdvances(log: seq<Event>, n: nat)
    requires PositionsIncrease(log) && n <= |log|
    ensures var page := Reads.ReadAll(log, Reads.Cursor(log, n), Some(200));
            && n + |page| <= |log|
            && (page == [] ==> log[..n] == log)
            && ReviewRuns(log[..n + |page|]) == AddRuns(ReviewRuns(log[..n]), page)
            && (page != [] ==> Reads.Cursor(log, n + |page|) == Reads.Position(page[|page| - 1]))
  {
    Reads.AfterCursor(log, n);
    var page := Reads.ReadAll(log, Reads.Cursor(log, n), Some(200));
    assert log[..n + |page|] == log[..n] + page;
    AddRunsContinues(log[..n], page);
  }

  ghost predicate SameRuns(seen: set<Text>, runs: seq<Text>) {
    forall run :: run in seen <==> run in runs
  }

  datatype ClaimedReview = ClaimedReview(lease: Lease, eventId: Text)

  datatype Report = Report(requeued: seq<Text>, ambiguous: seq<Text>)

  function Done<T>(r: Result<T, Failure>): Result<(), Failure> {
    match r case Ok(_) => Ok(()) case Err(e) => Err(e)
  }

  /** A call refused while deciding changes nothing; a decided one does exactly what its submission does. */
  ghost predicate Answered(L: Ledger, runId: Text, decided: Result<Pending, Failure>, M: Ledger,
                           r: Result<(), Failure>) {
    match decided
    case Err(failure) => M == L && r == Err(failure)
    case Ok(pending) =>
      var submitted := Submit(L, runId, ReviewOf(L.log, runId), pending.event);
      M == submitted.ledger && r == Done(submitted.result)
  }

  /** What reconciliation leaves and reports: everything, or that it failed on the way. */
  ghost predicate Reported(p: Progress, M: Ledger, r: Result<Report, Failure>) {
    M == p.ledger && (r.Ok? <==> !p.failed) && (r.Ok? ==> r.value == Report(p.requeued, p.ambiguous))
  }

  /** One turn of the loop; if it fails, it has failed for all the runs. */
  lemma {:induction false} RunsStep(L: Ledger, runs: seq<Text>, i: nat, principal: Text, stamps: Text -> Stamp,
                                    before: Progress)
    requires i < |runs| && ReconcileRuns(L, runs[..i], principal, stamps) == before && !before.failed
    ensures var after := ReconcileOne(before, runs[i], principal, stamps(runs[i]));
            && ReconcileRuns(L, runs[..i + 1], principal, stamps) == after
            && (after.failed ==> ReconcileRuns(L, runs, principal, stamps) == after)
  {
    var next := runs[..i + 1];
    assert next[..|next| - 1] == runs[..i] && next[|next| - 1] == runs[i];
    if ReconcileRuns(L, next, principal, stamps).failed {
      StuckRun(L, runs, i + 1, principal, stamps);
    }
  }

  /** After the run that failed nothing else is tried. */
  lemma {:induction false} StuckRun(L: Ledger, runs: seq<Text>, k: nat, principal: Text, stamps: Text -> Stamp)
    requires k <= |runs| && ReconcileRuns(L, runs[..k], principal, stamps).failed
    ensures ReconcileRuns(L, runs, principal, stamps) == ReconcileRuns(L, runs[..k], principal, stamps)
    decreases |runs| - k
  {
    if k == |runs| {
      assert runs[..k] == runs;
    } else {
      FrontOfPrefix(runs, k);
      StuckRun(L, runs, k + 1, principal, stamps);
    }
  }

  lemma {:induction false} NeverMisnumbered(L: Ledger, runId: Text, existing: seq<Event>, event: Event,
                                            error: AppendError)
    requires Fold(runId, existing + [event]).Some?
    requires Explains(L, [event], map[event.streamId := |existing|], error)
    ensures !error.WrongSequence?
  {
    NextIsNumbered(runId, existing, event);
    OneOnStream(event, event.streamId);
  }

  lemma {:induction false} NextIsNumbered(runId: Text, es: seq<Event>, e: Event)
    requires Fold(runId, es + [e]).Some?
    ensures e.streamSequence == |es| + 1
  {
    HistoryChained(runId, es + [e], |es|);
  }
}
