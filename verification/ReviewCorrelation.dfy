/**
 What ties a review to the execution it reviews: every claim names a stored success of the same
 run, under one correlation, by another actor. The scheduler compares a candidate with that event
 only, and never with the review stream; that the fold then finds them equal is an invariant of
 the whole system.
 */
module ReviewCorrelation {
  import opened Wrappers
  import opened Sequences
  import opened Values
  import opened Events
  import opened Ledgers
  import opened LedgerLaws
  import opened LedgerReads
  import opened ReviewLifecycle
  import opened ReviewLaws
  import opened ReviewRuntime
  import opened ReviewProtocol
  import opened ReviewProgress
  import opened ReviewClients

  // ---------------------------------------------------------------- lookup by id

  lemma {:induction false} ByIdMeaning(log: seq<Event>, id: Text)
    ensures ById(log, id).Some? ==> ById(log, id).value in log && ById(log, id).value.eventId == id
    ensures ById(log, id).None? ==> forall e :: e in log ==> e.eventId != id
  {
    if log != [] {
      ByIdMeaning(log[..|log| - 1], id);
      SplitLast(log);
    }
  }

  /** An event once stored is what its id finds for ever. */
  lemma {:induction false} ByIdGrows(log: seq<Event>, more: seq<Event>, id: Text)
    requires IdsUnique(more) && log <= more && ById(log, id).Some?
    ensures ById(more, id) == ById(log, id)
  {
    ByIdMeaning(log, id);
    ByIdMeaning(more, id);
    var e := ById(log, id).value;
    assert more[..|log|] == log && e in more;
    var f := ById(more, id).value;
    var i :| 0 <= i < |more| && more[i] == e;
    var j :| 0 <= j < |more| && more[j] == f;
    assert i == j;
  }

  // ---------------------------------------------------------------- the invariant

  /** What the lease in a claim's payload says under `key`. */
  function Claimed(e: Event, key: Field): Option<Text> {
    if e.payload.Obj? && LeaseField in e.payload.fields && e.payload.fields[LeaseField].Obj?
    then TextAt(e.payload.fields[LeaseField].fields, key)
    else None
  }

  /** `run` is a success of the run, with that payload, under that correlation, by someone else. */
  predicate Executed(run: Event, runId: Text, digest: Text, correlation: Text, worker: Text) {
    && run.streamId == RunStream(runId) && run.eventType == RunSucceeded && run.source == RuntimeSource
    && Sha256(run.payload) == digest && run.correlationId == correlation && run.actor != worker
  }

  /** A claim names a stored event that is such a success, by someone other than its worker. */
  predicate Grounded(log: seq<Event>, e: Event) {
    e.streamId.ReviewStream? && e.eventType == ReviewClaimed ==>
      var id, digest, worker := Claimed(e, RunEventId), Claimed(e, RunEventDigest), Claimed(e, WorkerId);
      && id.Some? && digest.Some? && worker.Some? && ById(log, id.value).Some?
      && Executed(ById(log, id.value).value, e.streamId.run, digest.value, e.correlationId, worker.value)
  }

  ghost predicate AllGrounded(log: seq<Event>, es: seq<Event>) {
    forall e :: e in es ==> Grounded(log, e)
  }

  ghost predicate SystemGrounded(sys: System) {
    && AllGrounded(sys.ledger.log, sys.ledger.log)
    && forall c :: c in sys.clients && sys.clients[c].Holding? ==> Grounded(sys.ledger.log, sys.clients[c].event)
  }

  lemma GroundedGrows(log: seq<Event>, more: seq<Event>, e: Event)
    requires IdsUnique(more) && log <= more && Grounded(log, e)
    ensures Grounded(more, e)
  {
    if e.streamId.ReviewStream? && e.eventType == ReviewClaimed {
      ByIdGrows(log, more, Claimed(e, RunEventId).value);
    }
  }

  lemma LedgerGrows(sys: System, L: Ledger)
    requires SystemGrounded(sys) && IdsUnique(L.log) && sys.ledger.log <= L.log
    requires forall e :: e in L.log && e !in sys.ledger.log ==> Grounded(L.log, e)
    ensures SystemGrounded(sys.(ledger := L))
  {
    forall e | e in L.log ensures Grounded(L.log, e) {
      if e in sys.ledger.log {
        GroundedGrows(sys.ledger.log, L.log, e);
      }
    }
    forall c | c in sys.clients && sys.clients[c].Holding? ensures Grounded(L.log, sys.clients[c].event) {
      GroundedGrows(sys.ledger.log, L.log, sys.clients[c].event);
    }
  }

  // ---------------------------------------------------------------- every step keeps it

  lemma {:induction false} ClaimGrounded(log: seq<Event>, candidate: Candidate, worker: Text, expiresAt: Time,
                                         stamp: Stamp)
    requires var run, existing := ById(log, candidate.runEventId), ReviewOf(log, candidate.runId);
             Claim(candidate, worker, expiresAt, stamp, run, existing).Ok?
    ensures var run, existing := ById(log, candidate.runEventId), ReviewOf(log, candidate.runId);
            Grounded(log, Claim(candidate, worker, expiresAt, stamp, run, existing).value.event)
  {
    var run, existing := ById(log, candidate.runEventId), ReviewOf(log, candidate.runId);
    var event := Claim(candidate, worker, expiresAt, stamp, run, existing).value.event;
    assert Claimed(event, RunEventId) == Some(candidate.runEventId);
    assert Claimed(event, RunEventDigest) == Some(candidate.runEventDigest) && Claimed(event, WorkerId) == Some(worker);
  }

  lemma DecisionGrounded(log: seq<Event>, request: ReviewClients.Request)
    requires Decide(log, request).Ok?
    ensures Grounded(log, Decide(log, request).value.event)
  {
    if request.ClaimRequest? {
      ClaimGrounded(log, request.candidate, request.worker, request.expiresAt, request.stamp);
    }
  }

  lemma VerdictGrounded(log: seq<Event>, s: State, principal: Text, stamp: Stamp)
    ensures var verdict := Reconcile(s, principal, stamp);
            verdict.Ok? && !verdict.value.Leave? ==> Grounded(log, verdict.value.event)
  {
  }

  lemma CommitGrounded(sys: System, c: nat)
    requires SystemValid(sys) && SystemGrounded(sys) && ClientAt(sys, c).Holding?
    ensures SystemGrounded(sys.(ledger := Next(sys, Commit(c)).ledger))
  {
    var client, L := ClientAt(sys, c), sys.ledger;
    var M := Next(sys, Commit(c)).ledger;
    StepKeepsOrder(sys, Commit(c));
    AppendOne(L, client.event, |client.existing|);
    if M.log != L.log {
      GroundedGrows(L.log, M.log, client.event);
      LedgerGrows(sys, M);
    }
  }

  lemma ForeignGrounded(sys: System, batch: seq<Event>, expected: map<StreamId, int>)
    requires SystemValid(sys) && SystemGrounded(sys) && AppendMany(sys.ledger, batch, expected).Some?
    requires forall e :: e in batch ==> !e.streamId.ReviewStream?
    ensures SystemGrounded(sys.(ledger := AppendMany(sys.ledger, batch, expected).value.ledger))
  {
    var L, M := sys.ledger, AppendMany(sys.ledger, batch, expected).value.ledger;
    ForeignIsHarmless(L, batch, expected);
    if M != L {
      forall e | e in M.log && e.streamId.ReviewStream? ensures Grounded(M.log, e) {
        NoReviewsAdded(L.log, batch, e.streamId.run);
        OnStreamMembers(L.log, e.streamId);
        OnStreamMembers(M.log, e.streamId);
        GroundedGrows(L.log, M.log, e);
      }
      LedgerGrows(sys, M);
    }
  }

  lemma StepKeepsGrounds(sys: System, action: Action)
    requires SystemValid(sys) && SystemGrounded(sys)
    ensures SystemGrounded(Next(sys, action))
  {
    var L := sys.ledger;
    match action {
      case Begin(c, request) =>
        if Decide(L.log, request).Ok? {
          DecisionGrounded(L.log, request);
        }
      case Observe(c, runId, principal) =>
      case Prepare(c, stamp) =>
        if ClientAt(sys, c).Observed? {
          VerdictGrounded(L.log, ClientAt(sys, c).state, ClientAt(sys, c).principal, stamp);
        }
      case Commit(c) =>
        if ClientAt(sys, c).Holding? {
          CommitGrounded(sys, c);
        }
      case Foreign(batch, expected) =>
        if (forall e :: e in batch ==> !e.streamId.ReviewStream?) && AppendMany(L, batch, expected).Some? {
          ForeignGrounded(sys, batch, expected);
        }
    }
  }

  lemma {:induction false} ReachKeepsGrounds(actions: seq<Action>)
    ensures SystemValid(Reach(INITIAL, actions)) && SystemGrounded(Reach(INITIAL, actions))
  {
    InitiallyValid();
    ReachKeepsOrder(INITIAL, actions);
    if actions != [] {
      ReachKeepsGrounds(actions[..|actions| - 1]);
      StepKeepsGrounds(Reach(INITIAL, actions[..|actions| - 1]), actions[|actions| - 1]);
    }
  }

  // ---------------------------------------------------------------- a whole history

  /** The execution event the state's lease names is such a success, by someone other than the lease's worker. */
  ghost predicate Correlated(log: seq<Event>, s: State) {
    var run := ById(log, s.lease.runEventId);
    run.Some? && Executed(run.value, s.runId, s.lease.runEventDigest, s.latest.correlationId, s.lease.workerId)
  }

  lemma ClaimTexts(e: Event, lease: Lease)
    requires BodyOf(e) == Some(ClaimBody(lease)) && e.eventType == ReviewClaimed
    ensures Claimed(e, RunEventId) == Some(lease.runEventId)
    ensures Claimed(e, RunEventDigest) == Some(lease.runEventDigest) && Claimed(e, WorkerId) == Some(lease.workerId)
  {
  }

  lemma FirstCorrelated(log: seq<Event>, runId: Text, e: Event, body: Body, next: State)
    requires Stepped(runId, None, e, body, next) && BodyOf(e) == Some(body) && Grounded(log, e)
    ensures Correlated(log, next)
  {
    ClaimTexts(e, body.lease);
  }

  lemma StepCorrelated(log: seq<Event>, runId: Text, s: State, e: Event, body: Body, next: State)
    requires Stepped(runId, Some(s), e, body, next) && BodyOf(e) == Some(body) && Grounded(log, e)
    requires Correlated(log, s) && s.runId == runId
    ensures Correlated(log, next)
  {
    if body.ClaimBody? {
      ClaimTexts(e, body.lease);
    }
    assert next.lease.runEventId == s.lease.runEventId && next.lease.runEventDigest == s.lease.runEventDigest;
  }

  lemma {:induction false} HistoryCorrelated(log: seq<Event>, runId: Text, es: seq<Event>)
    requires Fold(runId, es).Some? && AllGrounded(log, es)
    ensures Correlated(log, Fold(runId, es).value)
  {
    var prior, e := es[..|es| - 1], Last(es);
    SplitLast(es);
    FoldPushed(runId, prior, e, es);
    var body := StepMeaning(runId, Fold(runId, prior), e);
    if prior == [] {
      FirstCorrelated(log, runId, e, body, Fold(runId, es).value);
    } else {
      HistoryCorrelated(log, runId, prior);
      FoldConsistent(runId, prior);
      StepCorrelated(log, runId, Fold(runId, prior).value, e, body, Fold(runId, es).value);
    }
  }

  /** In every reachable state, an open or closed review carries the correlation of its execution event. */
  lemma {:induction false} ReviewsCorrelated(actions: seq<Action>, runId: Text)
    ensures var log := Reach(INITIAL, actions).ledger.log;
            ReviewOf(log, runId) != [] ==>
              Fold(runId, ReviewOf(log, runId)).Some? && Correlated(log, Fold(runId, ReviewOf(log, runId)).value)
  {
    var log := Reach(INITIAL, actions).ledger.log;
    ReachKeepsGrounds(actions);
    ReachableStreamsAccepted(actions, runId);
    OnStreamMembers(log, ReviewStream(runId));
    if ReviewOf(log, runId) != [] {
      HistoryCorrelated(log, runId, ReviewOf(log, runId));
    }
  }

  /**
   In every reachable state, the worker of a review is not the actor of the execution under review,
   which is stored, succeeded, and has the payload the lease names.
   */
  lemma {:induction false} ReviewerIsNotExecutor(actions: seq<Action>, runId: Text)
    requires ReviewOf(Reach(INITIAL, actions).ledger.log, runId) != []
    ensures var log := Reach(INITIAL, actions).ledger.log;
            var folded := Fold(runId, ReviewOf(log, runId));
            folded.Some? && var lease := folded.value.lease;
            exists run :: && run in log && run.eventId == lease.runEventId && run.streamId == RunStream(runId)
                          && run.eventType == RunSucceeded && Sha256(run.payload) == lease.runEventDigest
                          && run.actor != lease.workerId
  {
    var log := Reach(INITIAL, actions).ledger.log;
    ReviewsCorrelated(actions, runId);
    FoldConsistent(runId, ReviewOf(log, runId));
    ByIdMeaning(log, Fold(runId, ReviewOf(log, runId)).value.lease.runEventId);
    assert ById(log, Fold(runId, ReviewOf(log, runId)).value.lease.runEventId).value in log;
  }

  // ---------------------------------------------------------------- every decision is accepted

  /**
   In every reachable state, a claim the scheduler decides on leads to the claimed review
   it is for, under the next attempt and fencing token.
   */
  lemma {:induction false} ClaimProgresses(actions: seq<Action>, candidate: Candidate, worker: Text, expiresAt: Time,
                                           stamp: Stamp)
    requires candidate.Valid()
    requires Decide(Reach(INITIAL, actions).ledger.log, ClaimRequest(candidate, worker, expiresAt, stamp)).Ok?
    ensures var log := Reach(INITIAL, actions).ledger.log;
            var pending := Decide(log, ClaimRequest(candidate, worker, expiresAt, stamp)).value;
            var existing := ReviewOf(log, candidate.runId);
            && Fold(candidate.runId, existing + [pending.event])
               == Some(ClaimedState(candidate.runId, pending.lease, pending.event))
            && pending.lease.attempt == pending.lease.fencingToken == Count(existing, ReviewClaimed) + 1
  {
    var log := Reach(INITIAL, actions).ledger.log;
    var existing := ReviewOf(log, candidate.runId);
    ClaimFolds(candidate, worker, expiresAt, stamp, ById(log, candidate.runEventId), existing);
    ReviewsCorrelated(actions, candidate.runId);
    if existing != [] {
      FoldConsistent(candidate.runId, existing);
    }
  }

  /** What constructing the arguments of a call guarantees. */
  predicate Formed(request: ReviewClients.Request) {
    if request.ClaimRequest? then request.candidate.Valid() else request.lease.Valid()
  }

  /** Whatever a worker call decides in any reachable state, the fold of the stream it read accepts. */
  lemma {:induction false} EveryDecisionIsAccepted(actions: seq<Action>, request: ReviewClients.Request)
    requires Formed(request) && Decide(Reach(INITIAL, actions).ledger.log, request).Ok?
    ensures var log := Reach(INITIAL, actions).ledger.log;
            Fold(request.Run(), ReviewOf(log, request.Run()) + [Decide(log, request).value.event]).Some?
  {
    var existing := ReviewOf(Reach(INITIAL, actions).ledger.log, request.Run());
    match request {
      case ClaimRequest(candidate, worker, expiresAt, stamp) =>
        ClaimProgresses(actions, candidate, worker, expiresAt, stamp);
      case RenewRequest(lease, expiresAt, principal, stamp) =>
        RenewalProgresses(lease, expiresAt, principal, stamp, existing);
      case DispatchRequest(lease, acceptance, context, artifact, principal, stamp) =>
        DispatchProgresses(lease, acceptance, context, artifact, principal, stamp, existing);
      case SuccessRequest(lease, context, proposal, providerResult, admitted, findings, principal, stamp) =>
        SuccessProgresses(lease, context, proposal, providerResult, admitted, findings, principal, stamp, existing);
      case FailureRequest(lease, code, result, principal, stamp) =>
        FailureProgresses(lease, code, result, principal, stamp, existing);
    }
  }
}
