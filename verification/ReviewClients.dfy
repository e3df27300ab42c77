/**
 Any number of clients, interleaved at every read and every append. A worker call
 reads its stream once and appends later; reconciliation reads the state and the
 stream separately; everyone else appends to streams that are not reviews.
 */
module ReviewClients {
  import opened Wrappers
  import opened Values
  import opened Events
  import opened Ledgers
  import opened LedgerLaws
  import opened ReviewLifecycle
  import opened ReviewLaws
  import opened ReviewRuntime
  import opened ReviewProtocol
  import LedgerReads

  datatype Request =
    | ClaimRequest(candidate: Candidate, worker: Text, expiresAt: Time, stamp: Stamp)
    | RenewRequest(lease: Lease, expiresAt: Time, principal: Text, stamp: Stamp)
    | DispatchRequest(lease: Lease, acceptance: Text, context: Text, contextArtifact: Text, principal: Text,
                      stamp: Stamp)
    | SuccessRequest(lease: Lease, context: Text, proposal: Text, providerResult: Text, admitted: Text, findings: int,
                     principal: Text, stamp: Stamp)
    | FailureRequest(lease: Lease, code: Text, result: Option<Text>, principal: Text, stamp: Stamp)
  {
    function Run(): Text {
      if ClaimRequest? then candidate.runId else lease.runId
    }
  }

  /** What a worker call decides from the ledger it reads. */
  function Decide(log: seq<Event>, request: Request): Result<Pending, Failure> {
    var existing := ReviewOf(log, request.Run());
    match request
    case ClaimRequest(candidate, worker, expiresAt, stamp) =>
      Claim(candidate, worker, expiresAt, stamp, LedgerReads.ById(log, candidate.runEventId), existing)
    case RenewRequest(lease, expiresAt, principal, stamp) => Renew(lease, expiresAt, principal, stamp, existing)
    case DispatchRequest(lease, acceptance, context, contextArtifact, principal, stamp) =>
      Dispatch(lease, acceptance, context, contextArtifact, principal, stamp, existing)
    case SuccessRequest(lease, context, proposal, providerResult, admitted, findings, principal, stamp) =>
      Succeed(lease, context, proposal, providerResult, admitted, findings, principal, stamp, existing)
    case FailureRequest(lease, code, result, principal, stamp) => Fail(lease, code, result, principal, stamp, existing)
  }

  datatype Client =
    | Idle
    | Holding(runId: Text, existing: seq<Event>, event: Event)   // between the read and the append
    | Observed(runId: Text, state: State, principal: Text)       // between reconciliation's two reads

  datatype System = System(ledger: Ledger, clients: map<nat, Client>)

  datatype Action =
    | Begin(client: nat, request: Request)
    | Observe(client: nat, runId: Text, principal: Text)
    | Prepare(client: nat, stamp: Stamp)
    | Commit(client: nat)
    | Foreign(batch: seq<Event>, expected: map<StreamId, int>)

  const INITIAL := System(EMPTY, map[])

  function ClientAt(sys: System, c: nat): Client {
    if c in sys.clients then sys.clients[c] else Idle
  }

  /** One atomic step of one client, or of anyone else using the ledger. */
  ghost function Next(sys: System, action: Action): System {
    var L := sys.ledger;
    match action
    case Begin(c, request) =>
      (match Decide(L.log, request)
       case Err(_) => sys.(clients := sys.clients[c := Idle])
       case Ok(pending) =>
         sys.(clients := sys.clients[c := Holding(request.Run(), ReviewOf(L.log, request.Run()), pending.event)]))
    case Observe(c, runId, principal) =>
      (match Fold(runId, ReviewOf(L.log, runId))
       case None => sys.(clients := sys.clients[c := Idle])
       case Some(state) => sys.(clients := sys.clients[c := Observed(runId, state, principal)]))
    case Prepare(c, stamp) =>
      (match ClientAt(sys, c)
       case Observed(runId, state, principal) =>
         (match Reconcile(state, principal, stamp)
          case Ok(Requeue(event)) => sys.(clients := sys.clients[c := Holding(runId, ReviewOf(L.log, runId), event)])
          case Ok(MarkAmbiguous(event)) =>
            sys.(clients := sys.clients[c := Holding(runId, ReviewOf(L.log, runId), event)])
          case _ => sys.(clients := sys.clients[c := Idle]))
       case _ => sys)
    case Commit(c) =>
      (match ClientAt(sys, c)
       case Holding(runId, existing, event) =>
         System(Submit(L, runId, existing, event).ledger, sys.clients[c := Idle])
       case _ => sys)
    case Foreign(batch, expected) =>
      if exists e :: e in batch && e.streamId.ReviewStream? then sys
      else
        match AppendMany(L, batch, expected)
        case None => sys
        case Some(a) => sys.(ledger := a.ledger)
  }

  ghost function Reach(sys: System, actions: seq<Action>): System {
    if actions == [] then sys
    else Next(Reach(sys, actions[..|actions| - 1]), actions[|actions| - 1])
  }

  /** What a client remembers is a past state of its stream. */
  ghost predicate ClientValid(log: seq<Event>, client: Client) {
    match client
    case Idle => true
    case Holding(runId, existing, event) =>
      event.streamId == ReviewStream(runId) && existing <= ReviewOf(log, runId)
    case Observed(runId, state, _) => state.runId == runId
  }

  ghost predicate SystemValid(sys: System) {
    InOrder(sys.ledger) && forall c :: c in sys.clients ==> ClientValid(sys.ledger.log, sys.clients[c])
  }

  // --------------------------------------------------------------- stability

  lemma StreamGrows(log: seq<Event>, more: seq<Event>, runId: Text)
    requires log <= more
    ensures ReviewOf(log, runId) <= ReviewOf(more, runId)
  {
    assert more == log + more[|log|..];
    OnStreamConcat(log, more[|log|..], ReviewStream(runId));
  }

  lemma ClientsStable(sys: System, L: Ledger)
    requires SystemValid(sys) && InOrder(L) && Extends(sys.ledger, L)
    ensures SystemValid(sys.(ledger := L))
  {
    forall c | c in sys.clients ensures ClientValid(L.log, sys.clients[c]) {
      var client := sys.clients[c];
      assert ClientValid(sys.ledger.log, client);
      if client.Holding? {
        StreamGrows(sys.ledger.log, L.log, client.runId);
      }
    }
  }

  /** A decision is always an event of the stream it was made from. */
  lemma DecisionOnStream(log: seq<Event>, request: Request)
    requires Decide(log, request).Ok?
    ensures Decide(log, request).value.event.streamId == ReviewStream(request.Run())
  {
    if !request.ClaimRequest? {
      StateOnRun(request.Run(), ReviewOf(log, request.Run()));
    }
  }

  lemma {:induction false} StateOnRun(runId: Text, es: seq<Event>)
    ensures Fold(runId, es).Some? ==> Fold(runId, es).value.runId == runId
  {
    if Fold(runId, es).Some? {
      FoldConsistent(runId, es);
    }
  }

  lemma {:induction false} NoReviewsAdded(base: seq<Event>, batch: seq<Event>, runId: Text)
    requires Walk(base, batch).Some?
    requires forall e :: e in batch ==> !e.streamId.ReviewStream?
    ensures ReviewOf(Walk(base, batch).value.log, runId) == ReviewOf(base, runId)
  {
    var added := WalkOnStream(base, batch, ReviewStream(runId));
    OnStreamEmpty(batch, ReviewStream(runId));
    FreshSuffix(base, batch, ReviewStream(runId), 0);
    assert added == [];
  }

  lemma ForeignIsHarmless(L: Ledger, batch: seq<Event>, expected: map<StreamId, int>)
    requires InOrder(L) && AppendMany(L, batch, expected).Some?
    requires forall e :: e in batch ==> !e.streamId.ReviewStream?
    ensures var M := AppendMany(L, batch, expected).value.ledger; InOrder(M) && Extends(L, M)
  {
    var M := AppendMany(L, batch, expected).value.ledger;
    AppendKeepsValid(L, batch, expected);
    if M != L {
      forall run ensures StreamAccepted(M.log, run) {
        NoReviewsAdded(L.log, batch, run);
        assert StreamAccepted(L.log, run);
      }
    }
  }

  // ------------------------------------------------------------------ safety

  /** Every step of every client keeps the ledger valid and every review stream accepted. */
  lemma StepKeepsOrder(sys: System, action: Action)
    requires SystemValid(sys)
    ensures SystemValid(Next(sys, action)) && Extends(sys.ledger, Next(sys, action).ledger)
  {
    var L := sys.ledger;
    match action {
      case Begin(c, request) =>
        if Decide(L.log, request).Ok? {
          DecisionOnStream(L.log, request);
        }
      case Observe(c, runId, principal) =>
        StateOnRun(runId, ReviewOf(L.log, runId));
      case Prepare(c, stamp) =>
      case Commit(c) =>
        var client := ClientAt(sys, c);
        if client.Holding? {
          assert ClientValid(L.log, client);
          SubmissionIsSafe(L, client.runId, client.existing, client.event);
          ClientsStable(sys, Next(sys, action).ledger);
        }
      case Foreign(batch, expected) =>
        if (forall e :: e in batch ==> !e.streamId.ReviewStream?) && AppendMany(L, batch, expected).Some? {
          ForeignIsHarmless(L, batch, expected);
          ClientsStable(sys, Next(sys, action).ledger);
        }
    }
  }

  lemma InitiallyValid()
    ensures SystemValid(INITIAL)
  {
    EmptyValid();
    forall run ensures StreamAccepted([], run) {
    }
  }

  /** From any valid system, any interleaving leads to a valid system whose ledger extends the old one. */
  lemma {:induction false} ReachKeepsOrder(sys: System, actions: seq<Action>)
    requires SystemValid(sys)
    ensures SystemValid(Reach(sys, actions)) && Extends(sys.ledger, Reach(sys, actions).ledger)
  {
    if actions != [] {
      var shorter := actions[..|actions| - 1];
      ReachKeepsOrder(sys, shorter);
      StepKeepsOrder(Reach(sys, shorter), actions[|actions| - 1]);
    }
  }

  /** In every reachable state, every stored review stream is empty or accepted. */
  lemma {:induction false} ReachableStreamsAccepted(actions: seq<Action>, runId: Text)
    ensures Accepted(runId, ReviewOf(Reach(INITIAL, actions).ledger.log, runId))
  {
    InitiallyValid();
    ReachKeepsOrder(INITIAL, actions);
    assert StreamAccepted(Reach(INITIAL, actions).ledger.log, runId);
  }

  /** In every reachable state, a review has been dispatched to its provider at most once. */
  lemma {:induction false} ReachableDispatchOnce(actions: seq<Action>, runId: Text, i: nat, j: nat)
    requires var es := ReviewOf(Reach(INITIAL, actions).ledger.log, runId);
             && i < |es| && j < |es|
             && es[i].eventType == es[j].eventType == ReviewProviderDispatchStarted
    ensures i == j
  {
    ReachableStreamsAccepted(actions, runId);
    DispatchedAtMostOnce(runId, ReviewOf(Reach(INITIAL, actions).ledger.log, runId), i, j);
  }

  /** An append that adds an event was prepared from the whole current stream; a stale one adds nothing. */
  lemma CommitReadWholeStream(sys: System, c: nat)
    requires SystemValid(sys) && ClientAt(sys, c).Holding?
    ensures Next(sys, Commit(c)).ledger != sys.ledger ==>
      ClientAt(sys, c).existing == ReviewOf(sys.ledger.log, ClientAt(sys, c).runId)
  {
    var client := ClientAt(sys, c);
    assert ClientValid(sys.ledger.log, client);
    SubmissionIsSafe(sys.ledger, client.runId, client.existing, client.event);
  }

  /**
   Once a lease has been current and is no longer, no worker call presenting it
   passes the gate again, in any later state of any interleaving.
   */
  lemma {:induction false} SupersededLeaseIsDead(sys: System, actions: seq<Action>, lease: Lease, k: nat,
                                                 principal: Text, expected: Option<LifecycleStatus>)
    requires SystemValid(sys)
    requires var es := ReviewOf(sys.ledger.log, lease.runId);
             && 0 < k <= |es|
             && Fold(lease.runId, es[..k]).Some? && Fold(lease.runId, es[..k]).value.lease == lease
             && Fold(lease.runId, es).Some? && Fold(lease.runId, es).value.lease != lease
    ensures RequireActive(lease, principal, expected, ReviewOf(Reach(sys, actions).ledger.log, lease.runId)).Err?
  {
    var now, es := Reach(sys, actions).ledger.log, ReviewOf(sys.ledger.log, lease.runId);
    ReachKeepsOrder(sys, actions);
    StreamGrows(sys.ledger.log, now, lease.runId);
    var later := ReviewOf(now, lease.runId);
    assert later[..|es|] == es && later[..k] == es[..k];
    assert StreamAccepted(now, lease.runId);
    SupersededForever(lease.runId, later, k, |es|, lease);
  }

  /** What a client prepared before the stream moved on never reaches the ledger. */
  lemma {:induction false} StaleCommitAddsNothing(sys: System, actions: seq<Action>, c: nat)
    requires SystemValid(sys) && ClientAt(sys, c).Holding?
    requires ClientAt(sys, c).existing != ReviewOf(sys.ledger.log, ClientAt(sys, c).runId)
    requires ClientAt(Reach(sys, actions), c) == ClientAt(sys, c)
    ensures Next(Reach(sys, actions), Commit(c)).ledger == Reach(sys, actions).ledger
  {
    var client, later := ClientAt(sys, c), Reach(sys, actions);
    ReachKeepsOrder(sys, actions);
    StreamGrows(sys.ledger.log, later.ledger.log, client.runId);
    assert ClientValid(sys.ledger.log, client);
    CommitReadWholeStream(later, c);
  }
}
