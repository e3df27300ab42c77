/** When reconciliation of a quiet, reachable ledger returns: exactly when the caller holds no open review. */
module ReconcileReturns {
  import opened Wrappers
  import opened Sequences
  import opened Values
  import opened Events
  import opened Ledgers
  import opened LedgerLaws
  import opened ReviewLifecycle
  import opened ReviewLaws
  import opened ReviewRuntime
  import opened ReviewProtocol
  import opened ReviewProgress
  import opened ReviewClients
  import opened ReviewService
  import opened ReconcileLaws

  // ---------------------------------------------------------------- the keys of host events

  /** A key of `format` is only given to an event of type `t` about the lease the key names. */
  predicate KeyedAs(e: Event, format: Format, t: EventType) {
    e.idempotencyKey.Some? && e.idempotencyKey.value.Joined? && e.idempotencyKey.value.format == format ==>
      && e.eventType == t && e.payload.Obj?
      && |e.idempotencyKey.value.parts| == 1
      && TextAt(e.payload.fields, LeaseDigest) == Some(e.idempotencyKey.value.parts[0])
  }

  predicate HostKeyed(e: Event) {
    e.streamId.ReviewStream? ==>
      KeyedAs(e, RequeueKey, ReviewRequeued) && KeyedAs(e, ReconciliationKey, ReviewReconciliationRequired)
  }

  ghost predicate KeysComposed(log: seq<Event>) {
    forall e :: e in log ==> HostKeyed(e)
  }

  /** Every event waiting to be submitted is keyed that way too. */
  ghost predicate SystemKeyed(sys: System) {
    KeysComposed(sys.ledger.log)
    && forall c :: c in sys.clients && sys.clients[c].Holding? ==> HostKeyed(sys.clients[c].event)
  }

  lemma DecisionKeyed(log: seq<Event>, request: ReviewClients.Request)
    requires Decide(log, request).Ok?
    ensures HostKeyed(Decide(log, request).value.event)
  {
  }

  lemma VerdictKeyed(s: State, principal: Text, stamp: Stamp)
    ensures Reconcile(s, principal, stamp).Ok? && Reconcile(s, principal, stamp).value.Requeue? ==>
              HostKeyed(Reconcile(s, principal, stamp).value.event)
    ensures Reconcile(s, principal, stamp).Ok? && Reconcile(s, principal, stamp).value.MarkAmbiguous? ==>
              HostKeyed(Reconcile(s, principal, stamp).value.event)
  {
  }

  lemma SubmitKeepsKeys(L: Ledger, runId: Text, existing: seq<Event>, event: Event)
    requires Valid(L) && KeysComposed(L.log) && HostKeyed(event)
    ensures var M := Submit(L, runId, existing, event).ledger;
            KeysComposed(M.log) && forall e :: e in M.log ==> e in L.log || e.eventId == event.eventId
  {
    AppendOne(L, event, |existing|);
  }

  lemma ForeignKeepsKeys(L: Ledger, batch: seq<Event>, expected: map<StreamId, int>)
    requires Valid(L) && KeysComposed(L.log) && AppendMany(L, batch, expected).Some?
    requires forall e :: e in batch ==> !e.streamId.ReviewStream?
    ensures KeysComposed(AppendMany(L, batch, expected).value.ledger.log)
  {
    var M := AppendMany(L, batch, expected).value.ledger;
    if M != L {
      forall e | e in M.log && e.streamId.ReviewStream? ensures HostKeyed(e) {
        NoReviewsAdded(L.log, batch, e.streamId.run);
        OnStreamMembers(L.log, e.streamId);
        OnStreamMembers(M.log, e.streamId);
        assert e in ReviewOf(M.log, e.streamId.run);
      }
    }
  }

  lemma StepKeepsKeys(sys: System, action: Action)
    requires SystemValid(sys) && SystemKeyed(sys)
    ensures SystemKeyed(Next(sys, action))
  {
    var L := sys.ledger;
    match action {
      case Begin(c, request) =>
        if Decide(L.log, request).Ok? {
          DecisionKeyed(L.log, request);
        }
      case Observe(c, runId, principal) =>
      case Prepare(c, stamp) =>
        if ClientAt(sys, c).Observed? {
          VerdictKeyed(ClientAt(sys, c).state, ClientAt(sys, c).principal, stamp);
        }
      case Commit(c) =>
        var client := ClientAt(sys, c);
        if client.Holding? {
          SubmitKeepsKeys(L, client.runId, client.existing, client.event);
        }
      case Foreign(batch, expected) =>
        if (forall e :: e in batch ==> !e.streamId.ReviewStream?) && AppendMany(L, batch, expected).Some? {
          ForeignKeepsKeys(L, batch, expected);
        }
    }
  }

  lemma {:induction false} ReachKeepsKeys(sys: System, actions: seq<Action>)
    requires SystemValid(sys) && SystemKeyed(sys)
    ensures SystemKeyed(Reach(sys, actions))
  {
    if actions != [] {
      var shorter := actions[..|actions| - 1];
      ReachKeepsOrder(sys, shorter);
      ReachKeepsKeys(sys, shorter);
      StepKeepsKeys(Reach(sys, shorter), actions[|actions| - 1]);
    }
  }

  // ---------------------------------------------------------------- the next host key is free

  /** What a host event says: the lease then, the status it leads to, and that it leaves the lease alone. */
  lemma {:induction false} HostEventCloses(runId: Text, es: seq<Event>, k: nat, digest: Text)
    requires k < |es| && Fold(runId, es).Some?
    requires es[k].eventType == ReviewRequeued || es[k].eventType == ReviewReconciliationRequired
    requires es[k].payload.Obj? && TextAt(es[k].payload.fields, LeaseDigest) == Some(digest)
    ensures Fold(runId, es[..k + 1]).Some?
    ensures var s := Fold(runId, es[..k + 1]).value;
            s.lease.Digest() == digest
            && s.status == if es[k].eventType == ReviewRequeued then Requeued else ReconciliationRequired
  {
    var body := StepAt(runId, es, k);
    var before := if k > 0 then Fold(runId, es[..k]) else None;
    assert Fold(runId, es[..k]) == before;
    HostStep(runId, before, es[k], body, Fold(runId, es[..k + 1]).value, digest);
  }

  lemma HostStep(runId: Text, before: Option<State>, e: Event, body: Body, next: State, digest: Text)
    requires BodyOf(e) == Some(body) && Stepped(runId, before, e, body, next)
    requires e.eventType == ReviewRequeued || e.eventType == ReviewReconciliationRequired
    requires e.payload.Obj? && TextAt(e.payload.fields, LeaseDigest) == Some(digest)
    ensures next.lease.Digest() == digest
    ensures next.status == if e.eventType == ReviewRequeued then Requeued else ReconciliationRequired
  {
  }

  lemma RequeuedStep(runId: Text, s: State, e: Event, body: Body, next: State)
    requires Stepped(runId, Some(s), e, body, next) && s.status == Requeued
    ensures next.lease != s.lease
  {
  }

  /** After a requeue only a claim is admitted, and it supersedes the lease. */
  lemma {:induction false} RequeueLosesLease(runId: Text, es: seq<Event>, j: nat)
    requires 0 < j < |es| && Fold(runId, es).Some?
    requires Fold(runId, es[..j]).Some? && Fold(runId, es[..j]).value.status == Requeued
    ensures Fold(runId, es).value.lease.Digest() != Fold(runId, es[..j]).value.lease.Digest()
  {
    var lease := Fold(runId, es[..j]).value.lease;
    var body := StepAt(runId, es, j);
    RequeuedStep(runId, Fold(runId, es[..j]).value, es[j], body, Fold(runId, es[..j + 1]).value);
    SupersededForever(runId, es, j, j + 1, lease);
  }

  /** An open review has no earlier host event about its current lease. */
  lemma {:induction false} NoHostEventBefore(runId: Text, es: seq<Event>, k: nat, digest: Text)
    requires k < |es| && Fold(runId, es).Some? && Fold(runId, es).value.Active()
    requires es[k].eventType == ReviewRequeued || es[k].eventType == ReviewReconciliationRequired
    requires es[k].payload.Obj? && TextAt(es[k].payload.fields, LeaseDigest) == Some(digest)
    ensures Fold(runId, es).value.lease.Digest() != digest
  {
    WholePrefix(es);
    HostEventCloses(runId, es, k, digest);
    if es[k].eventType == ReviewReconciliationRequired {
      TerminalIsLast(runId, es, k + 1);
    } else if k + 1 < |es| {
      RequeueLosesLease(runId, es, k + 1);
    }
  }

  lemma {:induction false} HostKeyFree(L: Ledger, runId: Text, format: Format)
    requires Valid(L) && KeysComposed(L.log) && (format == RequeueKey || format == ReconciliationKey)
    requires Fold(runId, ReviewOf(L.log, runId)).Some? && Fold(runId, ReviewOf(L.log, runId)).value.Active()
    ensures var s := Fold(runId, ReviewOf(L.log, runId)).value;
            Find(L.log, ReviewStream(runId), Joined(format, [s.lease.Digest()])).None?
  {
    var es := ReviewOf(L.log, runId);
    var s := Fold(runId, es).value;
    var key := Joined(format, [s.lease.Digest()]);
    FindMeaning(L.log, ReviewStream(runId), key);
    OnStreamMembers(L.log, ReviewStream(runId));
    if Find(L.log, ReviewStream(runId), key).Some? {
      var e := Find(L.log, ReviewStream(runId), key).value;
      assert HostKeyed(e) && e in es;
      var k :| 0 <= k < |es| && es[k] == e;
      NoHostEventBefore(runId, es, k, s.lease.Digest());
    }
  }

  // ---------------------------------------------------------------- one review

  /** `principal` is the worker of an open review of `runId`. */
  predicate Holds(log: seq<Event>, runId: Text, principal: Text) {
    var s := Fold(runId, ReviewOf(log, runId));
    s.Some? && s.value.Active() && s.value.lease.workerId == principal
  }

  ghost predicate NewId(log: seq<Event>, id: Text) {
    forall e :: e in log ==> e.eventId != id
  }

  /** The host event for an open review, composed from the whole stream, is stored. */
  lemma {:induction false} HostEventStored(L: Ledger, runId: Text, principal: Text, stamp: Stamp, event: Event)
    requires InOrder(L) && KeysComposed(L.log) && IsIdentifier(principal) && NewId(L.log, stamp.id)
    requires Fold(runId, ReviewOf(L.log, runId)).Some?
    requires var s := Fold(runId, ReviewOf(L.log, runId)).value;
             && s.Active()
             && (Reconcile(s, principal, stamp) == Ok(Requeue(event)) ||
                 Reconcile(s, principal, stamp) == Ok(MarkAmbiguous(event)))
    ensures Submit(L, runId, ReviewOf(L.log, runId), event).result.Ok?
  {
    var es := ReviewOf(L.log, runId);
    var s := Fold(runId, es).value;
    FoldConsistent(runId, es);
    OnStreamMembers(L.log, ReviewStream(runId));
    assert s.latest in es && s.latest in L.log;
    ReconciliationProgresses(runId, principal, stamp, es);
    HostKeyFree(L, runId, RequeueKey);
    HostKeyFree(L, runId, ReconciliationKey);
    HostEventHeader(s, principal, stamp, event);
    assert Stored(L.log, event).None?;
    QuietSubmissionSucceeds(L, runId, event);
  }

  lemma HostEventHeader(s: State, principal: Text, stamp: Stamp, event: Event)
    requires Reconcile(s, principal, stamp) == Ok(Requeue(event)) ||
      Reconcile(s, principal, stamp) == Ok(MarkAmbiguous(event))
    ensures event.eventId == stamp.id && event.streamId == ReviewStream(s.runId)
    ensures event.causationId == Some(s.latest.eventId)
    ensures event.idempotencyKey == Some(Joined(RequeueKey, [s.lease.Digest()]))
            || event.idempotencyKey == Some(Joined(ReconciliationKey, [s.lease.Digest()]))
    ensures HostKeyed(event)
  {
  }

  /** Reconciling one review fails exactly when the caller holds it. */
  lemma OneReturnsExactly(p: Progress, runId: Text, principal: Text, stamp: Stamp)
    requires InOrder(p.ledger) && KeysComposed(p.ledger.log) && !p.failed
    requires IsIdentifier(principal) && NewId(p.ledger.log, stamp.id) && ReviewOf(p.ledger.log, runId) != []
    ensures var q := ReconcileOne(p, runId, principal, stamp);
            && (q.failed <==> Holds(p.ledger.log, runId, principal))
            && KeysComposed(q.ledger.log)
            && forall e :: e in q.ledger.log ==> e in p.ledger.log || e.eventId == stamp.id
  {
    var es := ReviewOf(p.ledger.log, runId);
    assert StreamAccepted(p.ledger.log, runId);
    var s := Fold(runId, es).value;
    VerdictEvents(s, principal, stamp);
    var verdict := Reconcile(s, principal, stamp);
    if verdict.Ok? && !verdict.value.Leave? {
      HostEventStored(p.ledger, runId, principal, stamp, verdict.value.event);
      HostEventHeader(s, principal, stamp, verdict.value.event);
      SubmitKeepsKeys(p.ledger, runId, es, verdict.value.event);
    }
  }

  // ---------------------------------------------------------------- the whole call

  /** The ids reconciliation gives its events are new, one for each run. */
  ghost predicate NewStamps(log: seq<Event>, runs: seq<Text>, stamps: Text -> Stamp) {
    && (forall run :: run in runs ==> NewId(log, stamps(run).id))
    && forall i, j :: 0 <= i < j < |runs| ==> stamps(runs[i]).id != stamps(runs[j]).id
  }

  /** So far: keys in order, and no ids but the ledger's and those already used. */
  ghost predicate SoFar(L: Ledger, p: Progress, runs: seq<Text>, stamps: Text -> Stamp) {
    && KeysComposed(p.ledger.log)
    && forall e :: e in p.ledger.log ==> e in L.log || exists i :: 0 <= i < |runs| && e.eventId == stamps(runs[i]).id
  }

  lemma {:induction false} ListReturnsExactly(L: Ledger, runs: seq<Text>, principal: Text, stamps: Text -> Stamp)
    requires InOrder(L) && KeysComposed(L.log) && IsIdentifier(principal) && NewStamps(L.log, runs, stamps)
    requires Distinct(runs) && forall run :: run in runs ==> ReviewOf(L.log, run) != []
    ensures var p := ReconcileRuns(L, runs, principal, stamps);
            && (p.failed <==> exists run :: run in runs && Holds(L.log, run, principal))
            && (!p.failed ==> SoFar(L, p, runs, stamps))
  {
    if runs != [] {
      var shorter, last := runs[..|runs| - 1], runs[|runs| - 1];
      assert runs == shorter + [last];
      assert NewStamps(L.log, shorter, stamps);
      ListReturnsExactly(L, shorter, principal, stamps);
      if !ReconcileRuns(L, shorter, principal, stamps).failed {
        ListSettles(L, shorter, principal, stamps);
        NextReturnsExactly(L, ReconcileRuns(L, shorter, principal, stamps), shorter, last, principal, stamps);
      }
    }
  }

  /** The next run of the list, after others have been settled. */
  lemma NextReturnsExactly(L: Ledger, p: Progress, runs: seq<Text>, last: Text, principal: Text, stamps: Text -> Stamp)
    requires SoFar(L, p, runs, stamps) && ListSettled(L, p, runs) && !p.failed && IsIdentifier(principal)
    requires last !in runs && NewStamps(L.log, runs + [last], stamps) && ReviewOf(L.log, last) != []
    ensures var q := ReconcileOne(p, last, principal, stamps(last));
            (q.failed <==> Holds(L.log, last, principal)) && SoFar(L, q, runs + [last], stamps)
  {
    assert RunSettled(L.log, p.ledger.log, runs, last);
    StampStaysNew(L, p, runs, last, stamps);
    OneReturnsExactly(p, last, principal, stamps(last));
    SoFarGrows(L, p, ReconcileOne(p, last, principal, stamps(last)), runs, last, stamps);
  }

  lemma StampStaysNew(L: Ledger, p: Progress, runs: seq<Text>, last: Text, stamps: Text -> Stamp)
    requires SoFar(L, p, runs, stamps) && NewStamps(L.log, runs + [last], stamps)
    ensures NewId(p.ledger.log, stamps(last).id)
  {
    var more := runs + [last];
    assert more[|runs|] == last && last in more;
    forall e | e in p.ledger.log ensures e.eventId != stamps(last).id {
      if e !in L.log {
        var i :| 0 <= i < |runs| && e.eventId == stamps(runs[i]).id;
        assert more[i] == runs[i];
      }
    }
  }

  lemma SoFarGrows(L: Ledger, p: Progress, q: Progress, runs: seq<Text>, last: Text, stamps: Text -> Stamp)
    requires SoFar(L, p, runs, stamps) && KeysComposed(q.ledger.log)
    requires forall e :: e in q.ledger.log ==> e in p.ledger.log || e.eventId == stamps(last).id
    ensures SoFar(L, q, runs + [last], stamps)
  {
    var more := runs + [last];
    assert more[|runs|] == last;
    forall e | e in q.ledger.log && e !in L.log ensures exists i :: 0 <= i < |more| && e.eventId == stamps(more[i]).id {
      if e in p.ledger.log {
        var i :| 0 <= i < |runs| && e.eventId == stamps(runs[i]).id;
        assert more[i] == runs[i];
      }
    }
  }

  /**
   On a quiet ledger that any interleaving of clients has led to, and with new event
   ids, reconciliation returns exactly when its caller is the worker of no open review.
   */
  lemma {:induction false} ReconcileReturnsExactly(actions: seq<Action>, principal: Text, stamps: Text -> Stamp)
    requires var L := Reach(INITIAL, actions).ledger;
             IsIdentifier(principal) && NewStamps(L.log, ReviewRuns(L.log), stamps)
    ensures var L := Reach(INITIAL, actions).ledger;
            !ReconcileRuns(L, ReviewRuns(L.log), principal, stamps).failed
            <==> forall run :: !Holds(L.log, run, principal)
  {
    var L := Reach(INITIAL, actions).ledger;
    InitiallyValid();
    ReachKeepsOrder(INITIAL, actions);
    ReachKeepsKeys(INITIAL, actions);
    RunsListed(L.log);
    forall run | run in ReviewRuns(L.log) ensures ReviewOf(L.log, run) != [] {
      var e :| e in L.log && e.streamId == ReviewStream(run);
      OnStreamMembers(L.log, ReviewStream(run));
    }
    forall run | Holds(L.log, run, principal) ensures run in ReviewRuns(L.log) {
      AcceptedIsListed(L, run);
    }
    ListReturnsExactly(L, ReviewRuns(L.log), principal, stamps);
  }
}
