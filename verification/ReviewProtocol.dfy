/**
 The review protocol under interleaving: any number of clients read a stream,
 decide, and append later, while everyone else does the same.
 */
module ReviewProtocol {
  import opened Wrappers
  import opened Sequences
  import opened Values
  import opened Events
  import opened Ledgers
  import opened LedgerLaws
  import opened ReviewLifecycle
  import opened ReviewLaws
  import opened ReviewRuntime

  // --------------------------------------------------------- one submission

  ghost predicate StreamAccepted(log: seq<Event>, runId: Text) {
    Accepted(runId, ReviewOf(log, runId))
  }

  /** A valid ledger whose review streams are all empty or accepted. */
  ghost predicate InOrder(L: Ledger) {
    Valid(L) && forall run :: StreamAccepted(L.log, run)
  }

  /** The fold does not look at the position the store assigns. */
  lemma {:induction false} PositionIrrelevant(runId: Text, es: seq<Event>, e: Event, stored: Event)
    requires SameDraft(stored, e) && Fold(runId, es + [e]).Some?
    ensures Fold(runId, es + [stored]) == Some(Fold(runId, es + [e]).value.(latest := stored))
  {
    FoldPush(runId, es, e);
    FoldPush(runId, es, stored);
    var body := StepMeaning(runId, Fold(runId, es), e);
    assert BodyOf(stored) == BodyOf(e);
  }

  lemma StreamOfOther(log: seq<Event>, e: Event, runId: Text)
    requires e.streamId != ReviewStream(runId)
    ensures ReviewOf(log + [e], runId) == ReviewOf(log, runId)
  {
    OnStreamPush(log, e, ReviewStream(runId));
  }

  /**
   A submission changes the ledger only when its reader had seen the whole current
   stream; then the stream grows by exactly that event and stays accepted.
   */
  lemma SubmissionIsSafe(L: Ledger, runId: Text, existing: seq<Event>, event: Event)
    requires InOrder(L) && event.streamId == ReviewStream(runId) && existing <= ReviewOf(L.log, runId)
    ensures var r := Submit(L, runId, existing, event);
            && InOrder(r.ledger) && Extends(L, r.ledger)
            && (r.ledger != L ==>
                  r.result.Ok? && SameDraft(r.result.value, event)
                  && |existing| == |ReviewOf(L.log, runId)|
                  && ReviewOf(r.ledger.log, runId) == ReviewOf(L.log, runId) + [r.result.value]
                  && forall other :: other != runId ==> ReviewOf(r.ledger.log, other) == ReviewOf(L.log, other))
  {
    AppendOne(L, event, |existing|);
    var expected := map[event.streamId := |existing|];
    var r := Submit(L, runId, existing, event);
    if r.ledger != L {
      AppendKeepsValid(L, [event], expected);
      var placed := Placed(L.log, event);
      assert existing == ReviewOf(L.log, runId);
      OnStreamPush(L.log, placed, ReviewStream(runId));
      PositionIrrelevant(runId, existing, event, placed);
      forall other
        ensures StreamAccepted(r.ledger.log, other)
        ensures other != runId ==> ReviewOf(r.ledger.log, other) == ReviewOf(L.log, other)
      {
        assert StreamAccepted(L.log, other);
        if other != runId {
          StreamOfOther(L.log, placed, other);
        }
      }
    }
  }

  /**
   Exactly when a submission reports success: the extension of what was read is
   valid, and either the read is still the whole stream and the event is new, or
   the event stored under its key is the same request, right after what was read.
   */
  lemma {:induction false} SubmissionSucceedsExactly(L: Ledger, runId: Text, existing: seq<Event>, event: Event)
    requires InOrder(L) && event.streamId == ReviewStream(runId) && existing <= ReviewOf(L.log, runId)
    ensures Submit(L, runId, existing, event).result.Ok?
            <==> Fold(runId, existing + [event]).Some?
                 && match Stored(L.log, event)
                    case None => |existing| == |ReviewOf(L.log, runId)| && Insertable(L.log, event)
                    case Some(kept) => RequestOf(kept) == RequestOf(event) && kept.streamSequence == |existing| + 1
  {
    if Fold(runId, existing + [event]).Some? {
      if Stored(L.log, event).Some? {
        StoredTwinFolds(L, runId, existing, event);
        TwinSubmitted(L, runId, existing, event);
      } else {
        NewSubmitted(L, runId, existing, event);
      }
    }
  }

  lemma {:induction false} TwinSubmitted(L: Ledger, runId: Text, existing: seq<Event>, event: Event)
    requires Stored(L.log, event).Some? && Fold(runId, existing + [event]).Some?
    ensures var kept := Stored(L.log, event).value;
            Submit(L, runId, existing, event).result.Ok?
            <==> RequestOf(kept) == RequestOf(event) && Fold(runId, existing + [kept]).Some?
  {
    AppendTwin(L, event, |existing|);
  }

  lemma {:induction false} NewSubmitted(L: Ledger, runId: Text, existing: seq<Event>, event: Event)
    requires Stored(L.log, event).None? && Fold(runId, existing + [event]).Some?
    requires event.streamId == ReviewStream(runId)
    ensures Submit(L, runId, existing, event).result.Ok?
            <==> |existing| == |ReviewOf(L.log, runId)| && Insertable(L.log, event)
  {
    AppendNew(L, event, |existing|);
    HistoryChained(runId, existing + [event], |existing|);
    PositionIrrelevant(runId, existing, event, Placed(L.log, event));
  }

  /** A stored event extends a prefix of its own stream exactly when it is the next one there. */
  lemma {:induction false} StoredTwinFolds(L: Ledger, runId: Text, existing: seq<Event>, event: Event)
    requires InOrder(L) && event.streamId == ReviewStream(runId) && existing <= ReviewOf(L.log, runId)
    requires Stored(L.log, event).Some?
    ensures Fold(runId, existing + [Stored(L.log, event).value]).Some?
            <==> Stored(L.log, event).value.streamSequence == |existing| + 1
  {
    var kept := Stored(L.log, event).value;
    if kept.streamSequence == |existing| + 1 {
      StoredInStream(L, event);
      assert StreamAccepted(L.log, runId);
      NextOfPrefix(runId, ReviewOf(L.log, runId), existing, kept);
    } else {
      ShortOfNext(runId, existing, kept);
    }
  }

  lemma {:induction false} NextOfPrefix(runId: Text, whole: seq<Event>, existing: seq<Event>, e: Event)
    requires Accepted(runId, whole) && existing <= whole
    requires |existing| < |whole| && whole[|existing|] == e
    ensures Fold(runId, existing + [e]).Some?
  {
    assert existing + [e] == whole[..|existing| + 1];
    PrefixClosed(runId, whole, |existing| + 1);
  }

  lemma {:induction false} ShortOfNext(runId: Text, es: seq<Event>, e: Event)
    requires e.streamSequence != |es| + 1
    ensures Fold(runId, es + [e]).None?
  {
    if Fold(runId, es + [e]).Some? {
      HistoryChained(runId, es + [e], |es|);
      assert false;
    }
  }

  /** The submitted event is in the ledger afterwards under its own id exactly when it was new. */
  lemma OwnEventStoredExactly(L: Ledger, runId: Text, existing: seq<Event>, event: Event)
    requires InOrder(L) && event.streamId == ReviewStream(runId) && existing <= ReviewOf(L.log, runId)
    requires Submit(L, runId, existing, event).result.Ok?
    requires forall e :: e in L.log ==> e.eventId != event.eventId
    ensures var M := Submit(L, runId, existing, event).ledger;
            && (M != L <==> Stored(L.log, event).None?)
            && ((exists e :: e in M.log && e.eventId == event.eventId) <==> Stored(L.log, event).None?)
  {
    AppendOne(L, event, |existing|);
    var M := Submit(L, runId, existing, event).ledger;
    if Stored(L.log, event).None? {
      assert M.log == L.log + [Placed(L.log, event)];
      assert M.log[|L.log|].eventId == event.eventId;
      assert M.log[|L.log|] in M.log;
    }
  }

  /**
   Success does not mean the caller's own event was recorded. Two clients that read
   the same stream and submit the same request at the same instant both succeed: the
   second is answered with the first one's event, and its own id names nothing.
   */
  lemma TwinAlsoSucceeds(L: Ledger, runId: Text, existing: seq<Event>, event: Event, twin: Event)
    requires InOrder(L) && event.streamId == ReviewStream(runId) && existing <= ReviewOf(L.log, runId)
    requires Stored(L.log, event).None? && event.idempotencyKey.Some?
    requires Submit(L, runId, existing, event).result.Ok?
    requires twin == event.(eventId := twin.eventId) && twin.eventId != event.eventId
    requires forall e :: e in L.log ==> e.eventId != twin.eventId
    ensures var first := Submit(L, runId, existing, event);
            && Submit(first.ledger, runId, existing, twin) == first
            && forall e :: e in first.ledger.log ==> e.eventId != twin.eventId
  {
    var first := Submit(L, runId, existing, event);
    SubmissionIsSafe(L, runId, existing, event);
    SubmissionSucceedsExactly(L, runId, existing, event);
    AppendOne(L, event, |existing|);
    var placed := Placed(L.log, event);
    PlacedIsStored(L.log, event);
    TwinFolds(runId, existing, event, twin);
    assert Stored(first.ledger.log, twin) == Stored(first.ledger.log, event) == Some(placed);
    AppendOne(first.ledger, twin, |existing|);
    PositionIrrelevant(runId, existing, event, placed);
  }

  lemma {:induction false} TwinFolds(runId: Text, es: seq<Event>, event: Event, twin: Event)
    requires twin == event.(eventId := twin.eventId) && Fold(runId, es + [event]).Some?
    ensures Fold(runId, es + [twin]).Some?
  {
    FoldPush(runId, es, event);
    FoldPush(runId, es, twin);
    TwinSteps(runId, Fold(runId, es), event, twin);
  }

  lemma TwinSteps(runId: Text, previous: Option<State>, event: Event, twin: Event)
    requires twin == event.(eventId := twin.eventId) && Step(runId, previous, event).Some?
    ensures Step(runId, previous, twin).Some?
  {
    assert BodyOf(twin) == BodyOf(event);
  }
}
