/**
 What a batch append accepts and what it leaves, read off the ledger and the batch, field by
 field. A twin of an event is the stored event that carries its key on its stream.
 */
module AppendMeaning {
  import opened Wrappers
  import opened Sequences
  import opened Values
  import opened Events
  import opened Ledgers
  import opened LedgerLaws
  import opened EventStores

  /** What a retry must repeat: everything but the id, the number, the clock and the key. */
  predicate SameContent(a: Event, b: Event) {
    && a.actor == b.actor && a.causationId == b.causationId && a.correlationId == b.correlationId
    && a.effectiveAt == b.effectiveAt && a.eventType == b.eventType && a.payload == b.payload
    && a.schemaVersion == b.schemaVersion && a.source == b.source && a.streamId == b.streamId
  }

  ghost predicate Twin(log: seq<Event>, e: Event, kept: Event) {
    && kept in log && kept.streamId == e.streamId
    && e.idempotencyKey.Some? && kept.idempotencyKey == e.idempotencyKey
  }

  ghost predicate HasTwin(log: seq<Event>, e: Event) {
    exists kept :: Twin(log, e, kept)
  }

  lemma StoredIsTwin(log: seq<Event>, e: Event)
    requires KeysUnique(log)
    ensures forall kept :: Stored(log, e) == Some(kept) <==> Twin(log, e, kept)
    ensures Stored(log, e).Some? <==> HasTwin(log, e)
  {
    if e.idempotencyKey.Some? {
      FindMeaning(log, e.streamId, e.idempotencyKey.value);
      forall kept | Twin(log, e, kept) ensures Stored(log, e) == Some(kept) {
        KeyFinds(log, e, kept);
      }
    }
    if Stored(log, e).Some? {
      assert Twin(log, e, Stored(log, e).value);
    }
  }

  lemma RequestsAgree(a: Event, b: Event)
    ensures RequestOf(a) == RequestOf(b) <==> SameContent(a, b)
  {
  }

  // ---------------------------------------------------------------- positions

  /** Positions count the rows. */
  ghost predicate Dense(log: seq<Event>) {
    forall i :: 0 <= i < |log| ==> log[i].globalPosition == Some(i + 1)
  }

  lemma PlacedDense(log: seq<Event>, e: Event)
    requires Dense(log)
    ensures Placed(log, e) == e.(globalPosition := Some(|log| + 1)) && Dense(log + [Placed(log, e)])
  {
  }

  lemma {:induction false} WalkDense(base: seq<Event>, batch: seq<Event>)
    requires Dense(base) && Walk(base, batch).Some?
    ensures Dense(Walk(base, batch).value.log)
  {
    if batch != [] {
      WalkDense(base, batch[..|batch| - 1]);
      var w, e := Walk(base, batch[..|batch| - 1]).value, batch[|batch| - 1];
      PlacedDense(w.log, e);
    }
  }

  /** In every ledger any calls lead to, row `i` has position `i + 1`. */
  lemma {:induction false} PositionsCountRows(calls: seq<Call>)
    ensures Dense(Run(EMPTY, calls).log)
  {
    if calls != [] {
      var before, call := Run(EMPTY, calls[..|calls| - 1]), calls[|calls| - 1];
      PositionsCountRows(calls[..|calls| - 1]);
      if AppendMany(before, call.batch, call.expected).Some? && Walk(before.log, call.batch).Some? {
        WalkDense(before.log, call.batch);
      }
    }
  }

  // ---------------------------------------------------------------- one event

  /** An event whose key is taken is accepted exactly when it repeats the stored one, which is then returned. */
  lemma TakenKeyExactly(L: Ledger, e: Event, kept: Event, expected: int)
    requires Valid(L) && Twin(L.log, e, kept)
    ensures AppendMany(L, [e], map[e.streamId := expected])
            == if expected >= 0 && SameContent(e, kept) then Some(Appended(L, [kept])) else None
  {
    StoredIsTwin(L.log, e);
    RequestsAgree(kept, e);
    assert [e][0] in [e];
    if expected >= 0 {
      AppendTwin(L, e, expected);
    }
  }

  /** And the store's error for other content under a taken key is the idempotency conflict. */
  lemma TakenKeyError(L: Ledger, e: Event, kept: Event, expected: int, error: AppendError)
    requires Valid(L) && Twin(L.log, e, kept) && expected >= 0 && !SameContent(e, kept)
    requires Explains(L, [e], map[e.streamId := expected], error)
    ensures error == IdempotencyConflict
  {
    StoredIsTwin(L.log, e);
    RequestsAgree(kept, e);
    assert [e][0] in [e];
    assert forall d :: d in [e] ==> d == e;
    assert Conflicting(L.log, [e]);
    assert StreamsOf([e]) <= (map[e.streamId := expected]).Keys;
  }

  /** The cause of a new event is itself, an event of the log, or none. */
  ghost predicate CauseKnown(log: seq<Event>, e: Event) {
    e.causationId.Some? ==> e.causationId.value == e.eventId || exists o :: o in log && o.eventId == e.causationId.value
  }

  /**
   An event without a twin is accepted exactly when it is the next of its stream, as its caller
   expects, under a new id and with a known cause; it is then the last row and changed in nothing
   but its position.
   */
  lemma FreeKeyExactly(L: Ledger, e: Event, expected: int)
    requires Valid(L) && Dense(L.log) && !HasTwin(L.log, e)
    ensures var r := AppendMany(L, [e], map[e.streamId := expected]);
            && (r.Some? <==> && |OnStream(L.log, e.streamId)| == expected == e.streamSequence - 1
                             && (forall o :: o in L.log ==> o.eventId != e.eventId) && CauseKnown(L.log, e))
            && (r.Some? ==> var stored := e.(globalPosition := Some(|L.log| + 1));
                            r.value.events == [stored] && r.value.ledger.log == L.log + [stored])
  {
    StoredIsTwin(L.log, e);
    PlacedDense(L.log, e);
    assert [e][0] in [e];
    if expected >= 0 {
      AppendNew(L, e, expected);
      if |OnStream(L.log, e.streamId)| == expected == e.streamSequence - 1 {
        NextInsertable(L, e);
      }
    }
  }

  lemma NextInsertable(L: Ledger, e: Event)
    requires Valid(L) && !HasTwin(L.log, e) && e.streamSequence == |OnStream(L.log, e.streamId)| + 1
    ensures Insertable(L.log, e)
            <==> (forall o :: o in L.log ==> o.eventId != e.eventId) && CauseKnown(L.log, e)
  {
    assert StreamValid(L, e.streamId);
    var mine := OnStream(L.log, e.streamId);
    OnStreamMembers(L.log, e.streamId);
    forall o | o in L.log && o.streamId == e.streamId ensures o.streamSequence != e.streamSequence {
      assert o in mine;
      var i :| 0 <= i < |mine| && mine[i] == o;
    }
    forall o | o in L.log && e.idempotencyKey.Some? && o.streamId == e.streamId
      ensures o.idempotencyKey != e.idempotencyKey
    {
      assert !Twin(L.log, e, o);
    }
  }

  // ---------------------------------------------------------------- batches

  /** Exactly when a batch reuses a key: some event of it has a twin with other content. */
  lemma ConflictExactly(log: seq<Event>, batch: seq<Event>)
    requires KeysUnique(log)
    ensures Conflicting(log, batch) <==> exists e, kept :: e in batch && Twin(log, e, kept) && !SameContent(e, kept)
  {
    forall e | e in batch
      ensures Stored(log, e).Some? && RequestOf(Stored(log, e).value) != RequestOf(e)
              <==> exists kept :: Twin(log, e, kept) && !SameContent(e, kept)
    {
      StoredIsTwin(log, e);
      if Stored(log, e).Some? {
        RequestsAgree(Stored(log, e).value, e);
      }
    }
  }

  /** Those of `es` that are not in `log`, in order. */
  function Outside(log: seq<Event>, es: seq<Event>): seq<Event> {
    if es == [] then []
    else
      var before, last := Outside(log, es[..|es| - 1]), es[|es| - 1];
      if last in log then before else before + [last]
  }

  /** What an accepted batch returns for event `k`: its twin, or itself with a position. */
  ghost predicate Returned(log: seq<Event>, e: Event, r: Event) {
    if HasTwin(log, e) then Twin(log, e, r) && SameContent(e, r)
    else r !in log && r == e.(globalPosition := r.globalPosition)
  }

  /**
   Whatever batch is accepted, its events are returned one by one as twins or as themselves, and
   the log grows by exactly those that are new, in the order of the batch, numbered on.
   */
  lemma BatchAppends(L: Ledger, batch: seq<Event>, expected: map<StreamId, int>)
    requires Valid(L) && Dense(L.log) && AppendMany(L, batch, expected).Some?
    ensures var a := AppendMany(L, batch, expected).value;
            && |a.events| == |batch|
            && (forall k :: 0 <= k < |batch| ==> Returned(L.log, batch[k], a.events[k]))
            && a.ledger.log == L.log + Outside(L.log, a.events) && Dense(a.ledger.log)
  {
    if batch != [] {
      ConflictExactly(L.log, batch);
      if AllStored(L.log, batch) {
        WalkStored(L.log, batch);
      }
      WalkReturns(L.log, batch);
      WalkDense(L.log, batch);
    }
  }

  ghost predicate AllReturned(log: seq<Event>, batch: seq<Event>, w: Walked) {
    && |w.events| == |batch|
    && (forall k :: 0 <= k < |batch| ==> Returned(log, batch[k], w.events[k]))
    && w.log == log + Outside(log, w.events)
  }

  lemma {:induction false} WalkReturns(log: seq<Event>, batch: seq<Event>)
    requires RowsValid(log) && Walk(log, batch).Some?
    requires forall e, kept :: e in batch && Twin(log, e, kept) ==> SameContent(e, kept)
    ensures AllReturned(log, batch, Walk(log, batch).value)
  {
    if batch != [] {
      var shorter, e := batch[..|batch| - 1], batch[|batch| - 1];
      SplitLast(batch);
      assert e in batch && forall d :: d in shorter ==> d in batch;
      WalkReturns(log, shorter);
      ReturnsPush(log, shorter, Walk(log, shorter).value, e);
    } else {
      assert log + [] == log;
    }
  }

  lemma ReturnsPush(log: seq<Event>, batch: seq<Event>, w: Walked, e: Event)
    requires KeysUnique(log) && AllReturned(log, batch, w) && WalkStep(log, w, e).Some?
    requires forall kept :: Twin(log, e, kept) ==> SameContent(e, kept)
    ensures AllReturned(log, batch + [e], WalkStep(log, w, e).value)
  {
    StoredIsTwin(log, e);
    var r := if Stored(log, e).Some? then Stored(log, e).value else Placed(w.log, e);
    assert r in log <==> Stored(log, e).Some? by {
      if Stored(log, e).None? {
        assert forall o :: o in log ==> o in w.log;
      }
    }
    OutsidePush(log, w.events, r);
    assert log + (Outside(log, w.events) + [r]) == log + Outside(log, w.events) + [r];
  }

  lemma {:induction false} OutsidePush(log: seq<Event>, es: seq<Event>, r: Event)
    ensures Outside(log, es + [r]) == if r in log then Outside(log, es) else Outside(log, es) + [r]
  {
    FrontOfPush(es, r);
  }

  /** A batch of twins only is accepted exactly when they repeat what is stored, without a gap on any stream. */
  lemma TwinsAcceptedExactly(L: Ledger, batch: seq<Event>, expected: map<StreamId, int>, found: seq<Event>)
    requires Valid(L) && batch != [] && |found| == |batch|
    requires forall k :: 0 <= k < |batch| ==> Twin(L.log, batch[k], found[k])
    ensures AppendMany(L, batch, expected)
            == if (forall e :: e in batch ==> e.streamId in expected && expected[e.streamId] >= 0)
                  && (forall k :: 0 <= k < |batch| ==> SameContent(batch[k], found[k])) && Consecutive(found)
               then Some(Appended(L, found)) else None
  {
    forall k | 0 <= k < |batch| ensures Stored(L.log, batch[k]) == Some(found[k]) {
      StoredIsTwin(L.log, batch[k]);
    }
    assert AllStored(L.log, batch);
    assert FoundAll(L.log, batch) == found;
    forall k | 0 <= k < |batch|
      ensures RequestOf(found[k]) == RequestOf(batch[k]) <==> SameContent(batch[k], found[k])
    {
      RequestsAgree(found[k], batch[k]);
      assert batch[k] in batch;
    }
  }

  // ---------------------------------------------------------------- batches with something new

  /** The number event `k` takes on its stream when the caller's expectation holds. */
  function Number(batch: seq<Event>, expected: map<StreamId, int>, k: nat): int
    requires k < |batch| && batch[k].streamId in expected
  {
    expected[batch[k].streamId] + |OnStream(batch[..k], batch[k].streamId)| + 1
  }

  /** Up to the head event `k` repeats the event of its number; above it, it is new and says its number. */
  ghost predicate InPlace(log: seq<Event>, batch: seq<Event>, expected: map<StreamId, int>, k: nat)
    requires k < |batch| && batch[k].streamId in expected && expected[batch[k].streamId] >= 0
  {
    var whole, n := OnStream(log, batch[k].streamId), Number(batch, expected, k);
    if n <= |whole| then Twin(log, batch[k], whole[n - 1])
    else !HasTwin(log, batch[k]) && batch[k].streamSequence == n
  }

  /** The expectation is not ahead of the stream, and the batch reaches up to its head. */
  ghost predicate Reaches(log: seq<Event>, batch: seq<Event>, expected: map<StreamId, int>, s: StreamId)
    requires s in expected
  {
    expected[s] <= |OnStream(log, s)| <= expected[s] + |OnStream(batch, s)|
  }

  /** New event `k` has an id, a number and a key that nobody has, and a known cause. */
  ghost predicate MayEnter(log: seq<Event>, batch: seq<Event>, k: nat)
    requires k < |batch|
  {
    && AllApart(log, batch[k]) && NewApart(log, batch, k, batch[k])
    && (CauseKnown(log, batch[k]) || NewCauses(log, batch, k, batch[k]))
  }

  predicate Apart(a: Event, b: Event) {
    && a.eventId != b.eventId
    && (a.streamId == b.streamId ==>
          a.streamSequence != b.streamSequence
          && (b.idempotencyKey.Some? ==> a.idempotencyKey != b.idempotencyKey))
  }

  /** The `k`-th event of a batch stands on its stream after those of the stream before it. */
  lemma {:induction false} OnStreamAt(batch: seq<Event>, k: nat)
    requires k < |batch|
    ensures var s := batch[k].streamId;
            var i := |OnStream(batch[..k], s)|;
            i < |OnStream(batch, s)| && OnStream(batch, s)[i] == batch[k]
  {
    var s := batch[k].streamId;
    PrefixPush(batch, k);
    OnStreamPush(batch[..k], batch[k], s);
    SplitAt(batch, k + 1);
    OnStreamConcat(batch[..k + 1], batch[k + 1..], s);
  }

  /** Every event of a stream stands somewhere in the batch, after exactly those before it. */
  lemma {:induction false} PlaceOf(batch: seq<Event>, s: StreamId, i: nat) returns (k: nat)
    requires i < |OnStream(batch, s)|
    ensures k < |batch| && batch[k].streamId == s && |OnStream(batch[..k], s)| == i && batch[k] == OnStream(batch, s)[i]
  {
    var front, last := batch[..|batch| - 1], batch[|batch| - 1];
    SplitLast(batch);
    OnStreamPush(front, last, s);
    if i < |OnStream(front, s)| {
      k := PlaceOf(front, s, i);
      assert front[..k] == batch[..k];
    } else {
      k := |front|;
    }
  }

  ghost predicate StandsRight(log: seq<Event>, batch: seq<Event>, expected: map<StreamId, int>, k: nat)
    requires k < |batch|
  {
    && batch[k].streamId in expected && expected[batch[k].streamId] >= 0
    && Reaches(log, batch, expected, batch[k].streamId) && InPlace(log, batch, expected, k)
  }

  ghost predicate AllInPlace(log: seq<Event>, batch: seq<Event>, expected: map<StreamId, int>) {
    forall k :: 0 <= k < |batch| ==> StandsRight(log, batch, expected, k)
  }

  lemma FitsInPlace(log: seq<Event>, batch: seq<Event>, expected: map<StreamId, int>)
    requires KeysUnique(log) && RequestValid(batch, expected)
    ensures AllFit(log, batch, expected) <==> AllInPlace(log, batch, expected)
  {
    if AllFit(log, batch, expected) {
      forall k | 0 <= k < |batch| ensures StandsRight(log, batch, expected, k) {
        FitIsInPlace(log, batch, expected, k);
      }
    }
    if AllInPlace(log, batch, expected) {
      forall s | s in StreamsOf(batch) ensures Fits(log, batch, expected, s) {
        InPlaceFits(log, batch, expected, s);
      }
    }
  }

  ghost predicate AllFit(log: seq<Event>, batch: seq<Event>, expected: map<StreamId, int>)
    requires RequestValid(batch, expected)
  {
    forall s :: s in StreamsOf(batch) ==> Fits(log, batch, expected, s)
  }

  lemma FitIsInPlace(log: seq<Event>, batch: seq<Event>, expected: map<StreamId, int>, k: nat)
    requires KeysUnique(log) && RequestValid(batch, expected) && AllFit(log, batch, expected) && k < |batch|
    ensures StandsRight(log, batch, expected, k)
  {
    var s := batch[k].streamId;
    assert batch[k] in batch && s in StreamsOf(batch) && Fits(log, batch, expected, s);
    OnStreamAt(batch, k);
    var i := |OnStream(batch[..k], s)|;
    assert FitsAt(log, OnStream(log, s), OnStream(batch, s)[i], expected[s] + i + 1);
    PlaceFits(log, batch, expected, k, i);
  }

  lemma InPlaceFits(log: seq<Event>, batch: seq<Event>, expected: map<StreamId, int>, s: StreamId)
    requires KeysUnique(log) && RequestValid(batch, expected) && AllInPlace(log, batch, expected)
    requires s in StreamsOf(batch)
    ensures Fits(log, batch, expected, s)
  {
    StreamReaches(log, batch, expected, s);
    forall i | 0 <= i < |OnStream(batch, s)|
      ensures FitsAt(log, OnStream(log, s), OnStream(batch, s)[i], expected[s] + i + 1) {
      InPlaceFitsAt(log, batch, expected, s, i);
    }
  }

  lemma StreamReaches(log: seq<Event>, batch: seq<Event>, expected: map<StreamId, int>, s: StreamId)
    requires RequestValid(batch, expected) && AllInPlace(log, batch, expected) && s in StreamsOf(batch)
    ensures Reaches(log, batch, expected, s)
  {
    var e :| e in batch && e.streamId == s;
    var j :| 0 <= j < |batch| && batch[j] == e;
    assert StandsRight(log, batch, expected, j);
  }

  lemma {:induction false} InPlaceFitsAt(log: seq<Event>, batch: seq<Event>, expected: map<StreamId, int>, s: StreamId,
                                         i: nat)
    requires KeysUnique(log) && RequestValid(batch, expected) && AllInPlace(log, batch, expected)
    requires s in StreamsOf(batch) && i < |OnStream(batch, s)|
    ensures FitsAt(log, OnStream(log, s), OnStream(batch, s)[i], expected[s] + i + 1)
  {
    var k := PlaceOf(batch, s, i);
    assert StandsRight(log, batch, expected, k);
    PlaceFits(log, batch, expected, k, i);
  }

  lemma {:induction false} PlaceFits(log: seq<Event>, batch: seq<Event>, expected: map<StreamId, int>, k: nat, i: nat)
    requires KeysUnique(log) && k < |batch| && i == |OnStream(batch[..k], batch[k].streamId)|
    requires batch[k].streamId in expected && expected[batch[k].streamId] >= 0
    ensures var s := batch[k].streamId;
            InPlace(log, batch, expected, k) <==> FitsAt(log, OnStream(log, s), batch[k], expected[s] + i + 1)
  {
    StoredIsTwin(log, batch[k]);
  }

  // ---------------------------------------------------------------- entering one by one

  ghost predicate IsNew(log: seq<Event>, batch: seq<Event>, j: nat) {
    j < |batch| && !HasTwin(log, batch[j])
  }

  /** After `k` events the rows are those of the log and the new events so far. */
  ghost predicate Holds(log: seq<Event>, batch: seq<Event>, k: nat, rows: seq<Event>) {
    && (forall o :: o in log ==> o in rows)
    && (forall o :: o in rows && o !in log ==> Entered(log, batch, k, o))
    && forall j :: 0 <= j < k && IsNew(log, batch, j) ==> HasDraft(rows, batch[j])
  }

  ghost predicate Entered(log: seq<Event>, batch: seq<Event>, k: nat, o: Event) {
    exists j :: 0 <= j < k && IsNew(log, batch, j) && SameDraft(o, batch[j])
  }

  ghost predicate HasDraft(rows: seq<Event>, e: Event) {
    exists o :: o in rows && SameDraft(o, e)
  }

  lemma HoldsPush(log: seq<Event>, batch: seq<Event>, k: nat, rows: seq<Event>, more: seq<Event>)
    requires k < |batch| && Holds(log, batch, k, rows)
    requires more == if IsNew(log, batch, k) then rows + [Placed(rows, batch[k])] else rows
    ensures Holds(log, batch, k + 1, more)
  {
    forall o | o in more && o !in log ensures Entered(log, batch, k + 1, o) {
      if o in rows {
        assert Entered(log, batch, k, o);
      } else {
        assert SameDraft(o, batch[k]);
      }
    }
    forall j | 0 <= j < k + 1 && IsNew(log, batch, j) ensures HasDraft(more, batch[j]) {
      if j < k {
        var o :| o in rows && SameDraft(o, batch[j]);
        assert o in more;
      } else {
        assert Placed(rows, batch[k]) in more && SameDraft(Placed(rows, batch[k]), batch[k]);
      }
    }
  }

  ghost predicate AllApart(rows: seq<Event>, e: Event) {
    forall o :: o in rows ==> Apart(o, e)
  }

  lemma InsertableIsApart(rows: seq<Event>, e: Event)
    ensures Insertable(rows, e) <==> AllApart(rows, e) && CauseKnown(rows, e)
  {
    if AllApart(rows, e) {
      forall o | o in rows
        ensures o.eventId != e.eventId && !(o.streamId == e.streamId && o.streamSequence == e.streamSequence)
        ensures e.idempotencyKey.Some? ==> !(o.streamId == e.streamId && o.idempotencyKey == e.idempotencyKey)
      {
        assert Apart(o, e);
      }
    }
  }

  ghost predicate NewApart(log: seq<Event>, batch: seq<Event>, k: nat, e: Event) {
    forall j :: 0 <= j < k && IsNew(log, batch, j) ==> Apart(batch[j], e)
  }

  lemma ApartExactly(log: seq<Event>, batch: seq<Event>, k: nat, rows: seq<Event>, e: Event)
    requires Holds(log, batch, k, rows)
    ensures AllApart(rows, e) <==> AllApart(log, e) && NewApart(log, batch, k, e)
  {
    if AllApart(rows, e) {
      forall j | 0 <= j < k && IsNew(log, batch, j) ensures Apart(batch[j], e) {
        assert HasDraft(rows, batch[j]);
        var o :| o in rows && SameDraft(o, batch[j]);
        assert Apart(o, e);
      }
    }
    if AllApart(log, e) && NewApart(log, batch, k, e) {
      forall o | o in rows ensures Apart(o, e) {
        if o !in log {
          assert Entered(log, batch, k, o);
          var j :| 0 <= j < k && IsNew(log, batch, j) && SameDraft(o, batch[j]);
          assert Apart(batch[j], e);
        }
      }
    }
  }

  ghost predicate NewCauses(log: seq<Event>, batch: seq<Event>, k: nat, e: Event) {
    exists j :: 0 <= j < k && IsNew(log, batch, j) && e.causationId == Some(batch[j].eventId)
  }

  lemma CauseExactly(log: seq<Event>, batch: seq<Event>, k: nat, rows: seq<Event>, e: Event)
    requires Holds(log, batch, k, rows)
    ensures CauseKnown(rows, e) <==> CauseKnown(log, e) || NewCauses(log, batch, k, e)
  {
    if CauseKnown(rows, e) && !CauseKnown(log, e) {
      var o :| o in rows && o.eventId == e.causationId.value;
      assert Entered(log, batch, k, o);
      var j :| 0 <= j < k && IsNew(log, batch, j) && SameDraft(o, batch[j]);
      assert e.causationId == Some(batch[j].eventId);
    }
    if NewCauses(log, batch, k, e) {
      var j :| 0 <= j < k && IsNew(log, batch, j) && e.causationId == Some(batch[j].eventId);
      assert HasDraft(rows, batch[j]);
      var o :| o in rows && SameDraft(o, batch[j]);
    }
    if CauseKnown(log, e) && e.causationId.Some? && e.causationId.value != e.eventId {
      var o :| o in log && o.eventId == e.causationId.value;
      assert o in rows;
    }
  }

  ghost predicate AllEnter(log: seq<Event>, batch: seq<Event>, n: nat) {
    forall k :: 0 <= k < n && IsNew(log, batch, k) ==> MayEnter(log, batch, k)
  }

  lemma {:induction false} WalkExactly(log: seq<Event>, batch: seq<Event>, n: nat)
    requires KeysUnique(log) && n <= |batch|
    ensures Walk(log, batch[..n]).Some? <==> AllEnter(log, batch, n)
    ensures Walk(log, batch[..n]).Some? ==> Holds(log, batch, n, Walk(log, batch[..n]).value.log)
    decreases n
  {
    if n == 0 {
      assert batch[..0] == [];
    } else {
      WalkExactly(log, batch, n - 1);
      WalkPrefix(log, batch, n - 1);
      if Walk(log, batch[..n - 1]).Some? {
        StepExactly(log, batch, n - 1, Walk(log, batch[..n - 1]).value);
      }
      assert AllEnter(log, batch, n)
        <==> AllEnter(log, batch, n - 1) && (IsNew(log, batch, n - 1) ==> MayEnter(log, batch, n - 1));
    }
  }

  lemma {:induction false} WalkPrefix(log: seq<Event>, batch: seq<Event>, k: nat)
    requires k < |batch|
    ensures Walk(log, batch[..k + 1])
            == match Walk(log, batch[..k]) case None => None case Some(w) => WalkStep(log, w, batch[k])
  {
    FrontOfPrefix(batch, k);
  }

  lemma StepExactly(log: seq<Event>, batch: seq<Event>, k: nat, w: Walked)
    requires KeysUnique(log) && k < |batch| && Holds(log, batch, k, w.log)
    ensures WalkStep(log, w, batch[k]).Some? <==> (IsNew(log, batch, k) ==> MayEnter(log, batch, k))
    ensures WalkStep(log, w, batch[k]).Some? ==> Holds(log, batch, k + 1, WalkStep(log, w, batch[k]).value.log)
  {
    StoredIsTwin(log, batch[k]);
    InsertableIsApart(w.log, batch[k]);
    ApartExactly(log, batch, k, w.log, batch[k]);
    CauseExactly(log, batch, k, w.log, batch[k]);
    if WalkStep(log, w, batch[k]).Some? {
      HoldsPush(log, batch, k, w.log, WalkStep(log, w, batch[k]).value.log);
    }
  }

  /**
   Exactly when a batch that holds something new is accepted: every stream has an expectation, no
   event has a twin with other content, every event is in its place, up to the head of its stream,
   and every new one may enter.
   */
  lemma MixedAcceptedExactly(L: Ledger, batch: seq<Event>, expected: map<StreamId, int>)
    requires Valid(L) && exists e :: e in batch && !HasTwin(L.log, e)
    ensures AppendMany(L, batch, expected).Some?
            <==> && (forall e :: e in batch ==> e.streamId in expected && expected[e.streamId] >= 0)
                 && (forall e, kept :: e in batch && Twin(L.log, e, kept) ==> SameContent(e, kept))
                 && AllInPlace(L.log, batch, expected) && AllEnter(L.log, batch, |batch|)
  {
    var e :| e in batch && !HasTwin(L.log, e);
    StoredIsTwin(L.log, e);
    MixedByParts(L, batch, expected);
    ConflictExactly(L.log, batch);
    WholeWalk(L.log, batch);
    if RequestValid(batch, expected) {
      FitsInPlace(L.log, batch, expected);
    }
  }

  lemma {:induction false} MixedByParts(L: Ledger, batch: seq<Event>, expected: map<StreamId, int>)
    requires !AllStored(L.log, batch)
    ensures AppendMany(L, batch, expected).Some?
            <==> && RequestValid(batch, expected) && !Conflicting(L.log, batch)
                 && AllFit(L.log, batch, expected) && Walk(L.log, batch).Some?
  {
  }

  lemma {:induction false} WholeWalk(log: seq<Event>, batch: seq<Event>)
    requires KeysUnique(log)
    ensures Walk(log, batch).Some? <==> AllEnter(log, batch, |batch|)
  {
    WholePrefix(batch);
    WalkExactly(log, batch, |batch|);
  }

  // ---------------------------------------------------------------- what each error means

  ghost predicate Expected(batch: seq<Event>, expected: map<StreamId, int>) {
    forall e :: e in batch ==> e.streamId in expected && expected[e.streamId] >= 0
  }

  ghost predicate Repeats(log: seq<Event>, batch: seq<Event>) {
    forall e, kept :: e in batch && Twin(log, e, kept) ==> SameContent(e, kept)
  }

  /** The error an append raises names the first of its checks, in this order, that the batch fails. */
  lemma ErrorMeaning(L: Ledger, batch: seq<Event>, expected: map<StreamId, int>, error: AppendError)
    requires Valid(L) && Explains(L, batch, expected, error)
    ensures error == MissingExpectation <==> exists e :: e in batch && e.streamId !in expected
    ensures error == NegativeExpectation
            <==> (forall e :: e in batch ==> e.streamId in expected) && !Expected(batch, expected)
    ensures error == IdempotencyConflict <==> Expected(batch, expected) && !Repeats(L.log, batch)
    ensures error == OutOfOrder ==>
              Expected(batch, expected) && Repeats(L.log, batch) && forall e :: e in batch ==> HasTwin(L.log, e)
    ensures error.Concurrency? || error.WrongSequence? ==>
              && Expected(batch, expected) && Repeats(L.log, batch)
              && !AllInPlace(L.log, batch, expected) && error.stream in StreamsOf(batch)
    ensures error.Concurrency? ==> error.actual == |OnStream(L.log, error.stream)|
    ensures error == Integrity ==>
              && Expected(batch, expected) && Repeats(L.log, batch)
              && AllInPlace(L.log, batch, expected) && !AllEnter(L.log, batch, |batch|)
  {
    ConflictExactly(L.log, batch);
    WholeWalk(L.log, batch);
    StreamsNamed(batch, expected);
    if RequestValid(batch, expected) {
      FitsInPlace(L.log, batch, expected);
    }
    forall e | e in batch ensures Stored(L.log, e).Some? <==> HasTwin(L.log, e) {
      StoredIsTwin(L.log, e);
    }
    if error.Concurrency? {
      assert StreamValid(L, error.stream);
    }
  }

  lemma StreamsNamed(batch: seq<Event>, expected: map<StreamId, int>)
    ensures StreamsOf(batch) <= expected.Keys <==> forall e :: e in batch ==> e.streamId in expected
  {
    if StreamsOf(batch) <= expected.Keys {
      forall e | e in batch ensures e.streamId in expected {
        assert e.streamId in StreamsOf(batch);
      }
    }
  }
}
