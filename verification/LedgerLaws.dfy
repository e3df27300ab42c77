/** What every append keeps, and what retrying an append returns. */
module LedgerLaws {
  import opened Wrappers
  import opened Sequences
  import opened Values
  import opened Events
  import opened Ledgers

  // --------------------------------------------------- appends keep `Valid`

  ghost predicate Extends(L: Ledger, M: Ledger) {
    L.log <= M.log
  }

  lemma InsertKeepsPositions(log: seq<Event>, e: Event)
    requires PositionsIncrease(log)
    ensures PositionsIncrease(log + [Placed(log, e)])
  {
    var more := log + [Placed(log, e)];
    forall i, j | 0 <= i < j < |more|
      ensures more[i].globalPosition.value < more[j].globalPosition.value
    {
      if j == |log| && i < |log| - 1 {
        assert log[i].globalPosition.value < log[|log| - 1].globalPosition.value;
      }
    }
  }

  lemma InsertKeepsCauses(log: seq<Event>, e: Event)
    requires CausesPrecede(log) && Insertable(log, e)
    ensures CausesPrecede(log + [Placed(log, e)])
  {
    var more := log + [Placed(log, e)];
    forall i | 0 <= i < |more| && more[i].causationId.Some?
      ensures exists j :: 0 <= j <= i && more[i].causationId == Some(more[j].eventId)
    {
      if i < |log| {
        var j :| 0 <= j <= i && log[i].causationId == Some(log[j].eventId);
        assert more[j] == log[j];
      } else if e.causationId == Some(e.eventId) {
        assert more[i].causationId == Some(more[i].eventId);
      } else {
        var o :| o in log && e.causationId == Some(o.eventId);
        var j :| 0 <= j < |log| && log[j] == o;
        assert more[j] == log[j];
      }
    }
  }

  lemma InsertKeepsUnique(log: seq<Event>, e: Event)
    requires IdsUnique(log) && KeysUnique(log) && Insertable(log, e)
    ensures IdsUnique(log + [Placed(log, e)]) && KeysUnique(log + [Placed(log, e)])
  {
    forall i | 0 <= i < |log|
      ensures log[i].eventId != e.eventId
      ensures log[i].streamId == e.streamId && e.idempotencyKey.Some? ==> log[i].idempotencyKey != e.idempotencyKey
    {
      assert log[i] in log;
    }
  }

  lemma StepKeepsRows(base: seq<Event>, w: Walked, e: Event)
    requires RowsValid(w.log) && WalkStep(base, w, e).Some?
    ensures var v := WalkStep(base, w, e).value; RowsValid(v.log) && w.log <= v.log
  {
    if Stored(base, e).None? {
      InsertKeepsPositions(w.log, e);
      InsertKeepsUnique(w.log, e);
      InsertKeepsCauses(w.log, e);
    }
  }

  lemma {:induction false} WalkKeepsRows(base: seq<Event>, batch: seq<Event>)
    requires RowsValid(base) && Walk(base, batch).Some?
    ensures var w := Walk(base, batch).value;
            RowsValid(w.log) && base <= w.log && |w.events| == |batch|
  {
    if batch != [] {
      var shorter := batch[..|batch| - 1];
      WalkKeepsRows(base, shorter);
      StepKeepsRows(base, Walk(base, shorter).value, batch[|batch| - 1]);
    }
  }

  /** `a` is `b` but for the position the store assigns. */
  ghost predicate SameDraft(a: Event, b: Event) {
    a == b.(globalPosition := a.globalPosition)
  }

  ghost predicate SameDrafts(a: seq<Event>, b: seq<Event>) {
    |a| == |b| && forall i {:trigger SameDraft(a[i], b[i])} :: 0 <= i < |a| ==> SameDraft(a[i], b[i])
  }

  lemma SameDraftsPush(a: seq<Event>, b: seq<Event>, log: seq<Event>, e: Event)
    requires SameDrafts(a, b)
    ensures SameDrafts(a + [Placed(log, e)], b + [e])
  {
    var a', b' := a + [Placed(log, e)], b + [e];
    forall i | 0 <= i < |a'| ensures SameDraft(a'[i], b'[i]) {
      assert i < |a| ==> SameDraft(a[i], b[i]);
    }
  }

  lemma {:induction false} OnStreamPush(es: seq<Event>, e: Event, s: StreamId)
    ensures OnStream(es + [e], s) == if e.streamId == s then OnStream(es, s) + [e] else OnStream(es, s)
  {
    FrontOfPush(es, e);
  }

  lemma StepOnStream(base: seq<Event>, w: Walked, e: Event, s: StreamId, was: seq<Event>, added: seq<Event>,
                     novel: seq<Event>)
    returns (more: seq<Event>)
    requires WalkStep(base, w, e).Some?
    requires OnStream(w.log, s) == was + added && SameDrafts(added, novel)
    ensures OnStream(WalkStep(base, w, e).value.log, s) == was + more
    ensures SameDrafts(more, if e.streamId == s && Stored(base, e).None? then novel + [e] else novel)
  {
    more := added;
    if Stored(base, e).None? {
      OnStreamPush(w.log, Placed(w.log, e), s);
      if e.streamId == s {
        more := added + [Placed(w.log, e)];
        SameDraftsPush(added, novel, w.log, e);
        assert was + added + [Placed(w.log, e)] == was + more;
      }
    }
  }

  /** Per stream, a walk adds exactly the fresh events, in batch order. */
  lemma {:induction false} WalkOnStream(base: seq<Event>, batch: seq<Event>, s: StreamId) returns (added: seq<Event>)
    requires Walk(base, batch).Some?
    ensures OnStream(Walk(base, batch).value.log, s) == OnStream(base, s) + added
    ensures SameDrafts(added, FreshOn(base, batch, s))
  {
    if batch == [] {
      added := [];
    } else {
      var shorter, last := batch[..|batch| - 1], batch[|batch| - 1];
      added := WalkOnStream(base, shorter, s);
      added := StepOnStream(base, Walk(base, shorter).value, last, s, OnStream(base, s), added,
                            FreshOn(base, shorter, s));
    }
  }

  /** When the stored events of a stream come first, the fresh ones are the rest. */
  lemma {:induction false} FreshSuffix(log: seq<Event>, batch: seq<Event>, s: StreamId, p: nat)
    requires p <= |OnStream(batch, s)|
    requires forall i :: 0 <= i < |OnStream(batch, s)| ==> (Stored(log, OnStream(batch, s)[i]).None? <==> p <= i)
    ensures FreshOn(log, batch, s) == OnStream(batch, s)[p..]
  {
    if batch != [] {
      var shorter, last := batch[..|batch| - 1], batch[|batch| - 1];
      assert batch == shorter + [last];
      OnStreamPush(shorter, last, s);
      var mine := OnStream(shorter, s);
      if last.streamId == s {
        assert OnStream(batch, s)[|mine|] == last;
        assert forall i :: 0 <= i < |mine| ==> OnStream(batch, s)[i] == mine[i];
        FreshSuffix(log, shorter, s, if p <= |mine| then p else |mine|);
      } else {
        FreshSuffix(log, shorter, s, p);
      }
    }
  }

  lemma {:induction false} FreshIsTail(L: Ledger, batch: seq<Event>, expected: map<StreamId, int>, s: StreamId)
    requires s in expected && expected[s] >= 0 && Fits(L.log, batch, expected, s)
    ensures FreshOn(L.log, batch, s) == OnStream(batch, s)[|OnStream(L.log, s)| - expected[s]..]
  {
    FreshSuffix(L.log, batch, s, |OnStream(L.log, s)| - expected[s]);
  }

  lemma {:induction false} OnStreamEmpty(es: seq<Event>, s: StreamId)
    ensures OnStream(es, s) == [] <==> s !in StreamsOf(es)
  {
    OnStreamMembers(es, s);
    if OnStream(es, s) != [] {
      assert OnStream(es, s)[0] in es;
    }
  }

  lemma {:induction false} FitsKeepsNumbers(L: Ledger, batch: seq<Event>, expected: map<StreamId, int>, s: StreamId,
                                            added: seq<Event>)
    requires s in expected && expected[s] >= 0 && Fits(L.log, batch, expected, s)
    requires Numbered(OnStream(L.log, s)) && SameDrafts(added, FreshOn(L.log, batch, s))
    ensures Numbered(OnStream(L.log, s) + added)
  {
    FreshIsTail(L, batch, expected, s);
    var whole, mine := OnStream(L.log, s), OnStream(batch, s);
    var skip := |whole| - expected[s];
    forall i | 0 <= i < |added| ensures added[i].streamSequence == |whole| + i + 1 {
      assert mine[skip..][i] == mine[skip + i];
      assert SameDraft(added[i], mine[skip..][i]);
    }
  }

  lemma {:induction false} AppendKeepsStream(L: Ledger, batch: seq<Event>, expected: map<StreamId, int>, s: StreamId)
    requires Walk(L.log, batch).Some? && RequestValid(batch, expected)
    requires Numbered(OnStream(L.log, s))
    requires s in StreamsOf(batch) ==> Fits(L.log, batch, expected, s)
    ensures var whole := OnStream(Walk(L.log, batch).value.log, s);
            Numbered(whole) && |whole| == |OnStream(L.log, s)| + |FreshOn(L.log, batch, s)|
  {
    var added := WalkOnStream(L.log, batch, s);
    if s in StreamsOf(batch) {
      FitsKeepsNumbers(L, batch, expected, s, added);
    } else {
      OnStreamEmpty(batch, s);
      FreshSuffix(L.log, batch, s, 0);
      assert OnStream(L.log, s) + [] == OnStream(L.log, s);
    }
  }

  lemma {:induction false} AppendKeepsHead(L: Ledger, batch: seq<Event>, expected: map<StreamId, int>, s: StreamId)
    requires Valid(L) && Walk(L.log, batch).Some? && RequestValid(batch, expected)
    requires s in StreamsOf(batch) ==> Fits(L.log, batch, expected, s)
    ensures var M := Ledger(Walk(L.log, batch).value.log, Advance(L, batch));
            StreamValid(M, s)
  {
    assert StreamValid(L, s);
    AppendKeepsStream(L, batch, expected, s);
    OnStreamEmpty(batch, s);
    if s in StreamsOf(batch) {
      FreshIsTail(L, batch, expected, s);
    } else {
      FreshSuffix(L.log, batch, s, 0);
    }
  }

  /** Every accepted append leaves a valid ledger that extends the old one. */
  lemma AppendKeepsValid(L: Ledger, batch: seq<Event>, expected: map<StreamId, int>)
    requires Valid(L) && AppendMany(L, batch, expected).Some?
    ensures Valid(AppendMany(L, batch, expected).value.ledger)
    ensures Extends(L, AppendMany(L, batch, expected).value.ledger)
  {
    var M := AppendMany(L, batch, expected).value.ledger;
    if M != L {
      WalkKeepsRows(L.log, batch);
      forall s
        ensures StreamValid(M, s)
      {
        AppendKeepsHead(L, batch, expected, s);
      }
    }
  }

  // ------------------------------------------------------------ exact retry

  lemma StoredStable(log: seq<Event>, more: seq<Event>, e: Event)
    requires Stored(log, e).Some? && log <= more
    ensures Stored(more, e) == Stored(log, e)
  {
    assert log + more[|log|..] == more;
    FindStable(log, more[|log|..], e.streamId, e.idempotencyKey.value);
  }

  lemma StoredMeaning(log: seq<Event>, e: Event)
    requires Stored(log, e).Some?
    ensures var kept := Stored(log, e).value;
            kept in log && kept.streamId == e.streamId && kept.idempotencyKey == e.idempotencyKey
  {
    FindMeaning(log, e.streamId, e.idempotencyKey.value);
  }

  /** Under its key, an inserted event is what a retry finds. */
  lemma PlacedIsStored(log: seq<Event>, e: Event)
    requires Insertable(log, e) && e.idempotencyKey.Some?
    ensures Stored(log + [Placed(log, e)], e) == Some(Placed(log, e))
  {
    FindMeaning(log, e.streamId, e.idempotencyKey.value);
    assert (log + [Placed(log, e)])[..|log|] == log;
  }

  /** What a walk returns at `k`: the stored event, or the submitted one, now stored. */
  ghost predicate Answers(base: seq<Event>, w: Walked, k: nat, e: Event) {
    && k < |w.events|
    && (if Stored(base, e).Some? then w.events[k] == Stored(base, e).value else SameDraft(w.events[k], e))
    && (e.idempotencyKey.Some? ==> Stored(w.log, e) == Some(w.events[k]))
  }

  lemma StepAnswers(base: seq<Event>, w: Walked, e: Event)
    requires WalkStep(base, w, e).Some? && base <= w.log
    ensures Answers(base, WalkStep(base, w, e).value, |w.events|, e)
  {
    if Stored(base, e).Some? {
      StoredStable(base, w.log, e);
    } else if e.idempotencyKey.Some? {
      PlacedIsStored(w.log, e);
    }
  }

  lemma AnswersStable(base: seq<Event>, w: Walked, v: Walked, k: nat, e: Event)
    requires Answers(base, w, k, e) && w.log <= v.log && w.events <= v.events
    ensures Answers(base, v, k, e)
  {
    if e.idempotencyKey.Some? {
      StoredStable(w.log, v.log, e);
    }
  }

  lemma {:induction false} WalkAnswers(base: seq<Event>, batch: seq<Event>)
    requires RowsValid(base) && Walk(base, batch).Some?
    ensures |Walk(base, batch).value.events| == |batch|
    ensures forall k :: 0 <= k < |batch| ==> Answers(base, Walk(base, batch).value, k, batch[k])
  {
    if batch != [] {
      var shorter, last := batch[..|batch| - 1], batch[|batch| - 1];
      WalkKeepsRows(base, shorter);
      WalkAnswers(base, shorter);
      StepAllAnswers(base, Walk(base, shorter).value, shorter, last);
      SplitLast(batch);
    }
  }

  ghost predicate AllAnswers(base: seq<Event>, w: Walked, batch: seq<Event>) {
    |w.events| == |batch| && forall k :: 0 <= k < |batch| ==> Answers(base, w, k, batch[k])
  }

  lemma StepAllAnswers(base: seq<Event>, w: Walked, batch: seq<Event>, e: Event)
    requires AllAnswers(base, w, batch) && base <= w.log && WalkStep(base, w, e).Some?
    ensures AllAnswers(base, WalkStep(base, w, e).value, batch + [e])
  {
    var v, all := WalkStep(base, w, e).value, batch + [e];
    StepAnswers(base, w, e);
    forall k | 0 <= k < |all| ensures Answers(base, v, k, all[k]) {
      if k < |batch| {
        AnswersStable(base, w, v, k, batch[k]);
      }
    }
  }

  /** Two batches that agree on streams, position by position, agree on each stream. */
  lemma {:induction false} OnStreamPairs(a: seq<Event>, b: seq<Event>, s: StreamId, j: nat) returns (k: nat)
    requires |a| == |b| && forall i :: 0 <= i < |a| ==> a[i].streamId == b[i].streamId
    ensures |OnStream(a, s)| == |OnStream(b, s)|
    ensures j < |OnStream(a, s)| ==> k < |a| && OnStream(a, s)[j] == a[k] && OnStream(b, s)[j] == b[k]
  {
    k := 0;
    if a != [] {
      var a', b' := a[..|a| - 1], b[..|b| - 1];
      k := OnStreamPairs(a', b', s, j);
      if j == |OnStream(a', s)| {
        k := |a'|;
      }
    }
  }

  /** The events an append returns are consecutive on every stream. */
  lemma AppendedConsecutive(L: Ledger, batch: seq<Event>, expected: map<StreamId, int>)
    requires Valid(L) && AppendMany(L, batch, expected).Some?
    ensures Consecutive(AppendMany(L, batch, expected).value.events)
  {
    var events := AppendMany(L, batch, expected).value.events;
    if batch != [] && !AllStored(L.log, batch) {
      forall s, i | 0 <= i < |OnStream(events, s)|
        ensures s in expected && OnStream(events, s)[i].streamSequence == expected[s] + i + 1
      {
        WalkedSequence(L, batch, expected, s, i);
      }
    }
  }

  lemma {:induction false} WalkedSequence(L: Ledger, batch: seq<Event>, expected: map<StreamId, int>, s: StreamId,
                                          i: nat)
    requires Valid(L) && Walk(L.log, batch).Some? && RequestValid(batch, expected)
    requires forall s :: s in StreamsOf(batch) ==> Fits(L.log, batch, expected, s)
    requires i < |OnStream(Walk(L.log, batch).value.events, s)|
    ensures s in expected && OnStream(Walk(L.log, batch).value.events, s)[i].streamSequence == expected[s] + i + 1
  {
    var w := Walk(L.log, batch).value;
    WalkAnswers(L.log, batch);
    forall k | 0 <= k < |batch| ensures w.events[k].streamId == batch[k].streamId {
      assert Answers(L.log, w, k, batch[k]);
      if Stored(L.log, batch[k]).Some? {
        StoredMeaning(L.log, batch[k]);
      }
    }
    var k := OnStreamPairs(w.events, batch, s, i);
    OnStreamMembers(batch, s);
    assert OnStream(batch, s)[i] in batch;
    assert s in StreamsOf(batch);
    assert StreamValid(L, s);
    assert Answers(L.log, w, k, batch[k]);
  }

  /** Every event of an accepted, fully keyed batch is found again, with the content submitted. */
  lemma AppendedIsStored(L: Ledger, batch: seq<Event>, expected: map<StreamId, int>, k: nat)
    requires Valid(L) && AppendMany(L, batch, expected).Some?
    requires k < |batch| && batch[k].idempotencyKey.Some?
    ensures var a := AppendMany(L, batch, expected).value;
            && |a.events| == |batch|
            && Stored(a.ledger.log, batch[k]) == Some(a.events[k])
            && RequestOf(a.events[k]) == RequestOf(batch[k])
  {
    assert batch[k] in batch;
    if !AllStored(L.log, batch) {
      WalkAnswers(L.log, batch);
      assert Answers(L.log, Walk(L.log, batch).value, k, batch[k]);
    }
  }

  /** `again` asks, event by event, for what `batch` asked; ids, clocks and numbering may differ. */
  ghost predicate SameRequests(batch: seq<Event>, again: seq<Event>) {
    |batch| == |again| && forall k :: 0 <= k < |batch| ==>
      again[k].idempotencyKey == batch[k].idempotencyKey && RequestOf(again[k]) == RequestOf(batch[k])
  }

  /**
   A fully keyed batch, asked for again after any later appends and with any
   expectation, returns the same stored events in order and changes nothing.
   */
  lemma RetryReturnsStored(L: Ledger, batch: seq<Event>, expected: map<StreamId, int>, later: Ledger,
                           again: seq<Event>, stated: map<StreamId, int>)
    requires Valid(L) && AppendMany(L, batch, expected).Some?
    requires forall e :: e in batch ==> e.idempotencyKey.Some?
    requires Extends(AppendMany(L, batch, expected).value.ledger, later)
    requires SameRequests(batch, again) && RequestValid(again, stated)
    ensures AppendMany(later, again, stated)
            == Some(Appended(later, AppendMany(L, batch, expected).value.events))
  {
    if batch != [] {
      var a := AppendMany(L, batch, expected).value;
      forall k | 0 <= k < |batch|
        ensures |a.events| == |batch|
        ensures Stored(later.log, again[k]) == Some(a.events[k]) && RequestOf(a.events[k]) == RequestOf(again[k])
      {
        AppendedIsStored(L, batch, expected, k);
        StoredStable(a.ledger.log, later.log, batch[k]);
      }
      assert FoundAll(later.log, again) == a.events;
      AppendedConsecutive(L, batch, expected);
    }
  }

  // ------------------------------------------- committed prefix, new suffix

  /**
   `batch` is in the ledger exactly where `expected` puts it, and nothing follows
   it on its streams: the state right after its own append.
   */
  ghost predicate JustCommitted(L: Ledger, batch: seq<Event>, expected: map<StreamId, int>) {
    && RequestValid(batch, expected) && !Conflicting(L.log, batch) && AllStored(L.log, batch)
    && forall s :: s in StreamsOf(batch) ==>
         Fits(L.log, batch, expected, s) && |OnStream(L.log, s)| == expected[s] + |OnStream(batch, s)|
  }

  /** `expected`, advanced by what `batch` holds for each stream. */
  function Advanced(expected: map<StreamId, int>, batch: seq<Event>): map<StreamId, int> {
    map s | s in expected :: expected[s] + |OnStream(batch, s)|
  }

  /** An accepted, fully keyed batch that added something leaves itself just committed. */
  lemma AppendJustCommits(L: Ledger, batch: seq<Event>, expected: map<StreamId, int>)
    requires Valid(L) && AppendMany(L, batch, expected).Some?
    requires forall e :: e in batch ==> e.idempotencyKey.Some?
    requires !AllStored(L.log, batch)
    ensures JustCommitted(AppendMany(L, batch, expected).value.ledger, batch, expected)
  {
    var a := AppendMany(L, batch, expected).value;
    forall k | 0 <= k < |batch|
      ensures |a.events| == |batch| && Stored(a.ledger.log, batch[k]) == Some(a.events[k])
      ensures RequestOf(a.events[k]) == RequestOf(batch[k])
    {
      AppendedIsStored(L, batch, expected, k);
    }
    forall s | s in StreamsOf(batch)
      ensures Fits(a.ledger.log, batch, expected, s)
      ensures |OnStream(a.ledger.log, s)| == expected[s] + |OnStream(batch, s)|
    {
      CommittedOnStream(L.log, batch, expected, s);
    }
  }

  lemma {:induction false} CommittedAt(base: seq<Event>, log: seq<Event>, batch: seq<Event>,
                                       expected: map<StreamId, int>, s: StreamId, added: seq<Event>, i: nat)
    requires s in expected && expected[s] >= 0 && Fits(base, batch, expected, s)
    requires base <= log && KeysUnique(log) && OnStream(log, s) == OnStream(base, s) + added
    requires SameDrafts(added, OnStream(batch, s)[|OnStream(base, s)| - expected[s]..])
    requires i < |OnStream(batch, s)| && OnStream(batch, s)[i].idempotencyKey.Some?
    requires OnStream(batch, s)[i].streamId == s
    ensures Stored(log, OnStream(batch, s)[i]) == Some(OnStream(log, s)[expected[s] + i])
  {
    var was, mine := OnStream(base, s), OnStream(batch, s);
    if expected[s] + i < |was| {
      StoredStable(base, log, mine[i]);
    } else {
      var j := expected[s] + i - |was|;
      assert SameDraft(added[j], mine[|was| - expected[s]..][j]);
      OnStreamMembers(log, s);
      assert OnStream(log, s)[expected[s] + i] == added[j];
      KeyFinds(log, mine[i], added[j]);
    }
  }

  lemma {:induction false} CommittedOnStream(base: seq<Event>, batch: seq<Event>, expected: map<StreamId, int>,
                                             s: StreamId)
    requires RowsValid(base) && Walk(base, batch).Some?
    requires forall e :: e in batch ==> e.idempotencyKey.Some?
    requires s in expected && expected[s] >= 0 && Fits(base, batch, expected, s)
    ensures var log := Walk(base, batch).value.log;
            && Fits(log, batch, expected, s)
            && |OnStream(log, s)| == expected[s] + |OnStream(batch, s)|
  {
    var log, mine := Walk(base, batch).value.log, OnStream(batch, s);
    WalkKeepsRows(base, batch);
    var added := WalkOnStream(base, batch, s);
    FreshSuffix(base, batch, s, |OnStream(base, s)| - expected[s]);
    OnStreamMembers(batch, s);
    forall i | 0 <= i < |mine|
      ensures FitsAt(log, OnStream(log, s), mine[i], expected[s] + i + 1)
    {
      assert mine[i] in batch;
      CommittedAt(base, log, batch, expected, s, added, i);
    }
  }

  /** In a valid log the event carrying a key is the one a lookup finds. */
  lemma KeyFinds(log: seq<Event>, e: Event, kept: Event)
    requires KeysUnique(log) && kept in log
    requires e.idempotencyKey.Some? && kept.streamId == e.streamId && kept.idempotencyKey == e.idempotencyKey
    ensures Stored(log, e) == Some(kept)
  {
    FindMeaning(log, e.streamId, e.idempotencyKey.value);
  }

  lemma {:induction false} WalkPrefixed(base: seq<Event>, first: seq<Event>, second: seq<Event>)
    requires AllStored(base, first)
    ensures Walk(base, first + second)
            == match Walk(base, second)
               case None => None
               case Some(w) => Some(Walked(w.log, FoundAll(base, first) + w.events))
  {
    if second == [] {
      assert first + second == first;
      WalkStored(base, first);
      assert FoundAll(base, first) + [] == FoundAll(base, first);
    } else {
      var shorter, last := second[..|second| - 1], second[|second| - 1];
      WalkPrefixed(base, first, shorter);
      assert (first + second)[..|first + second| - 1] == first + shorter;
      match Walk(base, shorter) {
        case None =>
        case Some(w) =>
          var v := Walked(w.log, FoundAll(base, first) + w.events);
          assert WalkStep(base, w, last).Some? ==>
            WalkStep(base, v, last).value.events == FoundAll(base, first) + WalkStep(base, w, last).value.events;
      }
    }
  }

  lemma {:induction false} WalkStored(base: seq<Event>, batch: seq<Event>)
    requires AllStored(base, batch)
    ensures Walk(base, batch) == Some(Walked(base, FoundAll(base, batch)))
  {
    if batch != [] {
      WalkStored(base, batch[..|batch| - 1]);
      assert FoundAll(base, batch) == FoundAll(base, batch[..|batch| - 1]) + [Stored(base, batch[|batch| - 1]).value];
    }
  }

  lemma {:induction false} FreshOnConcat(log: seq<Event>, a: seq<Event>, b: seq<Event>, s: StreamId)
    ensures FreshOn(log, a + b, s) == FreshOn(log, a, s) + FreshOn(log, b, s)
  {
    if b == [] {
      assert a + b == a;
    } else {
      assert (a + b)[..|a + b| - 1] == a + b[..|b| - 1];
      FreshOnConcat(log, a, b[..|b| - 1], s);
    }
  }

  lemma {:induction false} FreshOnStored(log: seq<Event>, batch: seq<Event>, s: StreamId)
    requires AllStored(log, batch)
    ensures FreshOn(log, batch, s) == []
  {
    if batch != [] {
      FreshOnStored(log, batch[..|batch| - 1], s);
    }
  }

  lemma ContinuesSplit(log: seq<Event>, whole: seq<Event>, from: nat, a: seq<Event>, b: seq<Event>)
    requires a != [] ==> Continues(log, whole, from, a) && |whole| == from + |a|
    ensures Continues(log, whole, from, a + b) <==> Continues(log, whole, from + |a|, b)
  {
    if Continues(log, whole, from, a + b) {
      forall i | 0 <= i < |b| ensures FitsAt(log, whole, b[i], from + |a| + i + 1) {
        assert FitsAt(log, whole, (a + b)[|a| + i], from + (|a| + i) + 1);
      }
    }
    if Continues(log, whole, from + |a|, b) {
      forall k | 0 <= k < |a + b| ensures FitsAt(log, whole, (a + b)[k], from + k + 1) {
        if k < |a| {
          assert FitsAt(log, whole, a[k], from + k + 1);
        } else {
          assert FitsAt(log, whole, b[k - |a|], from + |a| + (k - |a|) + 1);
        }
      }
    }
  }

  /** After a committed prefix, a stream fits the whole batch exactly when it fits the rest. */
  lemma PrefixFits(L: Ledger, first: seq<Event>, second: seq<Event>, expected: map<StreamId, int>, s: StreamId)
    requires JustCommitted(L, first, expected)
    requires s in expected && expected[s] >= 0
    ensures Fits(L.log, first + second, expected, s)
            <==> Fits(L.log, second, Advanced(expected, first), s)
  {
    OnStreamConcat(first, second, s);
    OnStreamEmpty(first, s);
    ContinuesSplit(L.log, OnStream(L.log, s), expected[s], OnStream(first, s), OnStream(second, s));
  }

  lemma PrefixRequest(L: Ledger, first: seq<Event>, second: seq<Event>, expected: map<StreamId, int>)
    requires JustCommitted(L, first, expected)
    ensures RequestValid(first + second, expected) <==> RequestValid(second, Advanced(expected, first))
    ensures Conflicting(L.log, first + second) <==> Conflicting(L.log, second)
    ensures AllStored(L.log, first + second) <==> AllStored(L.log, second)
  {
    forall e | e in second && e.streamId in expected && expected[e.streamId] < 0
      ensures Advanced(expected, first)[e.streamId] < 0
    {
      OnStreamEmpty(first, e.streamId);
    }
    assert forall e :: e in first + second <==> e in first || e in second;
  }

  /**
   With `first` just committed, submitting `first + second` under the original
   expectation does exactly what submitting `second` under the advanced one does,
   and also returns `first` as stored. At least one event of `second` must be new.
   */
  lemma PrefixRetry(L: Ledger, first: seq<Event>, second: seq<Event>, expected: map<StreamId, int>)
    requires Valid(L) && JustCommitted(L, first, expected) && !AllStored(L.log, second)
    ensures AppendMany(L, first + second, expected)
            == match AppendMany(L, second, Advanced(expected, first))
               case None => None
               case Some(a) => Some(Appended(a.ledger, FoundAll(L.log, first) + a.events))
  {
    PrefixRequest(L, first, second, expected);
    WalkPrefixed(L.log, first, second);
    if RequestValid(first + second, expected) {
      forall s | s in StreamsOf(first + second)
        ensures s in expected && expected[s] >= 0
        ensures s in StreamsOf(second) ==>
          (Fits(L.log, first + second, expected, s) <==> Fits(L.log, second, Advanced(expected, first), s))
        ensures s !in StreamsOf(second) ==> Fits(L.log, first + second, expected, s)
      {
        PrefixFits(L, first, second, expected, s);
        if s !in StreamsOf(second) {
          OnStreamEmpty(second, s);
          OnStreamConcat(first, second, s);
        }
      }
      assert forall s :: s in StreamsOf(second) ==> s in StreamsOf(first + second);
      PrefixAdvance(L, first, second, expected);
    }
  }

  lemma PrefixAdvance(L: Ledger, first: seq<Event>, second: seq<Event>, expected: map<StreamId, int>)
    requires Valid(L) && JustCommitted(L, first, expected)
    ensures Advance(L, first + second) == Advance(L, second)
  {
    PrefixHasHeads(L, first, expected);
    assert StreamsOf(first + second) == StreamsOf(first) + StreamsOf(second);
    assert L.heads.Keys + StreamsOf(first + second) == L.heads.Keys + StreamsOf(second);
    forall s ensures FreshOn(L.log, first + second, s) == FreshOn(L.log, second, s) {
      FreshOnPrefixed(L.log, first, second, s);
    }
  }

  lemma PrefixHasHeads(L: Ledger, first: seq<Event>, expected: map<StreamId, int>)
    requires Valid(L) && JustCommitted(L, first, expected)
    ensures StreamsOf(first) <= L.heads.Keys
  {
    forall s | s in StreamsOf(first) ensures s in L.heads {
      OnStreamEmpty(first, s);
      assert StreamValid(L, s);
    }
  }

  lemma {:induction false} FreshOnPrefixed(log: seq<Event>, first: seq<Event>, second: seq<Event>, s: StreamId)
    requires AllStored(log, first)
    ensures FreshOn(log, first + second, s) == FreshOn(log, second, s)
  {
    FreshOnConcat(log, first, second, s);
    FreshOnStored(log, first, s);
  }

  /** What a lookup finds sits on its stream, at the number it carries. */
  lemma StoredInStream(L: Ledger, e: Event)
    requires Valid(L) && Stored(L.log, e).Some?
    ensures var n := Stored(L.log, e).value.streamSequence;
            && 1 <= n <= |OnStream(L.log, e.streamId)|
            && OnStream(L.log, e.streamId)[n - 1] == Stored(L.log, e).value
  {
    var s := e.streamId;
    StoredMeaning(L.log, e);
    OnStreamMembers(L.log, s);
    var i :| 0 <= i < |OnStream(L.log, s)| && OnStream(L.log, s)[i] == Stored(L.log, e).value;
    assert StreamValid(L, s);
  }

  lemma FoundStreams(log: seq<Event>, batch: seq<Event>)
    requires AllStored(log, batch)
    ensures forall k :: 0 <= k < |batch| ==> FoundAll(log, batch)[k].streamId == batch[k].streamId
    ensures StreamsOf(FoundAll(log, batch)) == StreamsOf(batch)
  {
    var found := FoundAll(log, batch);
    forall k | 0 <= k < |batch| ensures found[k].streamId == batch[k].streamId {
      StoredMeaning(log, batch[k]);
    }
    forall e | e in batch ensures e.streamId in StreamsOf(found) {
      var k :| 0 <= k < |batch| && batch[k] == e;
      assert found[k] in found;
    }
  }

  lemma {:induction false} FoundNumbers(log: seq<Event>, batch: seq<Event>, from: nat, s: StreamId, i: nat)
    requires AllStored(log, batch) && Numbered(OnStream(log, s))
    requires Continues(log, OnStream(log, s), from, OnStream(batch, s))
    requires |OnStream(log, s)| == from + |OnStream(batch, s)|
    requires i < |OnStream(batch, s)|
    ensures |OnStream(FoundAll(log, batch), s)| == |OnStream(batch, s)|
    ensures OnStream(FoundAll(log, batch), s)[i].streamSequence == from + i + 1
  {
    FoundStreams(log, batch);
    var k := OnStreamPairs(FoundAll(log, batch), batch, s, i);
    assert FitsAt(log, OnStream(log, s), OnStream(batch, s)[i], from + i + 1);
  }

  lemma {:induction false} FoundAllNumbers(log: seq<Event>, batch: seq<Event>, from: nat, s: StreamId)
    requires AllStored(log, batch) && Numbered(OnStream(log, s))
    requires Continues(log, OnStream(log, s), from, OnStream(batch, s))
    requires |OnStream(log, s)| == from + |OnStream(batch, s)|
    requires OnStream(batch, s) != []
    ensures var f := OnStream(FoundAll(log, batch), s);
            && |f| == |OnStream(batch, s)|
            && forall i :: 0 <= i < |f| ==> f[i].streamSequence == from + i + 1
  {
    var f := OnStream(FoundAll(log, batch), s);
    FoundNumbers(log, batch, from, s, 0);
    forall i | 0 <= i < |f| ensures f[i].streamSequence == from + i + 1 {
      FoundNumbers(log, batch, from, s, i);
    }
  }

  /** On each of its streams, a just committed batch ends at the head. */
  lemma {:induction false} CommittedNumbers(L: Ledger, batch: seq<Event>, expected: map<StreamId, int>, s: StreamId)
    requires Valid(L) && JustCommitted(L, batch, expected) && s in StreamsOf(batch)
    ensures var f := OnStream(FoundAll(L.log, batch), s);
            && f != [] && expected[s] + |f| == |OnStream(L.log, s)|
            && forall i :: 0 <= i < |f| ==> f[i].streamSequence == expected[s] + i + 1
  {
    OnStreamEmpty(batch, s);
    assert Fits(L.log, batch, expected, s);
    assert StreamValid(L, s);
    FoundAllNumbers(L.log, batch, expected[s], s);
  }

  lemma ConsecutiveCommitted(L: Ledger, batch: seq<Event>, expected: map<StreamId, int>)
    requires Valid(L) && JustCommitted(L, batch, expected)
    ensures Consecutive(FoundAll(L.log, batch))
  {
    var f := FoundAll(L.log, batch);
    FoundStreams(L.log, batch);
    forall s, i | 0 < i < |OnStream(f, s)|
      ensures OnStream(f, s)[i].streamSequence == OnStream(f, s)[i - 1].streamSequence + 1
    {
      OnStreamEmpty(f, s);
      CommittedNumbers(L, batch, expected, s);
    }
  }

  /** Nothing stored follows an event that is the head of its stream. */
  lemma {:induction false} NothingFollowsHead(L: Ledger, f: seq<Event>, batch: seq<Event>, s: StreamId)
    requires Valid(L) && AllStored(L.log, batch) && s in StreamsOf(batch)
    requires OnStream(f, s) != [] && OnStream(f, s)[|OnStream(f, s)| - 1].streamSequence == |OnStream(L.log, s)|
    ensures !Consecutive(f + FoundAll(L.log, batch))
  {
    var g := FoundAll(L.log, batch);
    FoundStreams(L.log, batch);
    OnStreamEmpty(g, s);
    OnStreamConcat(f, g, s);
    OnStreamMembers(g, s);
    var e := OnStream(g, s)[0];
    assert e in g;
    var k :| 0 <= k < |g| && g[k] == e;
    StoredInStream(L, batch[k]);
    var n := |OnStream(f, s)|;
    assert OnStream(f + g, s)[n] == e && OnStream(f + g, s)[n - 1] == OnStream(f, s)[n - 1];
  }

  /**
   When the suffix is stored as well, the whole batch is accepted exactly when the
   suffix alone is and the two share no stream.
   */
  lemma PrefixRetryStored(L: Ledger, first: seq<Event>, second: seq<Event>, expected: map<StreamId, int>)
    requires Valid(L) && JustCommitted(L, first, expected) && AllStored(L.log, second)
    ensures AppendMany(L, first + second, expected).Some?
            <==> AppendMany(L, second, Advanced(expected, first)).Some? && StreamsOf(first) !! StreamsOf(second)
  {
    PrefixRequest(L, first, second, expected);
    assert FoundAll(L.log, first + second) == FoundAll(L.log, first) + FoundAll(L.log, second);
    if StreamsOf(first) !! StreamsOf(second) {
      StoredApart(L, first, second, expected);
    } else {
      StoredTogether(L, first, second, expected);
    }
  }

  lemma StoredApart(L: Ledger, first: seq<Event>, second: seq<Event>, expected: map<StreamId, int>)
    requires Valid(L) && JustCommitted(L, first, expected) && AllStored(L.log, second)
    requires StreamsOf(first) !! StreamsOf(second)
    ensures Consecutive(FoundAll(L.log, first) + FoundAll(L.log, second)) <==> Consecutive(FoundAll(L.log, second))
  {
    FoundStreams(L.log, first);
    FoundStreams(L.log, second);
    ConsecutiveApart(FoundAll(L.log, first), FoundAll(L.log, second));
    ConsecutiveCommitted(L, first, expected);
  }

  lemma StoredTogether(L: Ledger, first: seq<Event>, second: seq<Event>, expected: map<StreamId, int>)
    requires Valid(L) && JustCommitted(L, first, expected) && AllStored(L.log, second)
    requires !(StreamsOf(first) !! StreamsOf(second))
    ensures !Consecutive(FoundAll(L.log, first) + FoundAll(L.log, second))
  {
    var s :| s in StreamsOf(first) && s in StreamsOf(second);
    CommittedNumbers(L, first, expected, s);
    NothingFollowsHead(L, FoundAll(L.log, first), second, s);
  }

  lemma ConsecutiveApart(f: seq<Event>, g: seq<Event>)
    requires StreamsOf(f) !! StreamsOf(g)
    ensures Consecutive(f + g) <==> Consecutive(f) && Consecutive(g)
  {
    forall s
      ensures OnStream(f + g, s) == if s in StreamsOf(f) then OnStream(f, s) else OnStream(g, s)
      ensures s in StreamsOf(f) ==> OnStream(g, s) == []
      ensures s !in StreamsOf(f) ==> OnStream(f, s) == []
    {
      OnStreamConcat(f, g, s);
      OnStreamEmpty(f, s);
      OnStreamEmpty(g, s);
    }
    if Consecutive(f + g) {
      forall s, i | 0 < i < |OnStream(f, s)|
        ensures OnStream(f, s)[i].streamSequence == OnStream(f, s)[i - 1].streamSequence + 1
      {
        assert OnStream(f + g, s) == OnStream(f, s);
      }
      forall s, i | 0 < i < |OnStream(g, s)|
        ensures OnStream(g, s)[i].streamSequence == OnStream(g, s)[i - 1].streamSequence + 1
      {
        assert OnStream(f + g, s) == OnStream(g, s);
      }
    }
  }

  /**
   A batch with something new is accepted only when every event its streams hold
   after the expectation is one the batch itself put there: any intervening event
   on a participating stream refuses it.
   */
  lemma AcceptedSeesOnlyItself(L: Ledger, batch: seq<Event>, expected: map<StreamId, int>, other: Event)
    requires Valid(L) && !AllStored(L.log, batch) && AppendMany(L, batch, expected).Some?
    requires other in L.log && other.streamId in StreamsOf(batch)
    requires other.streamSequence > expected[other.streamId]
    ensures exists e :: e in batch && Stored(L.log, e) == Some(other)
  {
    var s := other.streamId;
    var whole, mine := OnStream(L.log, s), OnStream(batch, s);
    OnStreamMembers(L.log, s);
    OnStreamMembers(batch, s);
    assert StreamValid(L, s) && Fits(L.log, batch, expected, s);
    var n :| 0 <= n < |whole| && whole[n] == other;
    var i := n - expected[s];
    assert FitsAt(L.log, whole, mine[i], expected[s] + i + 1);
    assert mine[i] in mine;
  }

  // -------------------------------------------------------------- whole runs

  datatype Call = Call(batch: seq<Event>, expected: map<StreamId, int>)

  /** The ledger after a sequence of append calls by anyone; a refused call changes nothing. */
  ghost function Run(L: Ledger, calls: seq<Call>): Ledger {
    if calls == [] then L
    else
      var before := Run(L, calls[..|calls| - 1]);
      var call := calls[|calls| - 1];
      match AppendMany(before, call.batch, call.expected)
      case None => before
      case Some(a) => a.ledger
  }

  lemma EmptyValid()
    ensures Valid(EMPTY)
  {
    forall s ensures StreamValid(EMPTY, s) {
    }
  }

  /** Every ledger any run reaches keeps every table invariant, and only ever grows. */
  lemma {:induction false} RunKeepsValid(L: Ledger, calls: seq<Call>)
    requires Valid(L)
    ensures Valid(Run(L, calls)) && Extends(L, Run(L, calls))
  {
    if calls != [] {
      var call := calls[|calls| - 1];
      var before := Run(L, calls[..|calls| - 1]);
      RunKeepsValid(L, calls[..|calls| - 1]);
      if AppendMany(before, call.batch, call.expected).Some? {
        AppendKeepsValid(before, call.batch, call.expected);
      }
    }
  }

  /** A genuine retry is never refused, whatever was appended in between. */
  lemma {:induction false} RetryAfterRun(L: Ledger, batch: seq<Event>, expected: map<StreamId, int>, calls: seq<Call>,
                                         again: seq<Event>, stated: map<StreamId, int>)
    requires Valid(L) && AppendMany(L, batch, expected).Some?
    requires forall e :: e in batch ==> e.idempotencyKey.Some?
    requires SameRequests(batch, again) && RequestValid(again, stated)
    ensures var a := AppendMany(L, batch, expected).value;
            AppendMany(Run(a.ledger, calls), again, stated) == Some(Appended(Run(a.ledger, calls), a.events))
  {
    var a := AppendMany(L, batch, expected).value;
    AppendKeepsValid(L, batch, expected);
    RunKeepsValid(a.ledger, calls);
    RetryReturnsStored(L, batch, expected, Run(a.ledger, calls), again, stated);
  }

  // ------------------------------------------------------------ single event

  lemma {:induction false} OneOnStream(e: Event, s: StreamId)
    ensures OnStream([e], s) == if e.streamId == s then [e] else []
  {
    assert [e][..|[e]| - 1] == [];
  }

  /** Appending one event: a stored twin is returned, a new one must be the next of its stream. */
  lemma AppendOne(L: Ledger, e: Event, expected: nat)
    requires Valid(L)
    ensures var r := AppendMany(L, [e], map[e.streamId := expected]);
            match Stored(L.log, e)
            case Some(kept) => r == if RequestOf(kept) == RequestOf(e) then Some(Appended(L, [kept])) else None
            case None =>
              if |OnStream(L.log, e.streamId)| == expected && e.streamSequence == expected + 1 && Insertable(L.log, e)
              then r.Some? && r.value.events == [Placed(L.log, e)] && r.value.ledger.log == L.log + [Placed(L.log, e)]
              else r.None?
  {
    if Stored(L.log, e).Some? {
      AppendTwin(L, e, expected);
    } else {
      AppendNew(L, e, expected);
    }
  }

  lemma AppendTwin(L: Ledger, e: Event, expected: nat)
    requires Stored(L.log, e).Some?
    ensures var kept := Stored(L.log, e).value;
            AppendMany(L, [e], map[e.streamId := expected])
            == if RequestOf(kept) == RequestOf(e) then Some(Appended(L, [kept])) else None
  {
    var kept := Stored(L.log, e).value;
    assert [e][..|[e]| - 1] == [] && [e][0] in [e];
    assert forall d :: d in [e] ==> d == e;
    assert FoundAll(L.log, [e]) == [kept];
    forall t ensures |OnStream([kept], t)| <= 1 {
      OneOnStream(kept, t);
    }
    assert Consecutive([kept]);
    assert Conflicting(L.log, [e]) <==> RequestOf(kept) != RequestOf(e);
  }

  lemma AppendNew(L: Ledger, e: Event, expected: nat)
    requires Stored(L.log, e).None?
    ensures var r := AppendMany(L, [e], map[e.streamId := expected]);
            if |OnStream(L.log, e.streamId)| == expected && e.streamSequence == expected + 1 && Insertable(L.log, e)
            then r.Some? && r.value.events == [Placed(L.log, e)] && r.value.ledger.log == L.log + [Placed(L.log, e)]
            else r.None?
  {
    var s, x := e.streamId, map[e.streamId := expected];
    assert [e][0] in [e];
    assert forall d :: d in [e] ==> d == e;
    assert StreamsOf([e]) == {s};
    OneFits(L.log, e, expected);
    OneWalk(L.log, e);
  }

  lemma {:induction false} OneFits(log: seq<Event>, e: Event, expected: nat)
    requires Stored(log, e).None?
    ensures Fits(log, [e], map[e.streamId := expected], e.streamId)
            <==> |OnStream(log, e.streamId)| == expected && e.streamSequence == expected + 1
  {
    OneOnStream(e, e.streamId);
    assert FitsAt(log, OnStream(log, e.streamId), OnStream([e], e.streamId)[0], expected + 0 + 1)
           <==> expected + 1 > |OnStream(log, e.streamId)| && e.streamSequence == expected + 1;
  }

  lemma {:induction false} OneWalk(log: seq<Event>, e: Event)
    requires Stored(log, e).None?
    ensures Walk(log, [e])
            == if Insertable(log, e) then Some(Walked(log + [Placed(log, e)], [Placed(log, e)])) else None
  {
    assert [e][..|[e]| - 1] == [];
    assert Walk(log, [e]) == WalkStep(log, Walked(log, []), e);
    assert [] + [Placed(log, e)] == [Placed(log, e)];
  }
}
