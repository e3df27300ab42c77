/**
 The event store as the program runs it: tables updated step by step inside a
 transaction, and restored when a step fails. Every method is proved against
 `Ledgers`.
 */
module EventStores {
  import opened Wrappers
  import opened Sequences
  import opened Values
  import opened Events
  import opened Ledgers
  import opened LedgerLaws
  import Reads = LedgerReads

  datatype AppendError =
    | MissingExpectation
    | NegativeExpectation
    | IdempotencyConflict
    | OutOfOrder
    | Concurrency(stream: StreamId, actual: nat)
    | WrongSequence(stream: StreamId)
    | Integrity

  /** When each error is raised. */
  ghost predicate Explains(L: Ledger, batch: seq<Event>, expected: map<StreamId, int>, error: AppendError) {
    match error
    case MissingExpectation => !(StreamsOf(batch) <= expected.Keys)
    case NegativeExpectation => StreamsOf(batch) <= expected.Keys && !RequestValid(batch, expected)
    case IdempotencyConflict => RequestValid(batch, expected) && Conflicting(L.log, batch)
    case OutOfOrder =>
      RequestValid(batch, expected) && !Conflicting(L.log, batch)
      && AllStored(L.log, batch) && !Consecutive(FoundAll(L.log, batch))
    case Concurrency(s, actual) =>
      RequestValid(batch, expected) && !Conflicting(L.log, batch) && !AllStored(L.log, batch)
      && s in StreamsOf(batch) && !Fits(L.log, batch, expected, s) && actual == Head(L, s)
    case WrongSequence(s) =>
      RequestValid(batch, expected) && !Conflicting(L.log, batch) && !AllStored(L.log, batch)
      && s in StreamsOf(batch) && !Fits(L.log, batch, expected, s)
      && Misnumbered(L.log, expected[s], OnStream(batch, s))
    case Integrity =>
      RequestValid(batch, expected) && !Conflicting(L.log, batch) && !AllStored(L.log, batch)
      && (forall s :: s in StreamsOf(batch) ==> Fits(L.log, batch, expected, s)) && Walk(L.log, batch).None?
  }

  /** A submitted event beside what the store already holds under its key. */
  datatype Item = Item(candidate: Event, stored: Option<Event>)

  ghost predicate Paired(log: seq<Event>, items: seq<Item>, mine: seq<Event>) {
    |items| == |mine| && forall k :: 0 <= k < |mine| ==> items[k] == Item(mine[k], Stored(log, mine[k]))
  }

  /** Each stream checked so far fits, with a committed prefix that ends at the head. */
  ghost predicate Checked(log: seq<Event>, batch: seq<Event>, expected: map<StreamId, int>,
                          prefixes: map<StreamId, nat>)
    requires forall s :: s in prefixes ==> s in expected && expected[s] >= 0
  {
    forall s :: s in prefixes ==>
      Fits(log, batch, expected, s) && expected[s] + prefixes[s] == |OnStream(log, s)|
  }

  lemma {:induction false} CheckedPush(log: seq<Event>, batch: seq<Event>, expected: map<StreamId, int>,
                                       prefixes: map<StreamId, nat>, s: StreamId, prefix: nat)
    requires forall s :: s in prefixes ==> s in expected && expected[s] >= 0
    requires Checked(log, batch, expected, prefixes) && s in expected && expected[s] >= 0
    requires Fits(log, batch, expected, s) && expected[s] + prefix == |OnStream(log, s)|
    ensures Checked(log, batch, expected, prefixes[s := prefix])
  {
  }

  ghost predicate HeadsExact(log: seq<Event>, heads: map<StreamId, nat>) {
    forall s :: s in heads ==> heads[s] == |OnStream(log, s)|
  }

  ghost predicate Grouped(log: seq<Event>, grouped: map<StreamId, seq<Item>>, es: seq<Event>) {
    forall s :: s in grouped ==> Paired(log, grouped[s], OnStream(es, s))
  }

  lemma GroupedPush(log: seq<Event>, grouped: map<StreamId, seq<Item>>, es: seq<Event>, e: Event)
    requires Grouped(log, grouped, es) && e.streamId in grouped
    ensures var items := grouped[e.streamId] + [Item(e, Stored(log, e))];
            Grouped(log, grouped[e.streamId := items], es + [e])
  {
    var next := grouped[e.streamId := grouped[e.streamId] + [Item(e, Stored(log, e))]];
    forall s | s in next ensures Paired(log, next[s], OnStream(es + [e], s)) {
      OnStreamPush(es, e, s);
      assert Paired(log, grouped[s], OnStream(es, s));
    }
  }

  /** A new event of the batch declares a number other than its place after `from`. */
  ghost predicate Misnumbered(log: seq<Event>, from: int, mine: seq<Event>) {
    exists k :: 0 <= k < |mine| && Stored(log, mine[k]).None? && mine[k].streamSequence != from + k + 1
  }

  /** What is stored for a stream's events sits on that stream, at its own number. */
  ghost predicate StoredInPlace(log: seq<Event>, whole: seq<Event>, mine: seq<Event>) {
    forall k :: 0 <= k < |mine| && Stored(log, mine[k]).Some? ==>
      var n := Stored(log, mine[k]).value.streamSequence;
      1 <= n <= |whole| && whole[n - 1] == Stored(log, mine[k]).value
  }

  lemma {:induction false} InPlace(L: Ledger, batch: seq<Event>, s: StreamId)
    requires Valid(L)
    ensures StoredInPlace(L.log, OnStream(L.log, s), OnStream(batch, s))
  {
    var mine := OnStream(batch, s);
    OnStreamMembers(batch, s);
    forall k | 0 <= k < |mine| && Stored(L.log, mine[k]).Some?
      ensures var n := Stored(L.log, mine[k]).value.streamSequence;
              1 <= n <= |OnStream(L.log, s)| && OnStream(L.log, s)[n - 1] == Stored(L.log, mine[k]).value
    {
      assert mine[k] in mine;
      StoredInStream(L, mine[k]);
    }
  }

  lemma StoredAfterNew(log: seq<Event>, whole: seq<Event>, from: nat, mine: seq<Event>, i: nat, k: nat)
    requires i < k < |mine| && Stored(log, mine[i]).None? && Stored(log, mine[k]).Some?
    ensures !Continues(log, whole, from, mine)
  {
    assert FitsAt(log, whole, mine[i], from + i + 1) ==> !FitsAt(log, whole, mine[k], from + k + 1);
  }

  /**
   The per-stream check of a batch: a stored prefix, then new events, then the
   numbers. It passes exactly when the stream continues from the expectation, and
   returns the length of the committed prefix.
   */
  method ValidateBatchStream(s: StreamId, items: seq<Item>, expected: nat, actual: nat,
                             ghost log: seq<Event>, ghost whole: seq<Event>, ghost mine: seq<Event>)
    returns (r: Result<nat, AppendError>)
    requires Paired(log, items, mine) && StoredInPlace(log, whole, mine)
    requires Numbered(whole) && actual == |whole|
    ensures r.Ok? <==> Continues(log, whole, expected, mine)
    ensures r.Ok? ==> expected + r.value == actual
    ensures r.Err? ==> r.error == Concurrency(s, actual)
                       || (r.error == WrongSequence(s) && Misnumbered(log, expected, mine))
  {
    var prefix: nat := 0;
    var encounteredNew := false;
    for k := 0 to |items|
      invariant prefix <= k && (encounteredNew <==> prefix < k)
      invariant forall j :: 0 <= j < k ==> (Stored(log, mine[j]).Some? <==> j < prefix)
    {
      if items[k].stored.Some? {
        if encounteredNew {
          StoredAfterNew(log, whole, expected, mine, prefix, k);
          return Err(Concurrency(s, actual));
        }
        prefix := prefix + 1;
      } else {
        encounteredNew := true;
      }
    }
    if Continues(log, whole, expected, mine) {
      assert prefix < |mine| ==> FitsAt(log, whole, mine[prefix], expected + prefix + 1);
      assert prefix > 0 ==> FitsAt(log, whole, mine[prefix - 1], expected + (prefix - 1) + 1);
    }
    if actual != expected + prefix {
      return Err(Concurrency(s, actual));
    }
    for k := 0 to |items|
      invariant forall j :: 0 <= j < k ==> FitsAt(log, whole, mine[j], expected + j + 1)
    {
      var required := expected + k + 1;
      if items[k].stored.Some? {
        if items[k].stored.value.streamSequence != required {
          assert !FitsAt(log, whole, mine[k], required);
          return Err(Concurrency(s, actual));
        }
      } else if items[k].candidate.streamSequence != required {
        assert !FitsAt(log, whole, mine[k], required);
        return Err(WrongSequence(s));
      }
    }
    return Ok(prefix);
  }

  /** `last` holds the number of the last event of every stream of `found`. */
  ghost predicate LastNumbers(found: seq<Event>, last: map<StreamId, int>) {
    && (forall s :: s in last <==> OnStream(found, s) != [])
    && (forall s :: s in last ==> last[s] == OnStream(found, s)[|OnStream(found, s)| - 1].streamSequence)
  }

  lemma LastNumbersPush(found: seq<Event>, e: Event, last: map<StreamId, int>)
    requires LastNumbers(found, last)
    ensures LastNumbers(found + [e], last[e.streamId := e.streamSequence])
  {
    forall s ensures OnStream(found + [e], s) == if s == e.streamId then OnStream(found, s) + [e]
      else OnStream(found, s) {
      OnStreamPush(found, e, s);
    }
  }

  /** The retry fast path: per stream, stored events must follow one another. */
  method ValidateExistingOrder(found: seq<Event>) returns (r: Result<(), AppendError>)
    ensures r.Ok? <==> Consecutive(found)
    ensures r.Err? ==> r.error == OutOfOrder
  {
    var last: map<StreamId, int> := map[];
    for k := 0 to |found|
      invariant Consecutive(found[..k]) && LastNumbers(found[..k], last)
    {
      var e := found[k];
      assert found[..k + 1] == found[..k] + [e];
      ConsecutivePush(found[..k], e);
      if e.streamId in last && e.streamSequence != last[e.streamId] + 1 {
        ConsecutivePrefix(found, k + 1);
        return Err(OutOfOrder);
      }
      LastNumbersPush(found[..k], e, last);
      last := last[e.streamId := e.streamSequence];
    }
    WholePrefix(found);
    return Ok(());
  }

  lemma {:induction false} ConsecutivePush(es: seq<Event>, e: Event)
    requires Consecutive(es)
    ensures var mine := OnStream(es, e.streamId);
            Consecutive(es + [e])
            <==> (mine != [] ==> e.streamSequence == mine[|mine| - 1].streamSequence + 1)
  {
    var mine := OnStream(es, e.streamId);
    if mine != [] {
      StepOfPush(es, e, e.streamId, |mine|);
    }
    if mine != [] ==> e.streamSequence == mine[|mine| - 1].streamSequence + 1 {
      forall s, i | 0 < i < |OnStream(es + [e], s)|
        ensures OnStream(es + [e], s)[i].streamSequence == OnStream(es + [e], s)[i - 1].streamSequence + 1
      {
        StepOfPush(es, e, s, i);
      }
    }
  }

  /** A step of a stream after a push: one that was there before, or the one to the pushed event. */
  lemma {:induction false} StepOfPush(es: seq<Event>, e: Event, s: StreamId, i: nat)
    requires 0 < i
    ensures var before, more := OnStream(es, s), OnStream(es + [e], s);
            && |before| <= |more| && (i < |more| <==> i < |before| || (s == e.streamId && i == |before|))
            && (i < |before| ==> more[i] == before[i] && more[i - 1] == before[i - 1])
            && (s == e.streamId && i == |before| ==> more[i] == e && more[i - 1] == before[i - 1])
  {
    OnStreamPush(es, e, s);
  }

  lemma ConsecutivePrefix(es: seq<Event>, k: nat)
    requires k <= |es|
    ensures Consecutive(es) ==> Consecutive(es[..k])
  {
    SplitAt(es, k);
    if Consecutive(es) {
      forall s, i | 0 < i < |OnStream(es[..k], s)|
        ensures OnStream(es[..k], s)[i].streamSequence == OnStream(es[..k], s)[i - 1].streamSequence + 1
      {
        OnStreamConcat(es[..k], es[k..], s);
        assert OnStream(es, s)[i] == OnStream(es[..k], s)[i];
        assert OnStream(es, s)[i - 1] == OnStream(es[..k], s)[i - 1];
      }
    }
  }

  class EventStore {
    var log: seq<Event>            // kernel_events, in insertion order
    var heads: map<StreamId, nat>  // event_streams

    ghost function State(): Ledger
      reads this
    {
      Ledger(log, heads)
    }

    constructor ()
      ensures State() == EMPTY
    {
      log, heads := [], map[];
    }

    /** Append one event; the expectation covers its stream alone. */
    method Append(event: Event, expected: int) returns (r: Result<Event, AppendError>)
      requires Valid(State())
      modifies this
      ensures Valid(State())
      ensures r.Ok? <==> AppendMany(old(State()), [event], map[event.streamId := expected]).Some?
      ensures r.Ok? ==> AppendMany(old(State()), [event], map[event.streamId := expected])
                        == Some(Appended(State(), [r.value]))
      ensures r.Err? ==> State() == old(State())
                         && Explains(old(State()), [event], map[event.streamId := expected], r.error)
    {
      var appended := AppendBatch([event], map[event.streamId := expected]);
      match appended {
        case Ok(events) =>
          assert events == [events[0]];
          r := Ok(events[0]);
        case Err(error) => r := Err(error);
      }
    }

    method Get(id: Text) returns (r: Option<Event>)
      ensures r == Reads.ById(log, id)
    {
      r := Reads.ById(log, id);
    }

    method ReadStream(s: StreamId) returns (r: seq<Event>)
      ensures r == OnStream(log, s)
    {
      r := OnStream(log, s);
    }

    /** One page of the ledger; a negative cursor or an empty limit is refused. */
    method ReadAll(after: int, limit: int) returns (r: Option<seq<Event>>)
      ensures r == if after < 0 || limit < 1 then None else Some(Reads.ReadAll(log, after, Some(limit)))
    {
      r := if after < 0 || limit < 1 then None else Some(Reads.ReadAll(log, after, Some(limit)));
    }

    /** The public batch append: one transaction, rolled back when any step fails. */
    method AppendBatch(batch: seq<Event>, expected: map<StreamId, int>) returns (r: Result<seq<Event>, AppendError>)
      requires Valid(State())
      modifies this
      ensures Valid(State())
      ensures r.Ok? <==> AppendMany(old(State()), batch, expected).Some?
      ensures r.Ok? ==> |r.value| == |batch|
                        && AppendMany(old(State()), batch, expected) == Some(Appended(State(), r.value))
      ensures r.Err? ==> State() == old(State()) && Explains(old(State()), batch, expected, r.error)
    {
      if batch == [] {
        return Ok([]);
      }
      var savedLog, savedHeads := log, heads;
      r := AppendInTransaction(batch, expected);
      if r.Ok? {
        AppendKeepsValid(old(State()), batch, expected);
        AppendedLength(old(State()), batch, expected);
      } else {
        log, heads := savedLog, savedHeads;
      }
    }

    /** The steps of an append; on an error the tables are whatever the steps so far made them. */
    method AppendInTransaction(batch: seq<Event>, expected: map<StreamId, int>)
      returns (r: Result<seq<Event>, AppendError>)
      requires Valid(State()) && batch != []
      modifies this
      ensures r.Ok? <==> AppendMany(old(State()), batch, expected).Some?
      ensures r.Ok? ==> AppendMany(old(State()), batch, expected) == Some(Appended(State(), r.value))
      ensures r.Err? ==> Explains(old(State()), batch, expected, r.error)
    {
      ghost var L := State();
      var checked := ValidateRequest(batch, expected);
      if checked.Err? {
        return Err(checked.error);
      }
      var looked := LookUp(batch);
      if looked.Err? {
        return Err(looked.error);
      }
      if forall e :: e in looked.value ==> e.Some? {
        r := ReturnExisting(batch, looked.value);
      } else {
        ghost var k :| 0 <= k < |looked.value| && looked.value[k].None?;
        assert batch[k] in batch;
        r := AppendFresh(batch, expected, looked.value);
      }
    }

    /** Every event is stored already: return them, provided their order is genuine. */
    method ReturnExisting(batch: seq<Event>, existing: seq<Option<Event>>) returns (r: Result<seq<Event>, AppendError>)
      requires |existing| == |batch| && forall k :: 0 <= k < |batch| ==> existing[k] == Stored(log, batch[k])
      requires forall e :: e in existing ==> e.Some?
      ensures AllStored(log, batch)
      ensures r.Ok? <==> Consecutive(FoundAll(log, batch))
      ensures r == if r.Ok? then Ok(FoundAll(log, batch)) else Err(OutOfOrder)
    {
      forall e | e in batch ensures Stored(log, e).Some? {
        var k :| 0 <= k < |batch| && batch[k] == e;
        assert existing[k] in existing;
      }
      assert forall k :: 0 <= k < |batch| ==> existing[k] in existing;
      var found := seq(|existing|, i requires 0 <= i < |existing| && existing[i].Some? => existing[i].value);
      assert found == FoundAll(log, batch);
      var ordered := ValidateExistingOrder(found);
      return if ordered.Ok? then Ok(found) else Err(ordered.error);
    }

    /** Something is new: check every stream, insert, then move the heads. */
    method AppendFresh(batch: seq<Event>, expected: map<StreamId, int>, existing: seq<Option<Event>>)
      returns (r: Result<seq<Event>, AppendError>)
      requires Valid(State()) && RequestValid(batch, expected)
      requires !Conflicting(log, batch) && !AllStored(log, batch)
      requires |existing| == |batch| && forall k :: 0 <= k < |batch| ==> existing[k] == Stored(log, batch[k])
      modifies this
      ensures r.Ok? <==> (forall s :: s in StreamsOf(batch) ==> Fits(old(log), batch, expected, s))
                         && Walk(old(log), batch).Some?
      ensures r.Ok? ==> Walk(old(log), batch) == Some(Walked(log, r.value)) && heads == Advance(old(State()), batch)
      ensures r.Err? ==> Explains(old(State()), batch, expected, r.error)
    {
      ghost var L := State();
      var grouped := Group(batch, existing);
      forall s | s in grouped ensures StoredInPlace(log, OnStream(log, s), OnStream(batch, s)) {
        InPlace(L, batch, s);
      }
      var validated := ValidateStreams(batch, expected, grouped);
      if validated.Err? {
        assert forall s :: s in StreamsOf(batch) ==> StreamValid(L, s);
        return Err(validated.error);
      }
      r := InsertFresh(batch, existing);
      if r.Ok? {
        ghost var before := heads;
        AdvanceHeads(grouped, validated.value);
        HeadsAdvanced(L, batch, expected, before, heads);
      }
    }

    method ValidateRequest(batch: seq<Event>, expected: map<StreamId, int>) returns (r: Result<(), AppendError>)
      ensures r.Ok? <==> RequestValid(batch, expected)
      ensures r.Err? ==> r.error == if StreamsOf(batch) <= expected.Keys then NegativeExpectation
        else MissingExpectation
    {
      if exists e :: e in batch && e.streamId !in expected {
        return Err(MissingExpectation);
      }
      if exists e :: e in batch && expected[e.streamId] < 0 {
        return Err(NegativeExpectation);
      }
      return Ok(());
    }

    /** What is stored under each event's key; a key reused for other content is refused. */
    method LookUp(batch: seq<Event>) returns (r: Result<seq<Option<Event>>, AppendError>)
      ensures r.Ok? <==> !Conflicting(log, batch)
      ensures r.Ok? ==> |r.value| == |batch| && forall k :: 0 <= k < |batch| ==> r.value[k] == Stored(log, batch[k])
      ensures r.Err? ==> r.error == IdempotencyConflict
    {
      var existing: seq<Option<Event>> := [];
      for k := 0 to |batch|
        invariant |existing| == k && forall j :: 0 <= j < k ==> existing[j] == Stored(log, batch[j])
        invariant !Conflicting(log, batch[..k])
      {
        var stored := Stored(log, batch[k]);
        if stored.Some? && RequestOf(stored.value) != RequestOf(batch[k]) {
          assert batch[k] in batch;
          return Err(IdempotencyConflict);
        }
        existing := existing + [stored];
        PrefixPush(batch, k);
      }
      WholePrefix(batch);
      return Ok(existing);
    }

    /** The submitted events of each stream, in order, beside what is stored for them. */
    method Group(batch: seq<Event>, existing: seq<Option<Event>>) returns (grouped: map<StreamId, seq<Item>>)
      requires |existing| == |batch| && forall k :: 0 <= k < |batch| ==> existing[k] == Stored(log, batch[k])
      ensures grouped.Keys == StreamsOf(batch)
      ensures forall s :: s in grouped ==> Paired(log, grouped[s], OnStream(batch, s))
    {
      grouped := map s | s in StreamsOf(batch) :: [];
      for k := 0 to |batch|
        invariant grouped.Keys == StreamsOf(batch)
        invariant Grouped(log, grouped, batch[..k])
      {
        var e := batch[k];
        assert e in batch;
        PrefixPush(batch, k);
        GroupedPush(log, grouped, batch[..k], e);
        grouped := grouped[e.streamId := grouped[e.streamId] + [Item(e, existing[k])]];
      }
      WholePrefix(batch);
    }

    /**
     The optimistic check of every stream, in whatever order the set yields them. A
     stream seen for the first time gets its row here; the row cannot exist already.
     */
    method ValidateStreams(batch: seq<Event>, expected: map<StreamId, int>, grouped: map<StreamId, seq<Item>>)
      returns (r: Result<map<StreamId, nat>, AppendError>)
      requires forall s :: StreamValid(State(), s)
      requires forall s :: s in grouped ==> s in expected && expected[s] >= 0
      requires forall s :: s in grouped ==>
        Paired(log, grouped[s], OnStream(batch, s)) && StoredInPlace(log, OnStream(log, s), OnStream(batch, s))
      modifies this`heads
      ensures r.Ok? <==> forall s :: s in grouped ==> Fits(log, batch, expected, s)
      ensures r.Ok? ==> r.value.Keys == grouped.Keys
      ensures r.Ok? ==> forall s :: s in r.value ==> expected[s] + r.value[s] == |OnStream(log, s)|
      ensures r.Ok? ==> heads.Keys == old(heads.Keys) + grouped.Keys
      ensures r.Ok? ==> forall s :: s in heads ==> heads[s] == |OnStream(log, s)|
      ensures r.Err? ==> exists s :: s in grouped && !Fits(log, batch, expected, s)
                           && (r.error == Concurrency(s, |OnStream(log, s)|)
                               || (r.error == WrongSequence(s) && Misnumbered(log, expected[s], OnStream(batch, s))))
    {
      ghost var L, rows := State(), log;
      assert forall s :: s in heads ==> StreamValid(L, s);
      var prefixes: map<StreamId, nat> := map[];
      var pending := grouped.Keys;
      while pending != {}
        invariant log == rows && pending <= grouped.Keys && prefixes.Keys == grouped.Keys - pending
        invariant Checked(rows, batch, expected, prefixes)
        invariant heads.Keys == L.heads.Keys + prefixes.Keys && HeadsExact(rows, heads)
        decreases pending
      {
        var s :| s in pending;
        assert StreamValid(L, s) && (s in heads <==> s in L.heads);
        var checked := ValidateStream(s, grouped[s], expected[s], OnStream(batch, s));
        if checked.Err? {
          return Err(checked.error);
        }
        CheckedPush(rows, batch, expected, prefixes, s, checked.value);
        prefixes := prefixes[s := checked.value];
        pending := pending - {s};
      }
      return Ok(prefixes);
    }

    method ValidateStream(s: StreamId, items: seq<Item>, expected: nat, ghost mine: seq<Event>)
      returns (r: Result<nat, AppendError>)
      requires Paired(log, items, mine) && StoredInPlace(log, OnStream(log, s), mine)
      requires Numbered(OnStream(log, s)) && Head(State(), s) == |OnStream(log, s)|
      requires s in heads ==> heads[s] >= 1
      modifies this`heads
      ensures r.Ok? <==> Continues(log, OnStream(log, s), expected, mine)
      ensures r.Ok? ==> expected + r.value == |OnStream(log, s)| && heads == old(heads)[s := |OnStream(log, s)|]
      ensures r.Err? ==> r.error == Concurrency(s, |OnStream(log, s)|)
                         || (r.error == WrongSequence(s) && Misnumbered(log, expected, mine))
    {
      var actual := if s in heads then heads[s] else 0;
      r := ValidateBatchStream(s, items, expected, actual, log, OnStream(log, s), mine);
      if r.Ok? && actual == 0 {
        if s in heads {
          assert false;  // the insert would violate the primary key
        }
        heads := heads[s := 0];
      }
    }

    /** Insert what is new, in batch order, and return every event as stored. */
    method InsertFresh(batch: seq<Event>, existing: seq<Option<Event>>) returns (r: Result<seq<Event>, AppendError>)
      requires |existing| == |batch| && forall k :: 0 <= k < |batch| ==> existing[k] == Stored(log, batch[k])
      requires StreamsOf(batch) <= heads.Keys
      modifies this`log
      ensures r.Ok? <==> Walk(old(log), batch).Some?
      ensures r.Ok? ==> Walk(old(log), batch) == Some(Walked(log, r.value))
      ensures r.Err? ==> r.error == Integrity
    {
      ghost var base := log;
      var appended: seq<Event> := [];
      for k := 0 to |batch|
        invariant Walk(base, batch[..k]) == Some(Walked(log, appended))
      {
        FrontOfPrefix(batch, k);
        assert batch[k] in batch;
        if existing[k].Some? {
          appended := appended + [existing[k].value];
        } else {
          var inserted := InsertEvent(batch[k]);
          if inserted.Err? {
            WalkFails(base, batch, k + 1);
            return Err(inserted.error);
          }
          appended := appended + [inserted.value];
        }
      }
      WholePrefix(batch);
      return Ok(appended);
    }

    /** One insert: the constraints of `kernel_events`, then the next position. */
    method InsertEvent(event: Event) returns (r: Result<Event, AppendError>)
      requires event.streamId in heads
      modifies this`log
      ensures r.Ok? <==> Insertable(old(log), event)
      ensures r.Ok? ==> r.value == Placed(old(log), event) && log == old(log) + [r.value]
      ensures r.Err? ==> r.error == Integrity && log == old(log)
    {
      if !Insertable(log, event) {
        return Err(Integrity);
      }
      var stored := event.(globalPosition := Some(LastPosition(log) + 1));
      log := log + [stored];
      return Ok(stored);
    }

    /** Move each stream that gained events to its new head; the guarded update always finds its row. */
    method AdvanceHeads(grouped: map<StreamId, seq<Item>>, prefixes: map<StreamId, nat>)
      requires grouped.Keys == prefixes.Keys <= heads.Keys
      requires forall s :: s in grouped ==> prefixes[s] <= |grouped[s]|
      modifies this`heads
      ensures heads.Keys == old(heads.Keys)
      ensures forall s :: s in heads ==>
        heads[s] == old(heads)[s] + if s in grouped then |grouped[s]| - prefixes[s] else 0
    {
      var previous := heads;
      var pending := grouped.Keys;
      while pending != {}
        invariant pending <= grouped.Keys && heads.Keys == previous.Keys
        invariant forall s :: s in heads ==>
          heads[s] == previous[s] + if s in grouped.Keys - pending then |grouped[s]| - prefixes[s] else 0
        decreases pending
      {
        var s :| s in pending;
        var count := |grouped[s]| - prefixes[s];
        if count > 0 {
          if s !in heads || heads[s] != previous[s] {
            assert false;  // the row-count guard
          }
          heads := heads[s := previous[s] + count];
        }
        pending := pending - {s};
      }
    }
  }

  lemma {:induction false} HeadsAdvanced(L: Ledger, batch: seq<Event>, expected: map<StreamId, int>,
                                         before: map<StreamId, nat>, after: map<StreamId, nat>)
    requires Valid(L) && RequestValid(batch, expected)
    requires forall s :: s in StreamsOf(batch) ==> Fits(L.log, batch, expected, s)
    requires before.Keys == after.Keys == L.heads.Keys + StreamsOf(batch)
    requires forall s :: s in before ==> before[s] == |OnStream(L.log, s)|
    requires forall s :: s in after ==>
      after[s] == before[s] + if s in StreamsOf(batch) then expected[s] + |OnStream(batch, s)| - |OnStream(L.log, s)|
        else 0
    ensures after == Advance(L, batch)
  {
    forall s | s in after ensures after[s] == Advance(L, batch)[s] {
      assert StreamValid(L, s);
      if s in StreamsOf(batch) {
        FreshIsTail(L, batch, expected, s);
      } else {
        OnStreamEmpty(batch, s);
        FreshSuffix(L.log, batch, s, 0);
      }
    }
  }

  lemma {:induction false} WalkFails(base: seq<Event>, batch: seq<Event>, k: nat)
    requires k <= |batch| && Walk(base, batch[..k]).None?
    ensures Walk(base, batch).None?
    decreases |batch| - k
  {
    if k == |batch| {
      assert batch[..k] == batch;
    } else {
      FrontOfPrefix(batch, k);
      WalkFails(base, batch, k + 1);
    }
  }

  lemma AppendedLength(L: Ledger, batch: seq<Event>, expected: map<StreamId, int>)
    requires Valid(L) && AppendMany(L, batch, expected).Some?
    ensures |AppendMany(L, batch, expected).value.events| == |batch|
  {
    if batch != [] && !AllStored(L.log, batch) {
      WalkAnswers(L.log, batch);
    }
  }
}
