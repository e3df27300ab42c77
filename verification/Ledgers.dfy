/**
 The event ledger as a value: what a batch append does to it, and what every
 ledger reached by appends keeps. `EventStores` holds the imperative store that
 is proved against `AppendMany`.
 */
module Ledgers {
  import opened Wrappers
  import opened Sequences
  import opened Values
  import opened Events

  /** The `kernel_events` rows in insertion order, and the `event_streams` rows. */
  datatype Ledger = Ledger(log: seq<Event>, heads: map<StreamId, nat>)

  const EMPTY := Ledger([], map[])

  // ---------------------------------------------------------------- reading

  /** The events of one stream, in log order. */
  function OnStream(es: seq<Event>, s: StreamId): seq<Event> {
    if es == [] then []
    else
      var before, last := OnStream(es[..|es| - 1], s), es[|es| - 1];
      if last.streamId == s then before + [last] else before
  }

  lemma {:induction false} OnStreamMembers(es: seq<Event>, s: StreamId)
    ensures forall e :: e in OnStream(es, s) <==> e in es && e.streamId == s
  {
    if es != [] {
      OnStreamMembers(es[..|es| - 1], s);
      SplitLast(es);
    }
  }

  lemma {:induction false} OnStreamConcat(a: seq<Event>, b: seq<Event>, s: StreamId)
    ensures OnStream(a + b, s) == OnStream(a, s) + OnStream(b, s)
  {
    if b == [] {
      assert a + b == a;
    } else {
      assert (a + b)[..|a + b| - 1] == a + b[..|b| - 1];
      OnStreamConcat(a, b[..|b| - 1], s);
    }
  }

  function Head(L: Ledger, s: StreamId): nat {
    if s in L.heads then L.heads[s] else 0
  }

  function LastPosition(log: seq<Event>): nat {
    if log == [] then 0
    else match log[|log| - 1].globalPosition case Some(p) => p case None => 0
  }

  /** The first event of stream `s` recorded under `key`. */
  function Find(log: seq<Event>, s: StreamId, key: Text): Option<Event> {
    if log == [] then None
    else
      var before := Find(log[..|log| - 1], s, key);
      var last := log[|log| - 1];
      if before.Some? then before
      else if last.streamId == s && last.idempotencyKey == Some(key) then Some(last)
      else None
  }

  lemma {:induction false} FindMeaning(log: seq<Event>, s: StreamId, key: Text)
    ensures match Find(log, s, key)
            case Some(e) => e in log && e.streamId == s && e.idempotencyKey == Some(key)
            case None => forall e :: e in log && e.streamId == s ==> e.idempotencyKey != Some(key)
  {
    if log != [] {
      FindMeaning(log[..|log| - 1], s, key);
      SplitLast(log);
    }
  }

  lemma {:induction false} FindStable(log: seq<Event>, more: seq<Event>, s: StreamId, key: Text)
    ensures Find(log, s, key).Some? ==> Find(log + more, s, key) == Find(log, s, key)
  {
    if more == [] {
      assert log + more == log;
    } else {
      assert (log + more)[..|log + more| - 1] == log + more[..|more| - 1];
      FindStable(log, more[..|more| - 1], s, key);
    }
  }

  /** What an idempotent retry of `e` would return. */
  function Stored(log: seq<Event>, e: Event): Option<Event> {
    match e.idempotencyKey
    case None => None
    case Some(key) => Find(log, e.streamId, key)
  }

  // -------------------------------------------------------------- inserting

  /** The table constraints an insert is checked against. */
  predicate Insertable(log: seq<Event>, e: Event) {
    && (forall o :: o in log ==> o.eventId != e.eventId)
    && (forall o :: o in log ==> !(o.streamId == e.streamId && o.streamSequence == e.streamSequence))
    && (e.idempotencyKey.Some? ==>
          forall o :: o in log ==> !(o.streamId == e.streamId && o.idempotencyKey == e.idempotencyKey))
    && (e.causationId.None? || e.causationId == Some(e.eventId)
        || exists o :: o in log && e.causationId == Some(o.eventId))
  }

  function Placed(log: seq<Event>, e: Event): Event {
    e.(globalPosition := Some(LastPosition(log) + 1))
  }

  datatype Walked = Walked(log: seq<Event>, events: seq<Event>)

  /** One event of a batch: returned as stored in `base`, or inserted after those before it. */
  function WalkStep(base: seq<Event>, w: Walked, e: Event): Option<Walked> {
    match Stored(base, e)
    case Some(kept) => Some(Walked(w.log, w.events + [kept]))
    case None =>
      if Insertable(w.log, e) then
        Some(Walked(w.log + [Placed(w.log, e)], w.events + [Placed(w.log, e)]))
      else None
  }

  function Walk(base: seq<Event>, batch: seq<Event>): Option<Walked> {
    if batch == [] then Some(Walked(base, []))
    else
      match Walk(base, batch[..|batch| - 1])
      case None => None
      case Some(w) => WalkStep(base, w, batch[|batch| - 1])
  }

  // -------------------------------------------------------------- appending

  function StreamsOf(es: seq<Event>): set<StreamId> {
    set e | e in es :: e.streamId
  }

  predicate AllStored(log: seq<Event>, batch: seq<Event>) {
    forall e :: e in batch ==> Stored(log, e).Some?
  }

  /** A key is reused for different content. */
  predicate Conflicting(log: seq<Event>, batch: seq<Event>) {
    exists e :: e in batch && Stored(log, e).Some? && RequestOf(Stored(log, e).value) != RequestOf(e)
  }

  function FoundAll(log: seq<Event>, batch: seq<Event>): (r: seq<Event>)
    requires AllStored(log, batch)
    ensures |r| == |batch|
    ensures forall i :: 0 <= i < |batch| ==> Stored(log, batch[i]) == Some(r[i])
  {
    seq(|batch|, i requires 0 <= i < |batch| => Stored(log, batch[i]).value)
  }

  /** On every stream the events follow one another without a gap. */
  ghost predicate Consecutive(es: seq<Event>) {
    forall s, i :: 0 < i < |OnStream(es, s)| ==>
      OnStream(es, s)[i].streamSequence == OnStream(es, s)[i - 1].streamSequence + 1
  }

  predicate RequestValid(batch: seq<Event>, expected: map<StreamId, int>) {
    forall e :: e in batch ==> e.streamId in expected && expected[e.streamId] >= 0
  }

  /**
   Submitting `e` as number `n` of a stream holding `whole`: below the head it is
   that very event, above it it is new and says so.
   */
  predicate FitsAt(log: seq<Event>, whole: seq<Event>, e: Event, n: nat)
    requires n >= 1
  {
    if n <= |whole| then Stored(log, e) == Some(whole[n - 1])
    else Stored(log, e).None? && e.streamSequence == n
  }

  /**
   What a stream gained after `from` is a prefix of what the caller submits for
   it, and the rest is new and numbered on from there.
   */
  ghost predicate Continues(log: seq<Event>, whole: seq<Event>, from: nat, mine: seq<Event>) {
    && from <= |whole| <= from + |mine|
    && forall i :: 0 <= i < |mine| ==> FitsAt(log, whole, mine[i], from + i + 1)
  }

  ghost predicate Fits(log: seq<Event>, batch: seq<Event>, expected: map<StreamId, int>, s: StreamId)
    requires s in expected && expected[s] >= 0
  {
    Continues(log, OnStream(log, s), expected[s], OnStream(batch, s))
  }

  /** What `batch` adds to stream `s`: its events there that `log` does not store. */
  function FreshOn(log: seq<Event>, batch: seq<Event>, s: StreamId): seq<Event> {
    if batch == [] then []
    else
      var before, last := FreshOn(log, batch[..|batch| - 1], s), batch[|batch| - 1];
      if last.streamId == s && Stored(log, last).None? then before + [last] else before
  }

  function Advance(L: Ledger, batch: seq<Event>): map<StreamId, nat> {
    map s | s in L.heads.Keys + StreamsOf(batch) :: Head(L, s) + |FreshOn(L.log, batch, s)|
  }

  datatype Appended = Appended(ledger: Ledger, events: seq<Event>)

  /** The batch append: `None` when it is refused, in which case nothing changes. */
  ghost function AppendMany(L: Ledger, batch: seq<Event>, expected: map<StreamId, int>): Option<Appended> {
    if batch == [] then Some(Appended(L, []))
    else if !RequestValid(batch, expected) || Conflicting(L.log, batch) then None
    else if AllStored(L.log, batch) then
      if Consecutive(FoundAll(L.log, batch)) then Some(Appended(L, FoundAll(L.log, batch))) else None
    else if forall s :: s in StreamsOf(batch) ==> Fits(L.log, batch, expected, s) then
      match Walk(L.log, batch)
      case None => None
      case Some(w) => Some(Appended(Ledger(w.log, Advance(L, batch)), w.events))
    else None
  }

  // -------------------------------------------------------------- invariant

  ghost predicate PositionsIncrease(log: seq<Event>) {
    && (forall i :: 0 <= i < |log| ==> log[i].globalPosition.Some? && log[i].globalPosition.value >= 1)
    && forall i, j :: 0 <= i < j < |log| ==> log[i].globalPosition.value < log[j].globalPosition.value
  }

  ghost predicate IdsUnique(log: seq<Event>) {
    forall i, j :: 0 <= i < j < |log| ==> log[i].eventId != log[j].eventId
  }

  ghost predicate KeysUnique(log: seq<Event>) {
    forall i, j :: 0 <= i < j < |log| && log[i].streamId == log[j].streamId && log[i].idempotencyKey.Some? ==>
      log[i].idempotencyKey != log[j].idempotencyKey
  }

  /** An event is caused by itself, by an earlier event, or by none. */
  ghost predicate CausesPrecede(log: seq<Event>) {
    forall i :: 0 <= i < |log| && log[i].causationId.Some? ==>
      exists j :: 0 <= j <= i && log[i].causationId == Some(log[j].eventId)
  }

  ghost predicate RowsValid(log: seq<Event>) {
    PositionsIncrease(log) && IdsUnique(log) && KeysUnique(log) && CausesPrecede(log)
  }

  ghost predicate Numbered(es: seq<Event>) {
    forall i :: 0 <= i < |es| ==> es[i].streamSequence == i + 1
  }

  /** A stream's row names the number of its last event, and the numbers have no gap. */
  ghost predicate StreamValid(L: Ledger, s: StreamId) {
    && Numbered(OnStream(L.log, s))
    && Head(L, s) == |OnStream(L.log, s)|
    && (s in L.heads ==> L.heads[s] >= 1)
  }

  ghost predicate Valid(L: Ledger) {
    RowsValid(L.log) && forall s :: StreamValid(L, s)
  }
}
