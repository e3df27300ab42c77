/** Replaying recorded events into a state, from the start or from a checkpoint. */
module Projections {
  import opened Wrappers
  import opened Sequences
  import opened Values
  import opened Events
  import opened Ledgers
  import opened LedgerReads

  /** A pure fold over recorded events, with the form its state is stored in. */
  datatype Projection<!S> = Projection(
    name: string,
    version: int,
    initial: S,
    apply: (S, Event) -> S,
    dump: S -> Json,
    load: Json -> S)

  /** Loading undoes dumping. */
  ghost predicate Faithful<S(!new)>(p: Projection<S>) {
    forall s :: p.load(p.dump(s)) == s
  }

  /** `scope` is the stream it covers, or none for the whole ledger. The hash is derived from the state. */
  datatype Checkpoint = Checkpoint(
    name: string, version: int, scope: Option<StreamId>, lastPosition: nat, lastSequence: Option<int>, state: Json)
  {
    function Hash(): Text {
      Sha256(state)
    }
  }

  datatype ReplayResult<S> = ReplayResult(
    state: S, stateHash: Text, processed: nat, lastPosition: nat, lastSequence: Option<int>)

  datatype ReplayError = BadVersion | OtherProjection | OtherVersion | Unrecorded | Unordered | OtherStream

  function TakeCheckpoint<S>(p: Projection<S>, r: ReplayResult<S>, scope: Option<StreamId>): Checkpoint {
    Checkpoint(p.name, p.version, scope, r.lastPosition, if scope.Some? then r.lastSequence else None, p.dump(r.state))
  }

  // ------------------------------------------------------------ specification

  function FoldEvents<S>(p: Projection<S>, s: S, es: seq<Event>): S {
    if es == [] then s else p.apply(FoldEvents(p, s, es[..|es| - 1]), es[|es| - 1])
  }

  function TopPosition(es: seq<Event>): nat {
    if es == [] then 0 else Position(es[|es| - 1])
  }

  /** Recorded events in the order of their positions. */
  predicate Recorded(es: seq<Event>) {
    es == [] ||
    (Recorded(es[..|es| - 1])
     && es[|es| - 1].globalPosition.Some? && TopPosition(es) > TopPosition(es[..|es| - 1]))
  }

  function StartPosition(ck: Option<Checkpoint>): nat {
    match ck case None => 0 case Some(c) => c.lastPosition
  }

  function StartSequence(ck: Option<Checkpoint>): Option<int> {
    match ck case None => None case Some(c) => c.lastSequence
  }

  function StartState<S>(p: Projection<S>, ck: Option<Checkpoint>): S {
    match ck case None => p.initial case Some(c) => p.load(c.state)
  }

  /** What the checkpoint has not covered yet. */
  function Remaining(es: seq<Event>, ck: Option<Checkpoint>): seq<Event> {
    After(es, StartPosition(ck))
  }

  predicate InScope(ck: Option<Checkpoint>, es: seq<Event>) {
    ck.Some? && ck.value.scope.Some? ==> forall e :: e in es ==> e.streamId == ck.value.scope.value
  }

  ghost predicate Replayable<S>(p: Projection<S>, es: seq<Event>, ck: Option<Checkpoint>) {
    && p.version >= 1
    && (ck.Some? ==> ck.value.name == p.name && ck.value.version == p.version)
    && Recorded(es)
    && InScope(ck, Remaining(es, ck))
  }

  /** The result of applying `rest` to a state reached at the given position and sequence. */
  function Applied<S>(p: Projection<S>, start: S, rest: seq<Event>, position: nat, sequence: Option<int>)
    : ReplayResult<S> {
    var state := FoldEvents(p, start, rest);
    ReplayResult(state, Sha256(p.dump(state)), |rest|,
                 if rest == [] then position else Position(rest[|rest| - 1]),
                 if rest == [] then sequence else Some(rest[|rest| - 1].streamSequence))
  }

  function Outcome<S>(p: Projection<S>, es: seq<Event>, ck: Option<Checkpoint>): ReplayResult<S> {
    Applied(p, StartState(p, ck), Remaining(es, ck), StartPosition(ck), StartSequence(ck))
  }

  lemma {:induction false} AfterPush(es: seq<Event>, e: Event, position: nat)
    ensures After(es + [e], position)
            == if Position(e) > position then After(es, position) + [e] else After(es, position)
  {
    FrontOfPush(es, e);
  }

  /** One more event in order: skipped when the checkpoint covers it, applied otherwise. */
  lemma {:induction false} OutcomePush<S>(p: Projection<S>, es: seq<Event>, e: Event, ck: Option<Checkpoint>)
    requires Recorded(es + [e])
    ensures var r := Outcome(p, es, ck);
            && r.lastPosition >= StartPosition(ck)
            && (Position(e) > r.lastPosition <==> Position(e) > StartPosition(ck))
            && Remaining(es + [e], ck)
               == (if Position(e) > r.lastPosition then Remaining(es, ck) + [e] else Remaining(es, ck))
            && Outcome(p, es + [e], ck)
               == if Position(e) <= r.lastPosition then r
                  else
                    var state := p.apply(r.state, e);
                    ReplayResult(state, Sha256(p.dump(state)), r.processed + 1, Position(e), Some(e.streamSequence))
  {
    var rest := Remaining(es, ck);
    FrontOfPush(es, e);
    AfterPush(es, e, StartPosition(ck));
    LastRemaining(es, StartPosition(ck));
    FrontOfPush(rest, e);
  }

  /** What remains of ordered events is empty below the cursor and ends with the last event above it. */
  lemma {:induction false} LastRemaining(es: seq<Event>, position: nat)
    requires Recorded(es)
    ensures After(es, position) == [] <==> TopPosition(es) <= position
    ensures After(es, position) != [] ==> After(es, position)[|After(es, position)| - 1] == es[|es| - 1]
  {
    if es != [] {
      LastRemaining(es[..|es| - 1], position);
    }
  }

  lemma {:induction false} RecordedPrefix(es: seq<Event>, k: nat)
    requires k <= |es|
    ensures Recorded(es) ==> Recorded(es[..k])
  {
    if k == |es| {
      assert es[..k] == es;
    } else {
      RecordedPrefix(es[..|es| - 1], k);
      assert es[..|es| - 1][..k] == es[..k];
    }
  }

  /** Event `i` keeps the order of the events before it. */
  predicate InOrderAt(events: seq<Event>, i: nat)
    requires i < |events|
  {
    events[i].globalPosition.Some? && Position(events[i]) > TopPosition(events[..i])
  }

  /** One turn of the loop, on the events as they are indexed there. */
  lemma {:induction false} Turn<S>(p: Projection<S>, events: seq<Event>, i: nat, ck: Option<Checkpoint>)
    requires i < |events| && Recorded(events[..i])
    ensures Recorded(events[..i + 1]) <==> InOrderAt(events, i)
    ensures !InOrderAt(events, i) ==> !Recorded(events)
    ensures TopPosition(events[..i + 1]) == Position(events[i])
    ensures InOrderAt(events, i) ==>
      var r, e := Outcome(p, events[..i], ck), events[i];
      && r.lastPosition >= StartPosition(ck)
      && Remaining(events[..i + 1], ck)
         == (if Position(e) > r.lastPosition then Remaining(events[..i], ck) + [e] else Remaining(events[..i], ck))
      && Outcome(p, events[..i + 1], ck)
         == if Position(e) <= r.lastPosition then r
            else
              var state := p.apply(r.state, e);
              ReplayResult(state, Sha256(p.dump(state)), r.processed + 1, Position(e), Some(e.streamSequence))
  {
    FrontOfPrefix(events, i);
    PrefixPush(events, i);
    RecordedPrefix(events, i + 1);
    if InOrderAt(events, i) {
      OutcomePush(p, events[..i], events[i], ck);
    }
  }

  lemma TopOfPrefix(events: seq<Event>, i: nat)
    requires i < |events|
    ensures TopPosition(events[..i]) == if i == 0 then 0 else Position(events[i - 1])
  {
  }

  lemma OtherStreamRefused(events: seq<Event>, i: nat, ck: Checkpoint)
    requires i < |events| && Position(events[i]) > ck.lastPosition
    requires ck.scope.Some? && events[i].streamId != ck.scope.value
    ensures !InScope(Some(ck), Remaining(events, Some(ck)))
  {
    AfterMembers(events, ck.lastPosition);
    assert events[i] in Remaining(events, Some(ck));
  }

  /** Event `i` is the first a replay refuses, for the reason `error` names. */
  ghost predicate Refuses<S>(p: Projection<S>, es: seq<Event>, ck: Option<Checkpoint>, i: int, error: ReplayError) {
    && 0 <= i < |es| && Replayable(p, es[..i], ck)
    && match error
       case Unrecorded => es[i].globalPosition.None?
       case Unordered => es[i].globalPosition.Some? && Position(es[i]) <= (if i == 0 then 0 else Position(es[i - 1]))
       case OtherStream =>
         && es[i].globalPosition.Some? && Position(es[i]) > (if i == 0 then 0 else Position(es[i - 1]))
         && ck.Some? && ck.value.scope.Some? && Position(es[i]) > ck.value.lastPosition
         && es[i].streamId != ck.value.scope.value
       case _ => false
  }

  /** Why a replay is refused: its version, the checkpoint's name or version, or the first event that does not fit. */
  ghost predicate Blames<S>(p: Projection<S>, es: seq<Event>, ck: Option<Checkpoint>, error: ReplayError) {
    if p.version < 1 then error == BadVersion
    else if ck.Some? && ck.value.name != p.name then error == OtherProjection
    else if ck.Some? && ck.value.version != p.version then error == OtherVersion
    else exists i :: Refuses(p, es, ck, i, error)
  }

  lemma Refused<S>(p: Projection<S>, es: seq<Event>, ck: Option<Checkpoint>, i: nat, error: ReplayError)
    requires i < |es| && Refuses(p, es, ck, i, error)
    ensures Blames(p, es, ck, error)
  {
  }

  /** The replay loop: it succeeds exactly on replayable input, with the declared outcome. */
  method Replay<S>(p: Projection<S>, events: seq<Event>, ck: Option<Checkpoint>)
    returns (r: Result<ReplayResult<S>, ReplayError>)
    ensures r.Ok? <==> Replayable(p, events, ck)
    ensures r.Ok? ==> r.value == Outcome(p, events, ck)
    ensures r.Err? ==> Blames(p, events, ck, r.error)
  {
    if p.version < 1 {
      return Err(BadVersion);
    }
    if ck.Some? && ck.value.name != p.name {
      return Err(OtherProjection);
    }
    if ck.Some? && ck.value.version != p.version {
      return Err(OtherVersion);
    }
    var state, lastPosition, lastSequence := StartState(p, ck), StartPosition(ck), StartSequence(ck);
    var processed, previousInput: nat := 0, 0;
    for i := 0 to |events|
      invariant Recorded(events[..i]) && previousInput == TopPosition(events[..i])
      invariant InScope(ck, Remaining(events[..i], ck))
      invariant ReplayResult(state, Sha256(p.dump(state)), processed, lastPosition, lastSequence)
                == Outcome(p, events[..i], ck)
    {
      var event := events[i];
      Turn(p, events, i, ck);
      TopOfPrefix(events, i);
      if event.globalPosition.None? {
        Refused(p, events, ck, i, Unrecorded);
        return Err(Unrecorded);
      }
      if event.globalPosition.value <= previousInput {
        Refused(p, events, ck, i, Unordered);
        return Err(Unordered);
      }
      previousInput := event.globalPosition.value;
      if previousInput <= lastPosition {
        continue;
      }
      if ck.Some? && ck.value.scope.Some? && event.streamId != ck.value.scope.value {
        OtherStreamRefused(events, i, ck.value);
        Refused(p, events, ck, i, OtherStream);
        return Err(OtherStream);
      }
      state := p.apply(state, event);
      lastPosition, lastSequence := previousInput, Some(event.streamSequence);
      processed := processed + 1;
    }
    WholePrefix(events);
    return Ok(ReplayResult(state, Sha256(p.dump(state)), processed, lastPosition, lastSequence));
  }

  lemma {:induction false} AfterMembers(es: seq<Event>, position: nat)
    ensures forall e :: e in After(es, position) <==> e in es && Position(e) > position
  {
    if es != [] {
      AfterMembers(es[..|es| - 1], position);
      SplitLast(es);
    }
  }

  /** The events a rebuild reads: the scope's rows the checkpoint's cursor has not passed. */
  function RowsToReplay(log: seq<Event>, scope: Option<StreamId>, ck: Option<Checkpoint>): seq<Event> {
    match scope
    case None => ReadAll(log, StartPosition(ck), None)
    case Some(s) =>
      var from := StartSequence(ck);
      ReadStream(log, s, if from.Some? && from.value >= 0 then from.value else 0, None, None).value
  }

  method Rebuild<S>(log: seq<Event>, p: Projection<S>, scope: Option<StreamId>, ck: Option<Checkpoint>)
    returns (r: Result<ReplayResult<S>, ReplayError>)
    ensures r.Ok? <==> Replayable(p, RowsToReplay(log, scope, ck), ck)
    ensures r.Ok? ==> r.value == Outcome(p, RowsToReplay(log, scope, ck), ck)
    ensures r.Err? ==> Blames(p, RowsToReplay(log, scope, ck), ck, r.error)
  {
    r := Replay(p, RowsToReplay(log, scope, ck), ck);
  }
}
