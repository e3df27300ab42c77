/** What a replay does, event by event, and what it refuses. */
module ReplayMeaning {
  import opened Wrappers
  import opened Sequences
  import opened Values
  import opened Events
  import opened LedgerReads
  import opened Projections

  /** Every event was recorded, each after the one before it and none at position zero. */
  ghost predicate InOrder(es: seq<Event>) {
    forall i :: 0 <= i < |es| ==> Follows(es, i)
  }

  predicate Follows(es: seq<Event>, i: nat)
    requires i < |es|
  {
    && es[i].globalPosition.Some? && es[i].globalPosition.value >= 1
    && (i > 0 ==> es[i - 1].globalPosition.Some? && es[i - 1].globalPosition.value < es[i].globalPosition.value)
  }

  /** The checkpoint's cursor; a replay from the start has none. */
  function CursorOf(ck: Option<Checkpoint>): nat {
    if ck.Some? then ck.value.lastPosition else 0
  }

  /** The first `k` events are covered by the cursor and the others are not. */
  ghost predicate SplitsAt(es: seq<Event>, cursor: nat, k: nat) {
    && k <= |es| && (forall i :: 0 <= i < k ==> Position(es[i]) <= cursor)
    && (forall i :: k <= i < |es| ==> Position(es[i]) > cursor)
  }

  ghost predicate OnStreamFrom(es: seq<Event>, k: nat, s: StreamId) {
    forall i :: k <= i < |es| ==> es[i].streamId == s
  }

  /** `states` are the states passed through, from the initial or the checkpoint's state, one event at a time. */
  ghost predicate Passes<S>(p: Projection<S>, ck: Option<Checkpoint>, es: seq<Event>, k: nat, states: seq<S>)
    requires k <= |es|
  {
    && |states| == |es| - k + 1
    && states[0] == (if ck.Some? then p.load(ck.value.state) else p.initial)
    && forall i :: 0 <= i < |es| - k ==> states[i + 1] == p.apply(states[i], es[k + i])
  }

  lemma {:induction false} RecordedExactly(es: seq<Event>)
    ensures Recorded(es) <==> InOrder(es)
  {
    if es != [] {
      var front := es[..|es| - 1];
      RecordedExactly(front);
      assert forall i :: 0 <= i < |front| ==> Follows(es, i) == Follows(front, i);
      assert InOrder(es) <==> InOrder(front) && Follows(es, |front|);
    }
  }

  lemma {:induction false} InOrderPairs(es: seq<Event>, i: nat, j: nat)
    requires InOrder(es) && i < j < |es|
    ensures Position(es[i]) < Position(es[j])
    decreases j
  {
    assert Follows(es, j) && Follows(es, j - 1);
    if i < j - 1 {
      InOrderPairs(es, i, j - 1);
    }
  }

  lemma SomeAbove(es: seq<Event>, cursor: nat, k: nat)
    requires SplitsAt(es, cursor, k) && k < |es|
    ensures exists i :: 0 <= i < |es| && Position(es[i]) > cursor
  {
    assert Position(es[k]) > cursor;
  }

  /** Events in order split at a cursor, and what remains after it is the second part. */
  lemma {:induction false} Splits(es: seq<Event>, cursor: nat) returns (k: nat)
    requires InOrder(es)
    ensures SplitsAt(es, cursor, k) && After(es, cursor) == es[k..]
  {
    if es == [] {
      k := 0;
    } else {
      var front, last := es[..|es| - 1], es[|es| - 1];
      forall i | 0 <= i < |front| ensures Follows(front, i) {
        assert Follows(es, i);
      }
      k := Splits(front, cursor);
      if Position(last) <= cursor {
        forall i | 0 <= i < |front| ensures Position(front[i]) <= cursor {
          InOrderPairs(es, i, |front|);
        }
        if k < |front| {
          SomeAbove(front, cursor, k);
          assert false;
        }
        k := |es|;
      } else {
        assert es[k..] == front[k..] + [last];
      }
    }
  }

  /** Exactly what a replay accepts. */
  lemma ReplayableExactly<S>(p: Projection<S>, es: seq<Event>, ck: Option<Checkpoint>)
    ensures Replayable(p, es, ck)
            <==> && p.version >= 1
                 && (ck.Some? ==> ck.value.name == p.name && ck.value.version == p.version)
                 && InOrder(es)
                 && (ck.Some? && ck.value.scope.Some? ==>
                       forall i :: 0 <= i < |es| && Position(es[i]) > ck.value.lastPosition ==>
                         es[i].streamId == ck.value.scope.value)
  {
    RecordedExactly(es);
    AfterMembers(es, CursorOf(ck));
  }

  lemma {:induction false} FoldPasses<S>(p: Projection<S>, start: S, es: seq<Event>) returns (states: seq<S>)
    ensures |states| == |es| + 1 && states[0] == start && states[|es|] == FoldEvents(p, start, es)
    ensures forall i :: 0 <= i < |es| ==> states[i + 1] == p.apply(states[i], es[i])
  {
    if es == [] {
      states := [start];
    } else {
      var before := FoldPasses(p, start, es[..|es| - 1]);
      states := before + [FoldEvents(p, start, es)];
    }
  }

  /**
   What an accepted replay returns: it passes over the events the cursor covers and applies
   every other one, in order, to the state it starts from; it counts them, and ends at the
   last one's position and sequence, or where it started when there is none.
   */
  lemma OutcomeExactly<S>(p: Projection<S>, es: seq<Event>, ck: Option<Checkpoint>)
    returns (k: nat, states: seq<S>)
    requires Replayable(p, es, ck)
    ensures SplitsAt(es, CursorOf(ck), k) && Passes(p, ck, es, k, states)
    ensures var r := Outcome(p, es, ck);
            && r.state == states[|es| - k] && r.stateHash == Sha256(p.dump(r.state)) && r.processed == |es| - k
            && (k < |es| ==> && r.lastPosition == Position(es[|es| - 1])
                             && r.lastSequence == Some(es[|es| - 1].streamSequence))
            && (k == |es| ==> && r.lastPosition == CursorOf(ck)
                              && r.lastSequence == (if ck.Some? then ck.value.lastSequence else None))
  {
    RecordedExactly(es);
    k := Splits(es, CursorOf(ck));
    states := FoldPasses(p, StartState(p, ck), es[k..]);
  }
}
