/** A checkpoint is a shortcut: replaying from it gives what replaying everything gives. */
module ProjectionLaws {
  import opened Wrappers
  import opened Sequences
  import opened Values
  import opened Events
  import opened Ledgers
  import opened LedgerLaws
  import opened LedgerReads
  import opened Projections

  /** The rows a scope covers. */
  function Covered(log: seq<Event>, scope: Option<StreamId>): seq<Event> {
    match scope case None => log case Some(s) => OnStream(log, s)
  }

  // ---------------------------------------------------------------- ordering

  lemma {:induction false} LogRecorded(log: seq<Event>)
    requires PositionsIncrease(log)
    ensures Recorded(log)
  {
    if log != [] {
      var prior := log[..|log| - 1];
      LogRecorded(prior);
      if prior != [] {
        assert prior[|prior| - 1] == log[|log| - 2];
      }
    }
  }

  lemma {:induction false} StreamRecorded(log: seq<Event>, s: StreamId)
    requires Recorded(log)
    ensures Recorded(OnStream(log, s)) && TopPosition(OnStream(log, s)) <= TopPosition(log)
  {
    if log != [] {
      var prior, mine := log[..|log| - 1], OnStream(log, s);
      StreamRecorded(prior, s);
      if log[|log| - 1].streamId == s {
        assert mine == OnStream(prior, s) + [log[|log| - 1]];
        assert mine[..|mine| - 1] == OnStream(prior, s);
      }
    }
  }

  lemma CoveredRecorded(L: Ledger, scope: Option<StreamId>)
    requires Valid(L)
    ensures Recorded(Covered(L.log, scope))
  {
    LogRecorded(L.log);
    if scope.Some? {
      StreamRecorded(L.log, scope.value);
    }
  }

  lemma {:induction false} AfterZero(es: seq<Event>)
    requires Recorded(es)
    ensures After(es, 0) == es
  {
    if es != [] {
      AfterZero(es[..|es| - 1]);
    }
  }

  /** Past the cursor a prefix leaves, exactly the rest remains. */
  lemma {:induction false} AfterTop(es: seq<Event>, n: nat)
    requires Recorded(es) && n <= |es|
    ensures After(es, TopPosition(es[..n])) == es[n..]
  {
    if n == |es| {
      assert es[..n] == es && es[n..] == [];
      LastRemaining(es, TopPosition(es));
    } else {
      var prior, last := es[..|es| - 1], es[|es| - 1];
      AfterTop(prior, n);
      FrontSplits(es, n);
      TopGrows(prior, n);
    }
  }

  lemma {:induction false} AfterAgain(es: seq<Event>, position: nat)
    ensures After(After(es, position), position) == After(es, position)
  {
    if es != [] {
      var prior, last := es[..|es| - 1], es[|es| - 1];
      AfterAgain(prior, position);
      AfterPush(After(prior, position), last, position);
    }
  }

  lemma {:induction false} TopGrows(es: seq<Event>, n: nat)
    requires Recorded(es) && n <= |es|
    ensures TopPosition(es[..n]) <= TopPosition(es)
  {
    if n == |es| {
      assert es[..n] == es;
    } else {
      TopGrows(es[..|es| - 1], n);
      assert es[..|es| - 1][..n] == es[..n];
    }
  }

  lemma {:induction false} FoldConcat<S>(p: Projection<S>, s: S, a: seq<Event>, b: seq<Event>)
    ensures FoldEvents(p, s, a + b) == FoldEvents(p, FoldEvents(p, s, a), b)
  {
    if b == [] {
      assert a + b == a;
    } else {
      assert (a + b)[..|a + b| - 1] == a + b[..|b| - 1];
      FoldConcat(p, s, a, b[..|b| - 1]);
    }
  }

  // ------------------------------------------------------------- checkpoints

  /** The result of replaying everything a scope holds. */
  function Whole<S>(p: Projection<S>, log: seq<Event>, scope: Option<StreamId>): ReplayResult<S> {
    Outcome(p, RowsToReplay(log, scope, None), None)
  }

  lemma SourceWhole<S>(p: Projection<S>, L: Ledger, scope: Option<StreamId>)
    requires Valid(L)
    ensures RowsToReplay(L.log, scope, None) == Covered(L.log, scope)
    ensures Remaining(Covered(L.log, scope), None) == Covered(L.log, scope)
    ensures p.version >= 1 ==> Replayable(p, RowsToReplay(L.log, scope, None), None)
  {
    CoveredRecorded(L, scope);
    AfterZero(Covered(L.log, scope));
    if scope.Some? {
      assert StreamValid(L, scope.value);
      AfterSequenceIsSuffix(OnStream(L.log, scope.value), 0);
    }
  }

  lemma CoveredGrows(L: Ledger, M: Ledger, scope: Option<StreamId>)
    requires Extends(L, M)
    ensures Covered(L.log, scope) <= Covered(M.log, scope)
  {
    assert M.log == L.log + M.log[|L.log|..];
    if scope.Some? {
      OnStreamConcat(L.log, M.log[|L.log|..], scope.value);
    }
  }

  function LastSequence(es: seq<Event>): Option<int> {
    if es == [] then None else Some(es[|es| - 1].streamSequence)
  }

  /** A replay from zero applies everything its scope covers. */
  lemma WholeIs<S>(p: Projection<S>, L: Ledger, scope: Option<StreamId>)
    requires Valid(L)
    ensures Whole(p, L.log, scope) == Applied(p, p.initial, Covered(L.log, scope), 0, None)
    ensures p.version >= 1 ==> Replayable(p, RowsToReplay(L.log, scope, None), None)
  {
    SourceWhole(p, L, scope);
  }

  /** Where the checkpoint of a whole replay stands. */
  lemma {:induction false} StandsAt<S>(p: Projection<S>, L: Ledger, scope: Option<StreamId>)
    requires Valid(L)
    ensures var ck := TakeCheckpoint(p, Whole(p, L.log, scope), scope);
            var before := Covered(L.log, scope);
            && ck.lastPosition == TopPosition(before) && ck.state == p.dump(FoldEvents(p, p.initial, before))
            && ck.lastSequence == (if scope.Some? then LastSequence(before) else None)
            && ck.name == p.name && ck.version == p.version && ck.scope == scope
  {
    WholeIs(p, L, scope);
  }

  /** The rows read from a checkpoint that stands after the first `n` covered rows are the others. */
  lemma RowsAfter(M: Ledger, scope: Option<StreamId>, n: nat, ck: Checkpoint)
    requires Valid(M) && n <= |Covered(M.log, scope)|
    requires ck.lastPosition == TopPosition(Covered(M.log, scope)[..n])
    requires ck.lastSequence == (if scope.Some? then LastSequence(Covered(M.log, scope)[..n]) else None)
    ensures RowsToReplay(M.log, scope, Some(ck)) == Covered(M.log, scope)[n..]
    ensures Remaining(Covered(M.log, scope)[n..], Some(ck)) == Covered(M.log, scope)[n..]
  {
    var rows := Covered(M.log, scope);
    CoveredRecorded(M, scope);
    AfterTop(rows, n);
    AfterAgain(rows, ck.lastPosition);
    if scope.Some? {
      StreamRowsAfter(M, scope.value, n, ck);
    }
  }

  lemma {:induction false} StreamRowsAfter(M: Ledger, s: StreamId, n: nat, ck: Checkpoint)
    requires Valid(M) && n <= |OnStream(M.log, s)|
    requires ck.lastSequence == LastSequence(OnStream(M.log, s)[..n])
    ensures RowsToReplay(M.log, Some(s), Some(ck)) == OnStream(M.log, s)[n..]
  {
    assert StreamValid(M, s);
    AfterSequenceIsSuffix(OnStream(M.log, s), n);
  }

  /** From a checkpoint of an earlier ledger, a rebuild applies exactly the rows added since. */
  lemma {:induction false} RestIs<S>(p: Projection<S>, L: Ledger, M: Ledger, scope: Option<StreamId>, ck: Checkpoint)
    requires Valid(L) && Valid(M) && Extends(L, M) && p.version >= 1
    requires ck == TakeCheckpoint(p, Whole(p, L.log, scope), scope)
    ensures Covered(L.log, scope) <= Covered(M.log, scope)
    ensures Outcome(p, RowsToReplay(M.log, scope, Some(ck)), Some(ck))
            == Applied(p, p.load(p.dump(FoldEvents(p, p.initial, Covered(L.log, scope)))),
                       Covered(M.log, scope)[|Covered(L.log, scope)|..], TopPosition(Covered(L.log, scope)),
                       ck.lastSequence)
    ensures Replayable(p, RowsToReplay(M.log, scope, Some(ck)), Some(ck))
  {
    var n := |Covered(L.log, scope)|;
    StandsAt(p, L, scope);
    CoveredGrows(L, M, scope);
    assert Covered(M.log, scope)[..n] == Covered(L.log, scope);
    RowsAfter(M, scope, n, ck);
    RestRecorded(M, scope, n);
  }

  /** `rest`, continuing `start`, ends where `whole` ends. */
  ghost predicate Continues<S(!new)>(p: Projection<S>, start: ReplayResult<S>, rest: ReplayResult<S>,
                                     whole: ReplayResult<S>,
                               scope: Option<StreamId>)
  {
    && rest.state == whole.state && rest.stateHash == whole.stateHash
    && rest.lastPosition == whole.lastPosition
    && start.processed + rest.processed == whole.processed
    && (scope.Some? ==> rest.lastSequence == whole.lastSequence)
    && TakeCheckpoint(p, rest, scope) == TakeCheckpoint(p, whole, scope)
  }

  /**
   Rebuilding from a checkpoint of any earlier ledger agrees with rebuilding from
   the start: the same state, hash and last position, the counts add up, and in a
   stream scope the same last sequence. The next checkpoint is the same too, so a
   chain of checkpoints is as good as one.
   */
  lemma CheckpointAgrees<S(!new)>(p: Projection<S>, L: Ledger, M: Ledger, scope: Option<StreamId>)
    requires Valid(L) && Valid(M) && Extends(L, M) && Faithful(p) && p.version >= 1
    ensures var ck := TakeCheckpoint(p, Whole(p, L.log, scope), scope);
            && Replayable(p, RowsToReplay(M.log, scope, Some(ck)), Some(ck))
            && Replayable(p, RowsToReplay(M.log, scope, None), None)
            && Continues(p, Whole(p, L.log, scope), Outcome(p, RowsToReplay(M.log, scope, Some(ck)), Some(ck)),
                         Whole(p, M.log, scope), scope)
  {
    var ck := TakeCheckpoint(p, Whole(p, L.log, scope), scope);
    StandsAt(p, L, scope);
    WholeIs(p, L, scope);
    WholeIs(p, M, scope);
    RestIs(p, L, M, scope, ck);
    ResumeAgrees(p, Covered(L.log, scope), Covered(M.log, scope), ck.lastSequence, scope);
  }

  /** Applying the rows after `a` to the state stored after `a` ends where applying them all from the start ends. */
  lemma {:induction false} ResumeAgrees<S(!new)>(p: Projection<S>, a: seq<Event>, all: seq<Event>,
                                                 sequence: Option<int>, scope: Option<StreamId>)
    requires Faithful(p) && a <= all
    requires scope.Some? ==> sequence == LastSequence(a)
    ensures Continues(p, Applied(p, p.initial, a, 0, None),
                      Applied(p, p.load(p.dump(FoldEvents(p, p.initial, a))), all[|a|..], TopPosition(a), sequence),
                      Applied(p, p.initial, all, 0, None), scope)
  {
    FoldConcat(p, p.initial, a, all[|a|..]);
    assert all == a + all[|a|..];
    assert p.load(p.dump(FoldEvents(p, p.initial, a))) == FoldEvents(p, p.initial, a);
  }

  lemma RestRecorded(M: Ledger, scope: Option<StreamId>, n: nat)
    requires Valid(M) && n <= |Covered(M.log, scope)|
    ensures Recorded(Covered(M.log, scope)[n..])
    ensures scope.Some? ==> forall e :: e in Covered(M.log, scope)[n..] ==> e.streamId == scope.value
  {
    CoveredRecorded(M, scope);
    SuffixRecorded(Covered(M.log, scope), n);
    if scope.Some? {
      OnStreamMembers(M.log, scope.value);
    }
  }

  lemma {:induction false} SuffixRecorded(es: seq<Event>, n: nat)
    requires Recorded(es) && n <= |es|
    ensures Recorded(es[n..])
  {
    if n < |es| {
      SuffixRecorded(es[..|es| - 1], n);
      assert es[n..][..|es[n..]| - 1] == es[..|es| - 1][n..];
    }
  }

  /**
   In the global scope the last sequence is not kept: it agrees with a full replay
   exactly when something was appended since the checkpoint, or nothing ever was.
   */
  lemma GlobalSequenceAgreesExactly<S(!new)>(p: Projection<S>, L: Ledger, M: Ledger)
    requires Valid(L) && Valid(M) && Extends(L, M) && Faithful(p) && p.version >= 1
    ensures var ck := TakeCheckpoint(p, Whole(p, L.log, None), None);
            Outcome(p, RowsToReplay(M.log, None, Some(ck)), Some(ck)).lastSequence == Whole(p, M.log, None).lastSequence
            <==> |L.log| < |M.log| || M.log == []
  {
    var ck := TakeCheckpoint(p, Whole(p, L.log, None), None);
    StandsAt(p, L, None);
    WholeIs(p, M, None);
    RestIs(p, L, M, None, ck);
  }

  /** A projection that keeps what it started with. */
  const IDLE: Projection<Json> := Projection("idle", 1, Null, (s: Json, e: Event) => s, (s: Json) => s, (j: Json) => j)

  const NOTED := Event(Raw("one"), NamedStream(Raw("s")), 1, OtherType(Raw("noted")), 1, 0, 0, Raw("c"), None, Raw("a"),
                       RuntimeSource, Null, None, None)

  /**
   * With one event and nothing after the checkpoint, the last sequence is lost: it is one from
   * the start and none on resuming.
   */
  lemma GlobalSequenceIsLost() returns (L: Ledger)
    ensures Valid(L) && Faithful(IDLE) && |L.log| == 1
    ensures var ck := TakeCheckpoint(IDLE, Whole(IDLE, L.log, None), None);
            Outcome(IDLE, RowsToReplay(L.log, None, Some(ck)), Some(ck)).lastSequence == None
            && Whole(IDLE, L.log, None).lastSequence == Some(1)
  {
    EmptyValid();
    AppendOne(EMPTY, NOTED, 0);
    AppendKeepsValid(EMPTY, [NOTED], map[NOTED.streamId := 0]);
    L := AppendMany(EMPTY, [NOTED], map[NOTED.streamId := 0]).value.ledger;
    StandsAt(IDLE, L, None);
    WholeIs(IDLE, L, None);
    RestIs(IDLE, L, L, None, TakeCheckpoint(IDLE, Whole(IDLE, L.log, None), None));
  }
}
