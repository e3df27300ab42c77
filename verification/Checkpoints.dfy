/** The checkpoint table, and why a genuine checkpoint is never refused as divergent. */
module Checkpoints {
  import opened Wrappers
  import opened Values
  import opened Events
  import opened Ledgers
  import opened LedgerLaws
  import opened LedgerReads
  import opened Projections
  import opened ProjectionLaws

  datatype Key = Key(name: string, version: int, scope: Option<StreamId>)

  datatype SaveError = ReservedScope | ExpectedOther | WouldRegress | Divergent

  function KeyOf(ck: Checkpoint): Key {
    Key(ck.name, ck.version, ck.scope)
  }

  /** The name `*` stands for the whole ledger in the table. */
  predicate Reserved(scope: Option<StreamId>) {
    scope == Some(NamedStream(Raw("*")))
  }

  function Current(rows: map<Key, Checkpoint>, key: Key): nat {
    if key in rows then rows[key].lastPosition else 0
  }

  /** Every row stands under its own name, version and scope. */
  ghost predicate Keyed(rows: map<Key, Checkpoint>) {
    forall key :: key in rows ==> KeyOf(rows[key]) == key
  }

  /** The checks of a save, in terms of what the table holds. */
  predicate Saveable(rows: map<Key, Checkpoint>, ck: Checkpoint, expected: Option<int>) {
    && !Reserved(ck.scope)
    && (expected.Some? ==> expected.value == Current(rows, KeyOf(ck)))
    && Current(rows, KeyOf(ck)) <= ck.lastPosition
    && (KeyOf(ck) in rows && rows[KeyOf(ck)].lastPosition == ck.lastPosition ==> rows[KeyOf(ck)] == ck)
  }

  /** The table after a save. */
  function Saved(rows: map<Key, Checkpoint>, ck: Checkpoint, expected: Option<int>): map<Key, Checkpoint> {
    if Saveable(rows, ck, expected) then rows[KeyOf(ck) := ck] else rows
  }

  class CheckpointStore {
    var rows: map<Key, Checkpoint>

    constructor ()
      ensures rows == map[]
    {
      rows := map[];
    }

    /** The one checkpoint kept for that name, version and scope. */
    method Load(name: string, version: int, scope: Option<StreamId>) returns (r: Option<Checkpoint>)
      requires Keyed(rows)
      ensures r.Some? ==> r.value in rows.Values
                          && r.value.name == name && r.value.version == version && r.value.scope == scope
      ensures r.None? ==> forall ck :: ck in rows.Values ==>
        !(ck.name == name && ck.version == version && ck.scope == scope)
    {
      var key := Key(name, version, scope);
      r := if key in rows then Some(rows[key]) else None;
      assert forall ck :: ck in rows.Values ==> exists k :: k in rows && rows[k] == ck && KeyOf(ck) == k;
    }

    /**
     Compare and upsert. A row moves forward or stays; a second checkpoint at the
     same position must be the same one.
     */
    method Save(ck: Checkpoint, expected: Option<int>) returns (r: Result<Checkpoint, SaveError>)
      requires Keyed(rows)
      modifies this
      ensures Keyed(rows)
      ensures r.Ok? <==> Saveable(old(rows), ck, expected)
      ensures r.Ok? ==> r.value == ck && rows == old(rows)[KeyOf(ck) := ck]
      ensures rows == Saved(old(rows), ck, expected)
      ensures r.Err? ==> rows == old(rows)
      ensures r == Err(Divergent) <==>
                !Reserved(ck.scope) && (expected.Some? ==> expected.value == Current(old(rows), KeyOf(ck)))
                && KeyOf(ck) in old(rows) && old(rows)[KeyOf(ck)].lastPosition == ck.lastPosition
                && old(rows)[KeyOf(ck)] != ck
      ensures match r
              case Ok(_) => true
              case Err(ReservedScope) => Reserved(ck.scope)
              case Err(ExpectedOther) => expected.Some? && expected.value != Current(old(rows), KeyOf(ck))
              case Err(WouldRegress) => ck.lastPosition < Current(old(rows), KeyOf(ck))
              case Err(Divergent) => KeyOf(ck) in old(rows)
    {
      if Reserved(ck.scope) {
        return Err(ReservedScope);
      }
      var key := KeyOf(ck);
      var current := Current(rows, key);
      if expected.Some? && expected.value != current {
        return Err(ExpectedOther);
      }
      if ck.lastPosition < current {
        return Err(WouldRegress);
      }
      if key in rows && ck.lastPosition == current {
        var row := rows[key];
        if row.Hash() == ck.Hash() && row.lastSequence == ck.lastSequence {
          assert row == ck && rows == rows[key := ck];
          return Ok(row);
        }
        return Err(Divergent);
      }
      rows := rows[key := ck];
      return Ok(ck);
    }
  }

  /** The row of the checkpoint's own name, version and scope. */
  predicate Rival(row: Checkpoint, ck: Checkpoint) {
    row.name == ck.name && row.version == ck.version && row.scope == ck.scope
  }

  /** Exactly what a save needs, in terms of the stored row of the same name, version and scope. */
  lemma SaveableExactly(rows: map<Key, Checkpoint>, ck: Checkpoint, expected: Option<int>)
    requires Keyed(rows)
    ensures Saveable(rows, ck, expected)
            <==> && ck.scope != Some(NamedStream(Raw("*")))
                 && (forall row :: row in rows.Values && Rival(row, ck) ==>
                       && row.lastPosition <= ck.lastPosition && (row.lastPosition == ck.lastPosition ==> row == ck)
                       && (expected.Some? ==> expected.value == row.lastPosition))
                 && ((forall row :: row in rows.Values ==> !Rival(row, ck)) && expected.Some? ==> expected.value == 0)
  {
    var key := KeyOf(ck);
    forall row | row in rows.Values && Rival(row, ck) ensures key in rows && rows[key] == row {
      var k :| k in rows && rows[k] == row;
      assert KeyOf(row) == k;
    }
    if key in rows {
      assert rows[key] in rows.Values && Rival(rows[key], ck);
    }
  }

  // ---------------------------------------------------------------- genuine

  /** Taken by replaying some state the ledger has been in. */
  ghost predicate Genuine<S(!new)>(p: Projection<S>, L: Ledger, ck: Checkpoint) {
    exists M :: Valid(M) && Extends(M, L) && ck == TakeCheckpoint(p, Whole(p, M.log, ck.scope), ck.scope)
  }

  /** Genuine checkpoints of one scope at one position are the same checkpoint. */
  lemma GenuineAgree<S(!new)>(p: Projection<S>, L: Ledger, a: Checkpoint, b: Checkpoint)
    requires Genuine(p, L, a) && Genuine(p, L, b) && a.scope == b.scope && a.lastPosition == b.lastPosition
    ensures a == b
  {
    var M :| Valid(M) && Extends(M, L) && a == TakeCheckpoint(p, Whole(p, M.log, a.scope), a.scope);
    var N :| Valid(N) && Extends(N, L) && b == TakeCheckpoint(p, Whole(p, N.log, b.scope), b.scope);
    if |M.log| <= |N.log| {
      SamePositionSameRows(p, M, N, a.scope);
    } else {
      SamePositionSameRows(p, N, M, a.scope);
    }
  }

  lemma SamePositionSameRows<S>(p: Projection<S>, M: Ledger, N: Ledger, scope: Option<StreamId>)
    requires Valid(M) && Valid(N) && Extends(M, N)
    requires Whole(p, M.log, scope).lastPosition == Whole(p, N.log, scope).lastPosition
    ensures Whole(p, M.log, scope) == Whole(p, N.log, scope)
  {
    SourceWhole(p, M, scope);
    SourceWhole(p, N, scope);
    CoveredGrows(M, N, scope);
    CoveredRecorded(N, scope);
    SameTopSameRows(Covered(M.log, scope), Covered(N.log, scope));
  }

  /** In the order of positions, a prefix that reaches the last position is everything. */
  lemma {:induction false} SameTopSameRows(before: seq<Event>, after: seq<Event>)
    requires Recorded(after) && before <= after && TopPosition(before) == TopPosition(after)
    ensures before == after
  {
    assert after[..|before|] == before;
    AfterTop(after, |before|);
    LastRemaining(after, TopPosition(before));
    assert after == before + after[|before|..];
  }

  /** The rows kept for one projection all came from replays of this ledger's past. */
  ghost predicate RowsGenuine<S(!new)>(p: Projection<S>, L: Ledger, rows: map<Key, Checkpoint>) {
    forall key :: key in rows && key.name == p.name && key.version == p.version ==>
      KeyOf(rows[key]) == key && Genuine(p, L, rows[key])
  }

  /** Genuine checkpoints never diverge: a row at the same position already holds the same checkpoint. */
  lemma GenuineNeverDiverges<S(!new)>(p: Projection<S>, L: Ledger, rows: map<Key, Checkpoint>, ck: Checkpoint)
    requires RowsGenuine(p, L, rows) && Genuine(p, L, ck) && ck.name == p.name && ck.version == p.version
    requires KeyOf(ck) in rows && rows[KeyOf(ck)].lastPosition == ck.lastPosition
    ensures rows[KeyOf(ck)] == ck
  {
    GenuineAgree(p, L, rows[KeyOf(ck)], ck);
  }

  /** Checkpoints stay genuine while the ledger grows. */
  lemma GenuineGrows<S(!new)>(p: Projection<S>, L: Ledger, M: Ledger, rows: map<Key, Checkpoint>)
    requires RowsGenuine(p, L, rows) && Extends(L, M)
    ensures RowsGenuine(p, M, rows)
  {
    forall key | key in rows && key.name == p.name && key.version == p.version ensures Genuine(p, M, rows[key]) {
      var ck := rows[key];
      assert Genuine(p, L, ck);
      var N :| Valid(N) && Extends(N, L) && ck == TakeCheckpoint(p, Whole(p, N.log, ck.scope), ck.scope);
      assert Extends(N, M);
    }
  }

  /** One save: the ledger as it is then, the checkpoint, and the position the caller expects. */
  datatype Saving = Saving(ledger: Ledger, ck: Checkpoint, expected: Option<int>)

  function SavedAll(saves: seq<Saving>): map<Key, Checkpoint> {
    if saves == [] then map[]
    else Saved(SavedAll(saves[..|saves| - 1]), saves[|saves| - 1].ck, saves[|saves| - 1].expected)
  }

  /** The saves happen on one growing ledger, and those made for `p` save genuine checkpoints of it. */
  ghost predicate GenuineSaves<S(!new)>(p: Projection<S>, saves: seq<Saving>) {
    && (forall i, j :: 0 <= i < j < |saves| ==> Extends(saves[i].ledger, saves[j].ledger))
    && forall i :: 0 <= i < |saves| && saves[i].ck.name == p.name && saves[i].ck.version == p.version ==>
         Genuine(p, saves[i].ledger, saves[i].ck)
  }

  /** After any saves of any projections, the rows of `p` are all genuine. */
  lemma {:induction false} SavesStayGenuine<S(!new)>(p: Projection<S>, saves: seq<Saving>, L: Ledger)
    requires GenuineSaves(p, saves)
    requires saves != [] ==> Extends(saves[|saves| - 1].ledger, L)
    ensures RowsGenuine(p, L, SavedAll(saves)) && Keyed(SavedAll(saves))
  {
    if saves != [] {
      var before, save := saves[..|saves| - 1], saves[|saves| - 1];
      SavesStayGenuine(p, before, save.ledger);
      GenuineGrows(p, save.ledger, L, SavedAll(before));
      GenuineGrows(p, save.ledger, L, map[KeyOf(save.ck) := save.ck]);
    }
  }

  /**
   A genuine checkpoint, saved after any such saves, is refused only for a reserved
   scope or for being late; never as divergent.
   */
  lemma {:induction false} GenuineSaveable<S(!new)>(p: Projection<S>, saves: seq<Saving>, save: Saving)
    requires GenuineSaves(p, saves + [save]) && save.ck.name == p.name && save.ck.version == p.version
    ensures var rows := SavedAll(saves);
            Saveable(rows, save.ck, save.expected)
            <==> !Reserved(save.ck.scope)
                 && (save.expected.Some? ==> save.expected.value == Current(rows, KeyOf(save.ck)))
                 && Current(rows, KeyOf(save.ck)) <= save.ck.lastPosition
  {
    var all, rows := saves + [save], SavedAll(saves);
    assert all[|saves|] == save;
    assert GenuineSaves(p, saves) by {
      assert forall i :: 0 <= i < |saves| ==> all[i] == saves[i];
    }
    if saves != [] {
      assert all[|saves| - 1] == saves[|saves| - 1];
      assert Extends(all[|saves| - 1].ledger, all[|saves|].ledger);
    }
    SavesStayGenuine(p, saves, save.ledger);
    if KeyOf(save.ck) in rows && rows[KeyOf(save.ck)].lastPosition == save.ck.lastPosition {
      GenuineNeverDiverges(p, save.ledger, rows, save.ck);
    }
  }

  /** Whatever genuine checkpoint is loaded, rebuilding from it ends where rebuilding from the start ends. */
  lemma LoadedCheckpointAgrees<S(!new)>(p: Projection<S>, L: Ledger, ck: Checkpoint)
    requires Valid(L) && Faithful(p) && p.version >= 1 && Genuine(p, L, ck)
    ensures var rest := Outcome(p, RowsToReplay(L.log, ck.scope, Some(ck)), Some(ck));
            && Replayable(p, RowsToReplay(L.log, ck.scope, Some(ck)), Some(ck))
            && rest.state == Whole(p, L.log, ck.scope).state
            && rest.lastPosition == Whole(p, L.log, ck.scope).lastPosition
            && Genuine(p, L, TakeCheckpoint(p, rest, ck.scope))
  {
    var M :| Valid(M) && Extends(M, L) && ck == TakeCheckpoint(p, Whole(p, M.log, ck.scope), ck.scope);
    CheckpointAgrees(p, M, L, ck.scope);
  }
}
