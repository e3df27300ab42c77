/** What the queries return, and how their pages fit together. */
module LedgerReads {
  import opened Wrappers
  import opened Sequences
  import opened Values
  import opened Events
  import opened Ledgers
  import opened LedgerLaws

  function Position(e: Event): nat {
    match e.globalPosition case Some(p) => p case None => 0
  }

  function ById(log: seq<Event>, id: Text): Option<Event> {
    if log == [] then None
    else if log[|log| - 1].eventId == id then Some(log[|log| - 1])
    else ById(log[..|log| - 1], id)
  }

  /** The rows after a position, in order. */
  function After(log: seq<Event>, position: nat): seq<Event> {
    if log == [] then []
    else
      var before, last := After(log[..|log| - 1], position), log[|log| - 1];
      if Position(last) > position then before + [last] else before
  }

  function Limited(es: seq<Event>, limit: Option<nat>): seq<Event> {
    match limit
    case None => es
    case Some(n) => if n < |es| then es[..n] else es
  }

  function ReadAll(log: seq<Event>, after: nat, limit: Option<nat>): seq<Event> {
    Limited(After(log, after), limit)
  }

  /** The rows of one stream after a sequence number. */
  function AfterSequence(es: seq<Event>, sequence: nat): seq<Event> {
    if es == [] then []
    else
      var before, last := AfterSequence(es[..|es| - 1], sequence), es[|es| - 1];
      if last.streamSequence > sequence then before + [last] else before
  }

  /** The rows at or below a position, if one is given. */
  function Through(es: seq<Event>, position: Option<int>): seq<Event> {
    if es == [] || position.None? then es
    else
      var before, last := Through(es[..|es| - 1], position), es[|es| - 1];
      if Position(last) <= position.value then before + [last] else before
  }

  /** `None` is the refusal of a negative cursor or of a limit below one. */
  function ReadStream(log: seq<Event>, s: StreamId, after: int, through: Option<int>, limit: Option<int>)
    : Option<seq<Event>>
  {
    if after < 0 || (through.Some? && through.value < 0) || (limit.Some? && limit.value < 1) then None
    else
      var rows := Through(AfterSequence(OnStream(log, s), after), through);
      Some(Limited(rows, if limit.Some? then Some(limit.value) else None))
  }

  /** The rows of one type at or below a position, oldest first. */
  function OfType(log: seq<Event>, t: EventType, through: nat): seq<Event> {
    if log == [] then []
    else
      var before, last := OfType(log[..|log| - 1], t, through), log[|log| - 1];
      if last.eventType == t && Position(last) <= through then before + [last] else before
  }

  function Reverse(es: seq<Event>): seq<Event> {
    if es == [] then [] else [es[|es| - 1]] + Reverse(es[..|es| - 1])
  }

  function ReadTypeDescending(log: seq<Event>, t: EventType, through: nat, limit: nat): seq<Event> {
    Limited(Reverse(OfType(log, t, through)), Some(limit))
  }

  /** The position a reader has reached after `n` rows. */
  function Cursor(log: seq<Event>, n: nat): nat
    requires n <= |log|
  {
    if n == 0 then 0 else Position(log[n - 1])
  }

  /** From the cursor after `n` rows, exactly the remaining rows are read. */
  lemma {:induction false} AfterCursor(log: seq<Event>, n: nat)
    requires PositionsIncrease(log) && n <= |log|
    ensures After(log, Cursor(log, n)) == log[n..]
  {
    if n == |log| {
      AfterNothing(log, Cursor(log, n));
    } else {
      var shorter := log[..|log| - 1];
      AfterCursor(shorter, n);
      assert Cursor(shorter, n) == Cursor(log, n);
      assert log[n..] == shorter[n..] + [log[|log| - 1]];
    }
  }

  lemma {:induction false} AfterNothing(log: seq<Event>, position: nat)
    requires forall i :: 0 <= i < |log| ==> Position(log[i]) <= position
    ensures After(log, position) == []
  {
    if log != [] {
      AfterNothing(log[..|log| - 1], position);
    }
  }

  /** A read of the ledger is a window of it: past the rows up to the cursor and no longer than the limit. */
  lemma {:induction false} ReadAllExactly(log: seq<Event>, n: nat, after: nat, limit: Option<nat>)
    requires n <= |log| && (forall i :: 0 <= i < n ==> Position(log[i]) <= after)
    requires forall i :: n <= i < |log| ==> Position(log[i]) > after
    ensures var to := if limit.Some? && n + limit.value < |log| then n + limit.value else |log|;
            ReadAll(log, after, limit) == log[n..to]
  {
    AfterSplit(log, n, after);
  }

  lemma {:induction false} AfterSplit(log: seq<Event>, n: nat, after: nat)
    requires n <= |log| && (forall i :: 0 <= i < n ==> Position(log[i]) <= after)
    requires forall i :: n <= i < |log| ==> Position(log[i]) > after
    ensures After(log, after) == log[n..]
    decreases |log|
  {
    if n == |log| {
      AfterNothing(log, after);
    } else {
      var shorter := log[..|log| - 1];
      AfterSplit(shorter, n, after);
      assert log[n..] == shorter[n..] + [log[|log| - 1]];
    }
  }

  /** In a gap-free stream, reading after number `n` drops exactly the first `n` rows. */
  lemma {:induction false} AfterSequenceIsSuffix(es: seq<Event>, n: nat)
    requires Numbered(es)
    ensures AfterSequence(es, n) == if n <= |es| then es[n..] else []
  {
    if es != [] {
      var shorter := es[..|es| - 1];
      AfterSequenceIsSuffix(shorter, n);
      if n <= |shorter| {
        assert es[n..] == shorter[n..] + [es[|es| - 1]];
      }
    }
  }

  /** The first `n` rows are those at or below the position; without one, all are. */
  ghost predicate Snapshot(log: seq<Event>, n: nat, through: Option<int>) {
    if through.None? then n == |log|
    else
      && n <= |log|
      && (forall i :: 0 <= i < n ==> Position(log[i]) <= through.value)
      && forall i :: n <= i < |log| ==> Position(log[i]) > through.value
  }

  lemma {:induction false} ThroughAll(es: seq<Event>, p: Option<int>)
    requires forall e :: e in es && p.Some? ==> Position(e) <= p.value
    ensures Through(es, p) == es
  {
    if es != [] && p.Some? {
      assert es[|es| - 1] in es;
      ThroughAll(es[..|es| - 1], p);
    }
  }

  lemma {:induction false} ThroughNone(es: seq<Event>, p: int)
    requires forall e :: e in es ==> Position(e) > p
    ensures Through(es, Some(p)) == []
  {
    if es != [] {
      assert es[|es| - 1] in es;
      ThroughNone(es[..|es| - 1], p);
    }
  }

  lemma {:induction false} ThroughConcat(a: seq<Event>, b: seq<Event>, p: Option<int>)
    ensures Through(a + b, p) == Through(a, p) + Through(b, p)
  {
    if b == [] {
      assert a + b == a;
    } else {
      ThroughConcat(a, b[..|b| - 1], p);
      assert (a + b)[..|a + b| - 1] == a + b[..|b| - 1];
    }
  }

  /** Bounding the position hides the events of the rows above it, whatever was read before. */
  lemma {:induction false} ThroughCuts(seen: seq<Event>, later: seq<Event>, after: nat, p: Option<int>)
    requires Numbered(seen + later)
    requires forall e :: e in seen && p.Some? ==> Position(e) <= p.value
    requires forall e :: e in later ==> p.Some? && Position(e) > p.value
    ensures Through(AfterSequence(seen + later, after), p) == if after <= |seen| then seen[after..] else []
  {
    AfterSequenceIsSuffix(seen + later, after);
    if after <= |seen| {
      assert (seen + later)[after..] == seen[after..] + later;
      ThroughConcat(seen[after..], later, p);
      ThroughAll(seen[after..], p);
      if later != [] {
        assert later[0] in later;
        ThroughNone(later, p.value);
      }
    } else if after <= |seen + later| {
      assert (seen + later)[after..] == later[after - |seen|..];
      if later != [] {
        assert later[0] in later;
        ThroughNone(later[after - |seen|..], p.value);
      }
    }
  }

  lemma {:induction false} SnapshotSplits(log: seq<Event>, s: StreamId, n: nat, through: Option<int>)
    requires Snapshot(log, n, through)
    ensures OnStream(log, s) == OnStream(log[..n], s) + OnStream(log[n..], s)
    ensures forall e :: e in OnStream(log[..n], s) && through.Some? ==> Position(e) <= through.value
    ensures forall e :: e in OnStream(log[n..], s) ==> through.Some? && Position(e) > through.value
  {
    SplitAt(log, n);
    OnStreamConcat(log[..n], log[n..], s);
    OnStreamMembers(log[..n], s);
    OnStreamMembers(log[n..], s);
  }

  /**
   * A read of a stream is a window of the stream as it stood at the position asked for: past
   * the first `after` events and no longer than the limit. What is appended later does not show.
   */
  lemma {:induction false} ReadStreamExactly(log: seq<Event>, s: StreamId, n: nat, after: int, through: Option<int>,
                                             limit: Option<int>)
    requires Snapshot(log, n, through) && Numbered(OnStream(log, s))
    ensures ReadStream(log, s, after, through, limit).Some? <==>
            after >= 0 && (through.Some? ==> through.value >= 0) && (limit.Some? ==> limit.value >= 1)
    ensures ReadStream(log, s, after, through, limit).Some? ==>
      var seen := OnStream(log[..n], s);
      var from := if after < |seen| then after else |seen|;
      var to := if limit.Some? && from + limit.value < |seen| then from + limit.value else |seen|;
      ReadStream(log, s, after, through, limit).value == seen[from..to]
  {
    if ReadStream(log, s, after, through, limit).Some? {
      SnapshotSplits(log, s, n, through);
      ThroughCuts(OnStream(log[..n], s), OnStream(log[n..], s), after, through);
      LimitedWindow(OnStream(log[..n], s), after, if limit.Some? then Some(limit.value) else None);
    }
  }

  lemma LimitedWindow(seen: seq<Event>, after: nat, limit: Option<nat>)
    ensures var from := if after < |seen| then after else |seen|;
            var to := if limit.Some? && from + limit.value < |seen| then from + limit.value else |seen|;
            Limited(if after <= |seen| then seen[after..] else [], limit) == seen[from..to]
  {
  }
}
