/** When a committed prefix with a suffix behaves as the suffix alone, and an input for which it does not. */
module PrefixRetries {
  import opened Wrappers
  import opened Values
  import opened Events
  import opened Ledgers
  import opened LedgerLaws

  /** Submitting the prefix again with the suffix does what the suffix alone does, and returns the prefix too. */
  ghost predicate Agrees(L: Ledger, first: seq<Event>, second: seq<Event>, expected: map<StreamId, int>)
    requires AllStored(L.log, first)
  {
    AppendMany(L, first + second, expected)
    == match AppendMany(L, second, Advanced(expected, first))
       case None => None
       case Some(a) => Some(Appended(a.ledger, FoundAll(L.log, first) + a.events))
  }

  /** The suffix is a retry as well, of events that stand on a stream of the prefix. */
  ghost predicate SuffixIsOlderRetry(L: Ledger, first: seq<Event>, second: seq<Event>, expected: map<StreamId, int>) {
    && RequestValid(second, Advanced(expected, first))
    && AllStored(L.log, second) && !Conflicting(L.log, second) && Consecutive(FoundAll(L.log, second))
    && !(StreamsOf(first) !! StreamsOf(second))
  }

  /** Prefix retry is exact in every case but one. */
  lemma PrefixRetryExactly(L: Ledger, first: seq<Event>, second: seq<Event>, expected: map<StreamId, int>)
    requires Valid(L) && JustCommitted(L, first, expected)
    ensures Agrees(L, first, second, expected) <==> !SuffixIsOlderRetry(L, first, second, expected)
  {
    if !AllStored(L.log, second) {
      PrefixRetry(L, first, second, expected);
    } else {
      PrefixRetryStored(L, first, second, expected);
      assert AllStored(L.log, first + second);
      assert FoundAll(L.log, first + second) == FoundAll(L.log, first) + FoundAll(L.log, second);
      if second == [] {
        assert StreamsOf(second) == {};
        assert FoundAll(L.log, second) == [];
      }
      StoredSuffix(L, first, second, expected);
    }
  }

  lemma StoredSuffix(L: Ledger, first: seq<Event>, second: seq<Event>, expected: map<StreamId, int>)
    requires AllStored(L.log, first) && AllStored(L.log, second)
    ensures AllStored(L.log, first + second)
    ensures AppendMany(L, first + second, expected).Some? ==>
              AppendMany(L, first + second, expected).value == Appended(L, FoundAll(L.log, first + second))
    ensures AppendMany(L, second, Advanced(expected, first)).Some? ==>
              AppendMany(L, second, Advanced(expected, first)).value == Appended(L, FoundAll(L.log, second))
  {
    assert FoundAll(L.log, []) == [];
    assert forall e :: e in first + second ==> e in first || e in second;
  }

  const STREAM := NamedStream(Raw("s"))

  function Sample(name: string, n: int): Event {
    Event(Raw(name), STREAM, n, OtherType(Raw("noted")), 1, 0, 0, Raw("c"), None, Raw("a"), RuntimeSource, Null,
          Some(Raw(name)), None)
  }

  /**
   The excluded case happens. With events 1 and 2 of one stream stored, retrying
   event 1 alone is accepted, and retrying event 2 followed by event 1 is refused.
   */
  lemma OlderRetryIsRefused() returns (L: Ledger, first: seq<Event>, second: seq<Event>, expected: map<StreamId, int>)
    ensures Valid(L) && JustCommitted(L, first, expected)
    ensures AppendMany(L, second, Advanced(expected, first)).Some?
    ensures AppendMany(L, first + second, expected).None?
  {
    var one, two := Sample("one", 1), Sample("two", 2);
    first, second, expected := [two], [one], map[STREAM := 1];
    var before := OneStored(one, two);
    L := NextStored(before, one, two);
    RetryAccepted(L, one, first, expected);
    PrefixRetryStored(L, first, second, expected);
    assert two in first && one in second && STREAM in StreamsOf(first) && STREAM in StreamsOf(second);
  }

  lemma OneStored(one: Event, two: Event) returns (L: Ledger)
    requires one == Sample("one", 1) && two == Sample("two", 2)
    ensures Valid(L) && Stored(L.log, one) == Some(Placed([], one)) && Stored(L.log, two).None?
    ensures |OnStream(L.log, STREAM)| == 1 && Insertable(L.log, two)
  {
    EmptyValid();
    AppendOne(EMPTY, one, 0);
    AppendKeepsValid(EMPTY, [one], map[STREAM := 0]);
    L := AppendMany(EMPTY, [one], map[STREAM := 0]).value.ledger;
    assert L.log == [Placed([], one)];
    HoldsOne(L.log, one, two);
  }

  lemma NextStored(before: Ledger, one: Event, two: Event) returns (L: Ledger)
    requires Valid(before) && one == Sample("one", 1) && two == Sample("two", 2)
    requires Stored(before.log, one) == Some(Placed([], one)) && Stored(before.log, two).None?
    requires |OnStream(before.log, STREAM)| == 1 && Insertable(before.log, two)
    ensures Valid(L) && JustCommitted(L, [two], map[STREAM := 1])
    ensures Stored(L.log, one) == Some(Placed([], one))
  {
    AppendOne(before, two, 1);
    AppendKeepsValid(before, [two], map[STREAM := 1]);
    L := AppendMany(before, [two], map[STREAM := 1]).value.ledger;
    assert two in [two] && !AllStored(before.log, [two]);
    AppendJustCommits(before, [two], map[STREAM := 1]);
    FindStable(before.log, [Placed(before.log, two)], STREAM, Raw("one"));
  }

  lemma {:induction false} HoldsOne(log: seq<Event>, one: Event, two: Event)
    requires log == [Placed([], one)] && one == Sample("one", 1) && two == Sample("two", 2)
    ensures Stored(log, one) == Some(Placed([], one)) && Stored(log, two).None?
    ensures |OnStream(log, STREAM)| == 1 && Insertable(log, two)
  {
    OneOnStream(log[0], STREAM);
    assert log == [log[0]] && log[..0] == [];
    assert "one" != "two" by { assert "one"[0] != "two"[0]; }
    assert Find(log[..0], STREAM, Raw("one")) == None && Find(log[..0], STREAM, Raw("two")) == None;
  }

  lemma RetryAccepted(L: Ledger, one: Event, first: seq<Event>, expected: map<StreamId, int>)
    requires Valid(L) && one.streamId == STREAM && STREAM in expected && expected[STREAM] >= 0
    requires Stored(L.log, one).Some? && RequestOf(Stored(L.log, one).value) == RequestOf(one)
    ensures AllStored(L.log, [one])
    ensures AppendMany(L, [one], Advanced(expected, first)).Some?
  {
    AppendOne(L, one, 0);
    assert forall e :: e in [one] ==> e == one;
    assert AllStored(L.log, [one]);
    assert !Conflicting(L.log, [one]);
    assert RequestValid([one], map[STREAM := 0]);
  }
}
