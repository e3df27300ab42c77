/**
 The presentation window: the newest queued runs, found by paging backwards
 through the events of one type at or below a snapshot cursor while other
 writers keep appending.
 */
module RunWindow {
  import opened Wrappers
  import opened Sequences
  import opened Values
  import opened Events
  import opened Ledgers
  import opened LedgerReads

  const MAX_RUN_QUERY_PAGE_SIZE := 100
  const MAX_RUN_QUERY_SCAN_EVENTS := 1000
  const PAGE := 200

  datatype WindowError = InvalidRequest

  /** The events that queued the runs shown, oldest first, and what the window says of itself. */
  datatype Window = Window(queued: seq<Event>, scanned: nat, cursor: nat, hasOlder: bool)

  /** A run this runtime queued. */
  predicate IsQueuedRun(e: Event) {
    e.source == RuntimeSource && e.streamId.RunStream?
  }

  function Kept(es: seq<Event>): seq<Event> {
    if es == [] then []
    else
      var before, last := Kept(es[..|es| - 1]), es[|es| - 1];
      if IsQueuedRun(last) then before + [last] else before
  }

  lemma {:induction false} KeptConcat(a: seq<Event>, b: seq<Event>)
    ensures Kept(a + b) == Kept(a) + Kept(b)
    decreases |b|
  {
    if b == [] {
      assert a + b == a;
    } else {
      KeptConcat(a, b[..|b| - 1]);
      assert (a + b)[..|a + b| - 1] == a + b[..|b| - 1];
      assert (a + b)[|a + b| - 1] == b[|b| - 1];
    }
  }

  lemma {:induction false} KeptReverse(es: seq<Event>)
    ensures Kept(Reverse(es)) == Reverse(Kept(es))
  {
    if es != [] {
      var before, last := es[..|es| - 1], es[|es| - 1];
      KeptReverse(before);
      KeptConcat([last], Reverse(before));
      assert [last][..0] == [];
      if IsQueuedRun(last) {
        assert Kept(es)[..|Kept(es)| - 1] == Kept(before);
      }
    }
  }

  lemma {:induction false} ReverseAt(es: seq<Event>, k: nat)
    requires k < |es|
    ensures |Reverse(es)| == |es| && Reverse(es)[k] == es[|es| - 1 - k]
  {
    if |es| > 1 {
      ReverseAt(es[..|es| - 1], if k > 0 then k - 1 else 0);
    }
  }

  lemma {:induction false} ReverseOfPrefix(es: seq<Event>, j: nat)
    requires j <= |es|
    ensures |Reverse(es)| == |es| && Reverse(es[..j]) == Reverse(es)[|es| - j..]
    decreases |es|
  {
    ReverseLength(es);
    if j == |es| {
      WholePrefix(es);
    } else {
      var before, last := es[..|es| - 1], es[|es| - 1];
      ReverseOfPrefix(before, j);
      FrontSplits(es, j);
      DropAfterFirst(last, Reverse(before), |before| - j);
    }
  }

  lemma {:induction false} ReverseTwice(es: seq<Event>, m: nat)
    requires m <= |es|
    ensures |Reverse(es)| == |es| && Reverse(Reverse(es)[..m]) == es[|es| - m..]
    decreases |es|
  {
    if es != [] {
      ReverseAt(es, 0);
      if m > 0 {
        var before, last := es[..|es| - 1], es[|es| - 1];
        ReverseTwice(before, m - 1);
        assert Reverse(es)[..m] == [last] + Reverse(before)[..m - 1];
        ReversePrepend(last, Reverse(before)[..m - 1]);
        assert es[|es| - m..] == before[|before| - (m - 1)..] + [last];
      }
    }
  }

  lemma {:induction false} ReversePrepend(e: Event, es: seq<Event>)
    ensures Reverse([e] + es) == Reverse(es) + [e]
  {
    if es == [] {
      assert [e] + es == [e];
      assert Reverse([e]) == [e] + Reverse([]);
    } else {
      ReversePrepend(e, es[..|es| - 1]);
      assert ([e] + es)[..|es|] == [e] + es[..|es| - 1];
      assert ([e] + es)[|es|] == es[|es| - 1];
    }
  }

  // ---------------------------------------------------------------- pages

  /** The queued-run events at or below `through`, oldest first. */
  function Candidates(log: seq<Event>, through: nat): seq<Event> {
    OfType(log, RunQueued, through)
  }

  /** Rows appended after the snapshot are invisible at or below its cursor. */
  lemma {:induction false} LaterInvisible(log: seq<Event>, later: seq<Event>, through: nat)
    requires forall i :: 0 <= i < |later| ==> Position(later[i]) > through
    ensures Candidates(log + later, through) == Candidates(log, through)
    decreases |later|
  {
    if later == [] {
      assert log + later == log;
    } else {
      LaterInvisible(log, later[..|later| - 1], through);
      assert (log + later)[..|log + later| - 1] == log + later[..|later| - 1];
    }
  }

  ghost predicate Between(es: seq<Event>, through: nat) {
    forall i :: 0 <= i < |es| ==> 1 <= Position(es[i]) <= through
  }

  lemma {:induction false} CandidatesPositions(log: seq<Event>, through: nat)
    requires PositionsIncrease(log)
    ensures PositionsIncrease(Candidates(log, through))
    ensures Between(Candidates(log, through), through)
    ensures forall i :: 0 <= i < |Candidates(log, through)| ==> Candidates(log, through)[i] in log
  {
    if log != [] {
      var before := log[..|log| - 1];
      CandidatesPositions(before, through);
      var es := Candidates(before, through);
      forall i | 0 <= i < |es| ensures Position(es[i]) < Position(log[|log| - 1]) {
        assert es[i] in before;
        var j :| 0 <= j < |before| && before[j] == es[i];
        assert log[j] == es[i];
      }
    }
  }

  /** Lowering the bound to just below the `j`-th candidate keeps exactly the ones before it. */
  lemma {:induction false} CandidatesBelow(log: seq<Event>, through: nat, j: nat)
    requires PositionsIncrease(log) && j < |Candidates(log, through)|
    ensures Position(Candidates(log, through)[j]) >= 1
    ensures Candidates(log, Position(Candidates(log, through)[j]) - 1) == Candidates(log, through)[..j]
    decreases |log|
  {
    CandidatesPositions(log, through);
    var es, before, last := Candidates(log, through), log[..|log| - 1], log[|log| - 1];
    CandidatesPositions(before, through);
    var bound := Position(es[j]) - 1;
    if j < |Candidates(before, through)| {
      CandidatesBelow(before, through, j);
      assert es[j] in before;
      var k :| 0 <= k < |before| && before[k] == es[j];
      assert log[k] == es[j];
      assert Position(es[j]) < Position(last);
    } else {
      assert es[j] == last;
      AllBelow(before, through, bound, Position(last));
    }
  }

  lemma {:induction false} AllBelow(log: seq<Event>, through: nat, bound: nat, last: nat)
    requires PositionsIncrease(log) && bound == last - 1 && last <= through
    requires forall i :: 0 <= i < |log| ==> Position(log[i]) < last
    ensures Candidates(log, bound) == Candidates(log, through)
  {
    if log != [] {
      AllBelow(log[..|log| - 1], through, bound, last);
    }
  }

  // ---------------------------------------------------------------- the scan

  /** All candidates, newest first. */
  function Newest(log: seq<Event>, cursor: nat): seq<Event> {
    Reverse(Candidates(log, cursor))
  }

  /**
   After `scanned` candidates: what was kept, where the next page starts, and that
   the scan is exhausted only at the last candidate, by a short page or by the
   very first row of the ledger.
   */
  ghost predicate Scanning(log: seq<Event>, cursor: nat, limit: nat, queued: seq<Event>, scanned: nat, through: nat,
                           exhausted: bool)
  {
    through <= cursor && ScanAt(log, Newest(log, cursor), limit, queued, scanned, through, exhausted)
  }

  ghost predicate ScanAt(log: seq<Event>, all: seq<Event>, limit: nat, queued: seq<Event>, scanned: nat, through: nat,
                         exhausted: bool)
  {
    && scanned <= |all| && scanned <= MAX_RUN_QUERY_SCAN_EVENTS
    && queued == Kept(all[..scanned]) && JustOver(all, scanned, limit)
    && (|queued| <= limit ==> Newest(log, through) == all[scanned..])
    && (|queued| <= limit && exhausted ==>
          scanned == |all| && (scanned == MAX_RUN_QUERY_SCAN_EVENTS ==> Position(all[scanned - 1]) == 1))
    && (|queued| <= limit && !exhausted && scanned > 0 ==> Position(all[scanned - 1]) > 1)
  }

  /** Fewer than `scanned` candidates do not hold more than `limit` kept ones. */
  ghost predicate JustOver(all: seq<Event>, scanned: nat, limit: nat)
    requires scanned <= |all|
  {
    && |Kept(all[..scanned])| <= limit + 1
    && forall c :: 0 <= c < scanned ==> |Kept(all[..c])| <= limit
  }

  lemma ScanStart(log: seq<Event>, cursor: nat, limit: nat)
    requires PositionsIncrease(log)
    ensures Scanning(log, cursor, limit, [], 0, cursor, cursor == 0)
  {
    CandidatesPositions(log, cursor);
    assert Newest(log, cursor)[..0] == [];
    assert cursor == 0 ==> Candidates(log, cursor) == [];
  }

  lemma KeptNext(all: seq<Event>, n: nat)
    requires n < |all|
    ensures Kept(all[..n + 1]) == if IsQueuedRun(all[n]) then Kept(all[..n]) + [all[n]] else Kept(all[..n])
  {
    FrontOfPrefix(all, n);
  }

  lemma OldestCandidate(log: seq<Event>, cursor: nat, j: nat)
    requires PositionsIncrease(log) && j < |Candidates(log, cursor)|
    ensures 1 <= Position(Candidates(log, cursor)[j]) <= cursor
    ensures Position(Candidates(log, cursor)[j]) == 1 ==> j == 0
  {
    CandidatesPositions(log, cursor);
    if j > 0 {
      assert Position(Candidates(log, cursor)[0]) < Position(Candidates(log, cursor)[j]);
    }
  }

  /** After a whole page has been scanned the next one starts just below its oldest row. */
  lemma PageDone(log: seq<Event>, cursor: nat, to: nat)
    requires PositionsIncrease(log) && 0 < to <= |Newest(log, cursor)|
    ensures 1 <= Position(Newest(log, cursor)[to - 1]) <= cursor
    ensures Newest(log, Position(Newest(log, cursor)[to - 1]) - 1) == Newest(log, cursor)[to..]
    ensures Position(Newest(log, cursor)[to - 1]) == 1 ==> to == |Newest(log, cursor)|
  {
    var es := Candidates(log, cursor);
    var j := |es| - to;
    ReverseOfPrefix(es, 0);
    ReverseAt(es, to - 1);
    OldestCandidate(log, cursor, j);
    CandidatesBelow(log, cursor, j);
    ReverseOfPrefix(es, j);
  }

  /** The inner loop: keep the queued runs of a page until one more than `limit` is held. */
  method ScanPage(ghost all: seq<Event>, page: seq<Event>, limit: nat, queued0: seq<Event>, scanned0: nat)
    returns (queued: seq<Event>, scanned: nat)
    requires scanned0 + |page| <= |all| && page == all[scanned0..scanned0 + |page|] && page != []
    requires queued0 == Kept(all[..scanned0]) && |queued0| <= limit && JustOver(all, scanned0, limit)
    ensures scanned0 < scanned <= scanned0 + |page|
    ensures queued == Kept(all[..scanned]) && JustOver(all, scanned, limit)
    ensures |queued| <= limit ==> scanned == scanned0 + |page|
  {
    queued, scanned := queued0, scanned0;
    for i := 0 to |page|
      invariant scanned == scanned0 + i
      invariant queued == Kept(all[..scanned]) && |queued| <= limit && JustOver(all, scanned, limit)
    {
      var event := page[i];
      assert event == all[scanned];
      KeptNext(all, scanned);
      scanned := scanned + 1;
      if IsQueuedRun(event) {
        queued := queued + [event];
        if |queued| > limit {
          return;
        }
      }
    }
  }

  /** Nothing the others append lies at or below the snapshot. */
  ghost predicate AllLater(later: nat -> seq<Event>, cursor: nat) {
    forall k: nat :: AllAfter(later(k), cursor)
  }

  ghost predicate AllAfter(es: seq<Event>, cursor: nat) {
    forall i :: 0 <= i < |es| ==> Position(es[i]) > cursor
  }

  /** `page` is what follows the first `scanned` candidates; a short page is all that follows them. */
  ghost predicate Follows(all: seq<Event>, scanned: nat, page: seq<Event>, pageLimit: nat) {
    && scanned + |page| <= |all| && |page| <= pageLimit
    && page == all[scanned..scanned + |page|]
    && (|page| < pageLimit ==> scanned + |page| == |all|)
  }

  /** The next page of a scan, read from a log that may have grown since the snapshot. */
  method ReadPage(ghost snapshot: seq<Event>, log: seq<Event>, ghost later: seq<Event>, ghost cursor: nat,
                  ghost limit: nat, ghost queued: seq<Event>, ghost scanned: nat, through: nat, pageLimit: nat)
    returns (page: seq<Event>)
    requires log == snapshot + later && AllAfter(later, cursor)
    requires Scanning(snapshot, cursor, limit, queued, scanned, through, false) && |queued| <= limit
    requires 0 < pageLimit <= MAX_RUN_QUERY_SCAN_EVENTS - scanned
    ensures Follows(Newest(snapshot, cursor), scanned, page, pageLimit)
    ensures page == [] ==> Scanning(snapshot, cursor, limit, queued, scanned, through, true)
  {
    LaterInvisible(snapshot, later, through);
    page := ReadTypeDescending(log, RunQueued, through, pageLimit);
  }

  /** What a page scanned up to candidate `to` leaves behind. */
  lemma PageScanned(log: seq<Event>, cursor: nat, limit: nat, queued: seq<Event>, scanned: nat, to: nat,
                    exhausted: bool)
    requires PositionsIncrease(log) && 0 < to <= |Newest(log, cursor)| && scanned <= to <= MAX_RUN_QUERY_SCAN_EVENTS
    requires queued == Kept(Newest(log, cursor)[..scanned]) && JustOver(Newest(log, cursor), scanned, limit)
    requires |queued| <= limit ==> scanned == to
    requires exhausted ==>
      (to == |Newest(log, cursor)| && to < MAX_RUN_QUERY_SCAN_EVENTS) || Position(Newest(log, cursor)[to - 1]) == 1
    requires !exhausted ==> Position(Newest(log, cursor)[to - 1]) != 1
    ensures 1 <= Position(Newest(log, cursor)[to - 1])
    ensures Scanning(log, cursor, limit, queued, scanned, Position(Newest(log, cursor)[to - 1]) - 1, exhausted)
  {
    PageDone(log, cursor, to);
  }

  /** One turn of the outer loop. */
  method NextPage(snapshot: seq<Event>, ghost cursor: nat, later: seq<Event>, limit: nat,
                  queued0: seq<Event>, scanned0: nat, through0: nat)
    returns (queued: seq<Event>, scanned: nat, through: nat, exhausted: bool)
    requires PositionsIncrease(snapshot) && AllAfter(later, cursor)
    requires Scanning(snapshot, cursor, limit, queued0, scanned0, through0, false)
    requires |queued0| <= limit && scanned0 < MAX_RUN_QUERY_SCAN_EVENTS
    ensures Scanning(snapshot, cursor, limit, queued, scanned, through, exhausted)
    ensures exhausted || scanned > scanned0
  {
    var pageLimit := if MAX_RUN_QUERY_SCAN_EVENTS - scanned0 < PAGE then MAX_RUN_QUERY_SCAN_EVENTS - scanned0 else PAGE;
    ghost var all := Newest(snapshot, cursor);
    var page := ReadPage(snapshot, snapshot + later, later, cursor, limit, queued0, scanned0, through0, pageLimit);
    if page == [] {
      return queued0, scanned0, through0, true;
    }
    ghost var to := scanned0 + |page|;
    queued, scanned := ScanPage(all, page, limit, queued0, scanned0);
    var oldest := Position(page[|page| - 1]);
    exhausted := |page| < pageLimit || oldest == 1;
    PageScanned(snapshot, cursor, limit, queued, scanned, to, exhausted);
    through := oldest - 1;
  }

  // ---------------------------------------------------------------- the window

  function Smaller(a: nat, b: nat): nat {
    if a < b then a else b
  }

  /** The candidates a scan may reach. */
  function Reachable(log: seq<Event>, cursor: nat): seq<Event> {
    var all := Newest(log, cursor);
    all[..Smaller(|all|, MAX_RUN_QUERY_SCAN_EVENTS)]
  }

  /** The scan limit was used up and the ledger goes on below it. */
  predicate ScanCutOff(log: seq<Event>, cursor: nat) {
    var all := Newest(log, cursor);
    |all| >= MAX_RUN_QUERY_SCAN_EVENTS && Position(all[MAX_RUN_QUERY_SCAN_EVENTS - 1]) > 1
  }

  /**
   The window of a snapshot, exactly: the newest matching runs within reach, oldest
   first; the candidates looked at, no more than needed; and the flag.
   */
  ghost predicate Shows(log: seq<Event>, limit: nat, w: Window) {
    var rows := Reachable(log, w.cursor);
    var kept := Kept(rows);
    && w.queued == Reverse(kept[..Smaller(limit, |kept|)])
    && w.scanned <= |rows| && JustOver(rows, w.scanned, limit)
    && (w.scanned < |rows| ==> |Kept(rows[..w.scanned])| > limit)
    && (w.hasOlder <==> |kept| > limit || ScanCutOff(log, w.cursor))
  }

  lemma KeptPrefix(all: seq<Event>, c: nat, n: nat)
    requires c <= n <= |all|
    ensures Kept(all[..c]) <= Kept(all[..n])
  {
    KeptConcat(all[..c], all[c..n]);
    assert all[..n] == all[..c] + all[c..n];
  }

  /** When the loop stops, what it holds is the window. */
  lemma SelectionShows(log: seq<Event>, limit: nat, queued: seq<Event>, through: nat, exhausted: bool, m: nat,
                       w: Window)
    requires Scanning(log, w.cursor, limit, queued, w.scanned, through, exhausted)
    requires exhausted || w.scanned == MAX_RUN_QUERY_SCAN_EVENTS || |queued| > limit
    requires m == Smaller(limit, |queued|)
    requires w.queued == Reverse(queued[..m]) && w.hasOlder == (|queued| > limit || !exhausted)
    ensures Shows(log, limit, w)
  {
    var all, rows := Newest(log, w.cursor), Reachable(log, w.cursor);
    KeptPrefix(all, w.scanned, |rows|);
    assert forall c :: 0 <= c <= |rows| ==> rows[..c] == all[..c];
    if |queued| <= limit {
      assert w.scanned == |rows|;
      assert rows[..w.scanned] == rows;
    } else {
      assert queued <= Kept(rows);
      assert Kept(rows)[..limit] == queued[..limit];
    }
  }

  function Last(log: seq<Event>): nat {
    if log == [] then 0 else Position(log[|log| - 1])
  }

  /**
   `presentation_run_window`. `later(k)` is what others have appended by the time
   the `k`-th page is read; the window depends on none of it.
   */
  method PresentationRunWindow(log: seq<Event>, later: nat -> seq<Event>, limit: int)
    returns (r: Result<Window, WindowError>)
    requires PositionsIncrease(log)
    requires AllLater(later, Last(log))
    ensures r.Err? <==> !(1 <= limit <= MAX_RUN_QUERY_PAGE_SIZE)
    ensures r.Ok? ==> r.value.cursor == Last(log) && Shows(log, limit, r.value)
  {
    if !(1 <= limit <= MAX_RUN_QUERY_PAGE_SIZE) {
      return Err(InvalidRequest);
    }
    var cursor := Last(log);
    var through := cursor;
    var scanned: nat := 0;
    var exhausted := cursor == 0;
    var queued: seq<Event> := [];
    ScanStart(log, cursor, limit);
    var pages: nat := 0;
    while !exhausted && scanned < MAX_RUN_QUERY_SCAN_EVENTS && |queued| <= limit
      invariant Scanning(log, cursor, limit, queued, scanned, through, exhausted)
      decreases !exhausted, MAX_RUN_QUERY_SCAN_EVENTS - scanned
    {
      assert AllAfter(later(pages), cursor);
      queued, scanned, through, exhausted := NextPage(log, cursor, later(pages), limit, queued, scanned, through);
      pages := pages + 1;
    }
    var held := Smaller(limit, |queued|);
    var window := Window(Reverse(queued[..held]), scanned, cursor, |queued| > limit || !exhausted);
    SelectionShows(log, limit, queued, through, exhausted, held, window);
    return Ok(window);
  }

  // ---------------------------------------------------------------- what a window means

  /** Every matching run at or below the snapshot, oldest first. */
  function Matching(log: seq<Event>, cursor: nat): seq<Event> {
    Kept(Candidates(log, cursor))
  }

  lemma {:induction false} KeptMembers(es: seq<Event>)
    requires PositionsIncrease(es)
    ensures forall e :: e in Kept(es) <==> e in es && e.source == RuntimeSource && e.streamId.RunStream?
    ensures PositionsIncrease(Kept(es))
  {
    if es != [] {
      var front := es[..|es| - 1];
      KeptMembers(front);
      SplitLast(es);
      forall i | 0 <= i < |Kept(front)| ensures Position(Kept(front)[i]) < Position(es[|es| - 1]) {
        assert Kept(front)[i] in front;
      }
    }
  }

  lemma {:induction false} CandidatesMembers(log: seq<Event>, cursor: nat)
    ensures forall e :: e in Candidates(log, cursor) <==>
              e in log && e.eventType == RunQueued && Position(e) <= cursor
  {
    if log != [] {
      CandidatesMembers(log[..|log| - 1], cursor);
      SplitLast(log);
    }
  }

  /**
   What a matching run is: an event at or below the snapshot that queued a run, recorded by
   this runtime on a run's own stream; they stand in the order of the ledger, each once.
   */
  lemma MatchingExactly(log: seq<Event>, cursor: nat)
    requires PositionsIncrease(log)
    ensures forall e :: e in Matching(log, cursor) <==>
              && e in log && e.eventType == RunQueued && e.globalPosition.Some? && e.globalPosition.value <= cursor
              && e.source == RuntimeSource && e.streamId.RunStream?
    ensures forall i, j :: 0 <= i < j < |Matching(log, cursor)| ==>
              Position(Matching(log, cursor)[i]) < Position(Matching(log, cursor)[j])
  {
    CandidatesPositions(log, cursor);
    CandidatesMembers(log, cursor);
    KeptMembers(Candidates(log, cursor));
  }

  /** A window shows the newest matching runs, in order and without a gap; without the flag it shows them all. */
  lemma WindowIsNewestSuffix(log: seq<Event>, limit: nat, w: Window)
    requires PositionsIncrease(log) && Shows(log, limit, w)
    ensures |w.queued| <= limit && |w.queued| <= |Matching(log, w.cursor)|
    ensures w.queued == Matching(log, w.cursor)[|Matching(log, w.cursor)| - |w.queued|..]
    ensures !w.hasOlder ==> w.queued == Matching(log, w.cursor)
  {
    var all, rows := Matching(log, w.cursor), Reachable(log, w.cursor);
    var m := Smaller(limit, |Kept(rows)|);
    NewestKept(log, w.cursor, |rows|, m);
    ReverseLength(Kept(rows)[..m]);
    CandidatesPositions(log, w.cursor);
    if !w.hasOlder {
      assert rows == Newest(log, w.cursor)[..|rows|];
      NothingBelowFirst(log, w.cursor);
    }
  }

  /** A scan that is not cut off reaches every candidate. */
  lemma NothingBelowFirst(log: seq<Event>, cursor: nat)
    requires PositionsIncrease(log) && !ScanCutOff(log, cursor)
    ensures |Reachable(log, cursor)| == |Newest(log, cursor)|
  {
    if |Newest(log, cursor)| >= MAX_RUN_QUERY_SCAN_EVENTS {
      PageDone(log, cursor, MAX_RUN_QUERY_SCAN_EVENTS);
    }
  }

  /** The newest `m` kept rows, turned round, are the last `m` of the matching runs. */
  lemma NewestKept(log: seq<Event>, cursor: nat, n: nat, m: nat)
    requires n <= |Newest(log, cursor)| && m <= |Kept(Newest(log, cursor)[..n])|
    ensures var all, kept := Matching(log, cursor), Kept(Newest(log, cursor)[..n]);
            && |kept| <= |all|
            && (n == |Newest(log, cursor)| ==> |kept| == |all|)
            && Reverse(kept[..m]) == all[|all| - m..]
  {
    var rows, all := Newest(log, cursor), Matching(log, cursor);
    KeptReverse(Candidates(log, cursor));
    KeptPrefix(rows, n, |rows|);
    WholePrefix(rows);
    ReverseLength(all);
    PrefixAgrees(Kept(rows[..n]), Reverse(all), m);
    ReverseTwice(all, m);
  }

  lemma {:induction false} ReverseLength(es: seq<Event>)
    ensures |Reverse(es)| == |es|
  {
    if es != [] {
      ReverseLength(es[..|es| - 1]);
    }
  }

  /**
   Exactly when a window claims older runs and shows every matching run all the same:
   they all fit, none lies out of reach, and the scan was cut off.
   */
  lemma OlderFlaggedForNothingExactly(log: seq<Event>, limit: nat, w: Window)
    requires PositionsIncrease(log) && Shows(log, limit, w)
    ensures w.hasOlder && w.queued == Matching(log, w.cursor)
            <==> && ScanCutOff(log, w.cursor)
                 && |Matching(log, w.cursor)| == |Kept(Reachable(log, w.cursor))| <= limit
  {
    var all, rows := Matching(log, w.cursor), Reachable(log, w.cursor);
    WindowIsNewestSuffix(log, limit, w);
    NewestKept(log, w.cursor, |rows|, 0);
    assert rows == Newest(log, w.cursor)[..|rows|];
    ReverseLength(Kept(rows)[..Smaller(limit, |Kept(rows)|)]);
    assert |w.queued| == |all| ==> w.queued == all;
  }

  /** A ledger of one unrelated event followed by `n` queued by another source. */
  function Foreign(n: nat): seq<Event> {
    if n == 0 then [ForeignEvent(OtherType(Raw("noted")), 1)]
    else Foreign(n - 1) + [ForeignEvent(RunQueued, n + 1)]
  }

  function ForeignEvent(t: EventType, position: nat): Event {
    Event(Iso(Time(position, 0), 0), NamedStream(Raw("s")), position, t, 1, 0, 0, Raw("c"), None, Raw("a"),
          OtherSource(Raw("o")), Null, None, Some(position))
  }

  lemma {:induction false} ForeignPositions(n: nat)
    ensures |Foreign(n)| == n + 1 && Last(Foreign(n)) == n + 1 && PositionsIncrease(Foreign(n))
    ensures forall i :: 0 <= i <= n ==> Foreign(n)[i].globalPosition == Some(i + 1)
  {
    if n > 0 {
      ForeignPositions(n - 1);
    }
  }

  lemma {:induction false} ForeignRows(n: nat, through: nat)
    requires through >= n + 1
    ensures |Candidates(Foreign(n), through)| == n && Kept(Candidates(Foreign(n), through)) == []
    ensures n > 0 ==> Position(Candidates(Foreign(n), through)[0]) == 2
  {
    if n == 0 {
      assert Foreign(0)[..0] == [];
      assert Candidates(Foreign(0), through) == Candidates([], through);
    } else {
      ForeignRows(n - 1, through);
      var es, e := Candidates(Foreign(n - 1), through), ForeignEvent(RunQueued, n + 1);
      assert Foreign(n) == Foreign(n - 1) + [e];
      assert Foreign(n)[..|Foreign(n)| - 1] == Foreign(n - 1);
      assert Candidates(Foreign(n), through) == es + [e];
      FrontOfPush(es, e);
    }
  }

  const FOREIGN_STREAM := NamedStream(Raw("s"))

  function ForeignLedger(n: nat): Ledger {
    Ledger(Foreign(n), map[FOREIGN_STREAM := n + 1])
  }

  lemma {:induction false} ForeignEvents(n: nat)
    ensures |Foreign(n)| == n + 1
    ensures forall i :: 0 <= i <= n ==>
      Foreign(n)[i] == ForeignEvent(if i == 0 then OtherType(Raw("noted")) else RunQueued, i + 1)
  {
    if n > 0 {
      ForeignEvents(n - 1);
    }
  }

  lemma {:induction false} ForeignOnStream(n: nat, s: StreamId)
    ensures OnStream(Foreign(n), s) == if s == FOREIGN_STREAM then Foreign(n) else []
  {
    ForeignEvents(n);
    if n > 0 {
      ForeignOnStream(n - 1, s);
      assert Foreign(n)[..n] == Foreign(n - 1);
    } else {
      OnStreamConcat([], Foreign(0), s);
      assert Foreign(0)[..0] == [];
    }
  }

  /** What every event of such a ledger looks like, as far as the table constraints go. */
  ghost predicate Plain(es: seq<Event>) {
    forall i :: 0 <= i < |es| ==>
      && es[i].eventId == Iso(Time(i + 1, 0), 0) && es[i].streamSequence == i + 1
      && es[i].idempotencyKey.None? && es[i].causationId.None?
  }

  lemma PlainRowsValid(es: seq<Event>)
    requires Plain(es) && PositionsIncrease(es)
    ensures RowsValid(es) && Numbered(es)
  {
  }

  /** Such a ledger keeps every table invariant. */
  lemma ForeignValid(n: nat)
    ensures Valid(ForeignLedger(n))
  {
    ForeignPositions(n);
    ForeignPlain(n);
    PlainRowsValid(Foreign(n));
    forall s ensures StreamValid(ForeignLedger(n), s) {
      ForeignStreamValid(n, s);
    }
  }

  lemma {:induction false} ForeignPlain(n: nat)
    ensures |Foreign(n)| == n + 1 && Plain(Foreign(n))
  {
    ForeignEvents(n);
  }

  lemma {:induction false} ForeignStreamValid(n: nat, s: StreamId)
    requires |Foreign(n)| == n + 1 && Numbered(Foreign(n))
    ensures StreamValid(ForeignLedger(n), s)
  {
    ForeignOnStream(n, s);
  }

  /** With a thousand candidates that are no run of this runtime, the window is empty and still claims older runs. */
  lemma OlderFlaggedForNothing(limit: nat, w: Window)
    requires 1 <= limit <= MAX_RUN_QUERY_PAGE_SIZE
    requires w.cursor == Last(Foreign(MAX_RUN_QUERY_SCAN_EVENTS)) && Shows(Foreign(MAX_RUN_QUERY_SCAN_EVENTS), limit, w)
    ensures Valid(ForeignLedger(MAX_RUN_QUERY_SCAN_EVENTS))
    ensures w.hasOlder && w.queued == [] && Matching(Foreign(MAX_RUN_QUERY_SCAN_EVENTS), w.cursor) == []
  {
    ForeignValid(MAX_RUN_QUERY_SCAN_EVENTS);
    var log := Foreign(MAX_RUN_QUERY_SCAN_EVENTS);
    ForeignPositions(MAX_RUN_QUERY_SCAN_EVENTS);
    ForeignRows(MAX_RUN_QUERY_SCAN_EVENTS, MAX_RUN_QUERY_SCAN_EVENTS + 1);
    ReverseAt(Candidates(log, w.cursor), MAX_RUN_QUERY_SCAN_EVENTS - 1);
    assert Newest(log, w.cursor)[MAX_RUN_QUERY_SCAN_EVENTS - 1] == Candidates(log, w.cursor)[0];
    WindowIsNewestSuffix(log, limit, w);
  }
}
