/** The order in which reviews are listed and reported: that of their first claims. */
module ReviewOrder {
  import opened Wrappers
  import opened Sequences
  import opened Values
  import opened Events
  import opened Ledgers
  import opened ReviewLifecycle
  import opened ReviewRuntime
  import opened ReviewProtocol
  import opened ReviewService
  import opened ReconcileLaws

  /** Row `i` is a claim of `run`. */
  predicate ClaimAt(log: seq<Event>, run: Text, i: nat) {
    i < |log| && log[i].eventType == ReviewClaimed && log[i].streamId == ReviewStream(run)
  }

  ghost predicate FirstClaimAt(log: seq<Event>, run: Text, i: nat) {
    ClaimAt(log, run, i) && forall k :: 0 <= k < i ==> !ClaimAt(log, run, k)
  }

  /** Whoever is listed before another was claimed for the first time before it. */
  ghost predicate InClaimOrder(log: seq<Event>, runs: seq<Text>) {
    forall i, j, p, q :: 0 <= i < j < |runs| && FirstClaimAt(log, runs[i], p) && FirstClaimAt(log, runs[j], q) ==> p < q
  }

  lemma {:induction false} FirstClaimOfFront(log: seq<Event>, e: Event, run: Text, p: nat)
    requires FirstClaimAt(log + [e], run, p) && p < |log|
    ensures FirstClaimAt(log, run, p)
  {
    assert forall k :: 0 <= k < |log| ==> (log + [e])[k] == log[k];
    forall k | 0 <= k < p ensures !ClaimAt(log, run, k) {
      assert !ClaimAt(log + [e], run, k);
    }
  }

  /** A run listed so far has been claimed so far. */
  lemma {:induction false} ListedIsClaimed(log: seq<Event>, e: Event, run: Text, p: nat)
    requires run in ReviewRuns(log) && FirstClaimAt(log + [e], run, p)
    ensures p < |log|
  {
    RunsListed(log);
    var d :| d in log && d.eventType == ReviewClaimed && d.streamId == ReviewStream(run);
    var k :| 0 <= k < |log| && log[k] == d;
    assert ClaimAt(log + [e], run, k);
  }

  lemma {:induction false} OrderPush(log: seq<Event>, e: Event, runs: seq<Text>)
    requires InClaimOrder(log, runs) && forall run :: run in runs ==> run in ReviewRuns(log)
    ensures InClaimOrder(log + [e], runs)
    ensures forall run :: run !in ReviewRuns(log) ==> InClaimOrder(log + [e], runs + [run])
  {
    var all := log + [e];
    forall i, j, p, q | 0 <= i < j < |runs| && FirstClaimAt(all, runs[i], p) && FirstClaimAt(all, runs[j], q)
      ensures p < q
    {
      ListedIsClaimed(log, e, runs[i], p);
      ListedIsClaimed(log, e, runs[j], q);
      FirstClaimOfFront(log, e, runs[i], p);
      FirstClaimOfFront(log, e, runs[j], q);
    }
    forall run | run !in ReviewRuns(log) ensures InClaimOrder(log + [e], runs + [run]) {
      NewRunLast(log, e, runs, run);
    }
  }

  lemma {:induction false} NewRunLast(log: seq<Event>, e: Event, runs: seq<Text>, run: Text)
    requires InClaimOrder(log + [e], runs) && forall other :: other in runs ==> other in ReviewRuns(log)
    requires run !in ReviewRuns(log)
    ensures InClaimOrder(log + [e], runs + [run])
  {
    var more, all := runs + [run], log + [e];
    forall i, j, p, q | 0 <= i < j < |more| && FirstClaimAt(all, more[i], p) && FirstClaimAt(all, more[j], q)
      ensures p < q
    {
      assert more[i] == runs[i];
      if j < |runs| {
        assert more[j] == runs[j];
      } else {
        ListedIsClaimed(log, e, runs[i], p);
        NotListedYet(log, e, run, q);
      }
    }
  }

  lemma {:induction false} NotListedYet(log: seq<Event>, e: Event, run: Text, q: nat)
    requires run !in ReviewRuns(log) && FirstClaimAt(log + [e], run, q)
    ensures q == |log|
  {
    RunsListed(log);
    forall k | 0 <= k < |log| ensures !ClaimAt(log + [e], run, k) {
      assert log[k] in log && (log + [e])[k] == log[k];
    }
  }

  /** The listing is in the order of first claims. */
  lemma {:induction false} RunsInOrder(log: seq<Event>)
    ensures InClaimOrder(log, ReviewRuns(log))
  {
    if log != [] {
      var front, e := log[..|log| - 1], log[|log| - 1];
      RunsInOrder(front);
      SplitLast(log);
      OrderPush(front, e, ReviewRuns(front));
    }
  }

  // ---------------------------------------------------------------- the report

  /** Those of `runs` with a status, in their order. */
  lemma {:induction false} WithStatusInOrder(log: seq<Event>, base: seq<Event>, runs: seq<Text>,
                                             status: LifecycleStatus)
    requires InClaimOrder(base, runs)
    ensures InClaimOrder(base, WithStatus(log, runs, status))
  {
    if runs != [] {
      var front, last := runs[..|runs| - 1], runs[|runs| - 1];
      SplitLast(runs);
      assert forall i :: 0 <= i < |front| ==> runs[i] == front[i];
      WithStatusInOrder(log, base, front, status);
      WithStatusPush(log, base, front, last, status);
    }
  }

  lemma {:induction false} WithStatusFrom(log: seq<Event>, runs: seq<Text>, status: LifecycleStatus, run: Text)
    requires run in WithStatus(log, runs, status)
    ensures run in runs
  {
    if run in WithStatus(log, runs[..|runs| - 1], status) {
      WithStatusFrom(log, runs[..|runs| - 1], status, run);
    }
  }

  lemma {:induction false} WithStatusPush(log: seq<Event>, base: seq<Event>, front: seq<Text>, last: Text,
                                          status: LifecycleStatus)
    requires InClaimOrder(base, front + [last]) && InClaimOrder(base, WithStatus(log, front, status))
    ensures InClaimOrder(base, WithStatus(log, front, status) + [last])
  {
    var kept := WithStatus(log, front, status);
    var more, runs := kept + [last], front + [last];
    forall i, j, p, q | 0 <= i < j < |more| && FirstClaimAt(base, more[i], p) && FirstClaimAt(base, more[j], q)
      ensures p < q
    {
      assert more[i] == kept[i];
      if j < |kept| {
        assert more[j] == kept[j];
      } else {
        WithStatusFrom(log, front, status, kept[i]);
        var k :| 0 <= k < |front| && front[k] == kept[i];
        assert runs[k] == kept[i] && runs[|front|] == last;
      }
    }
  }

  /** Both lists of the report are in the order of first claims. */
  lemma {:induction false} ReportInOrder(L: Ledger, principal: Text, stamps: Text -> Stamp)
    requires InOrder(L) && !ReconcileRuns(L, ReviewRuns(L.log), principal, stamps).failed
    ensures var p := ReconcileRuns(L, ReviewRuns(L.log), principal, stamps);
            InClaimOrder(L.log, p.requeued) && InClaimOrder(L.log, p.ambiguous)
  {
    RunsInOrder(L.log);
    ReconcileCloses(L, principal, stamps, Raw(""));
    WithStatusInOrder(L.log, L.log, ReviewRuns(L.log), Claimed);
    WithStatusInOrder(L.log, L.log, ReviewRuns(L.log), ProviderDispatched);
  }
}
