/** What every reported attempt satisfies, success or failure. */
module AttemptLaws {
  import opened Wrappers
  import opened AttemptBudget

  predicate IsSuccess(a: Attempt) {
    a.Evidence? && a.failure.None?
  }

  // ---------------------------------------------------------------- the check loop

  /**
   What holds after any checks: starts are timely; an open loop has started them all
   within the limit; the charge is exactly what the started checks took, at least that
   when the clock failed, and over the limit only as exhausted.
   */
  ghost predicate LoopKept(runs: seq<CheckRun>, spentMs: nat, limits: Limits, loop: Loop) {
    && |loop.started| <= |runs|
    && (loop.gate.Open? ==>
          |loop.started| == |runs| && loop.latencyMs == spentMs + Charged(runs) <= limits.latencyMs
          && (loop.passed <==> AllPass(runs)) && (runs != [] ==> spentMs < limits.latencyMs))
    && loop.latencyMs >= spentMs + Charged(runs[..|loop.started|])
    && (loop.gate != Stop(ClockInvalid) ==> loop.latencyMs == spentMs + Charged(runs[..|loop.started|]))
    && (loop.latencyMs > limits.latencyMs ==> loop.gate == Stop(BudgetExhausted))
  }

  lemma {:induction false} LoopLaws(runs: seq<CheckRun>, spentMs: nat, limits: Limits, canceled: nat -> bool, poll: nat)
    requires spentMs <= limits.latencyMs
    ensures LoopKept(runs, spentMs, limits, LoopOf(runs, spentMs, limits, canceled, poll))
  {
    if runs != [] {
      var front, last := runs[..|runs| - 1], runs[|runs| - 1];
      LoopLaws(front, spentMs, limits, canceled, poll);
      TurnLaws(front, last, spentMs, limits, LoopOf(front, spentMs, limits, canceled, poll), canceled,
               poll + 2 * |front|);
      StoppedStays(front, last, spentMs, limits, LoopOf(front, spentMs, limits, canceled, poll));
      assert runs == front + [last];
    }
  }

  lemma StoppedStays(front: seq<CheckRun>, last: CheckRun, spentMs: nat, limits: Limits, loop: Loop)
    requires LoopKept(front, spentMs, limits, loop)
    ensures !loop.gate.Open? ==> LoopKept(front + [last], spentMs, limits, loop)
  {
    assert (front + [last])[..|loop.started|] == front[..|loop.started|];
  }

  lemma TurnLaws(front: seq<CheckRun>, last: CheckRun, spentMs: nat, limits: Limits, before: Loop,
                 canceled: nat -> bool, poll: nat)
    requires LoopKept(front, spentMs, limits, before) && spentMs <= limits.latencyMs
    ensures before.gate.Open? ==> LoopKept(front + [last], spentMs, limits, Turn(before, last, limits, canceled, poll))
  {
    var runs := front + [last];
    assert runs[..|front|] == front && runs[..|runs|] == runs && front[..|front|] == front;
    assert forall i :: 0 <= i < |front| ==> runs[i] == front[i];
    assert runs[|front|] == last;
    assert AllPass(runs) <==> AllPass(front) && CheckPassed(last);
  }

  lemma {:induction false} StartsTimely(runs: seq<CheckRun>, spentMs: nat, limits: Limits, canceled: nat -> bool,
                                        poll: nat)
    requires 1 <= limits.policySeconds && 1 <= limits.authoritySeconds
    ensures AllTimely(LoopOf(runs, spentMs, limits, canceled, poll).started, limits)
  {
    if runs != [] {
      StartsTimely(runs[..|runs| - 1], spentMs, limits, canceled, poll);
    }
  }

  // ---------------------------------------------------------------- a loop that succeeds

  /** Check `i` starts with latency left, stays within the limit, passes and is recorded. */
  predicate GoesWell(runs: seq<CheckRun>, i: nat, spentMs: nat, limitMs: nat)
    requires i < |runs|
  {
    && spentMs + Charged(runs[..i]) < limitMs
    && ClockServes(runs[i]) && spentMs + Charged(runs[..i + 1]) <= limitMs
    && runs[i].runner.Ran? && runs[i].runner.wellFormed && runs[i].runner.passed && runs[i].stored.Returned?
  }

  ghost predicate AllGoWell(runs: seq<CheckRun>, spentMs: nat, limitMs: nat) {
    forall i :: 0 <= i < |runs| ==> GoesWell(runs, i, spentMs, limitMs)
  }

  /** No poll from `from` on and before `to` finds the attempt canceled. */
  ghost predicate NeverCanceled(canceled: nat -> bool, from: nat, to: nat) {
    forall k: nat :: from <= k < to ==> !canceled(k)
  }

  lemma AllGoWellPush(runs: seq<CheckRun>, last: CheckRun, spentMs: nat, limitMs: nat)
    ensures AllGoWell(runs + [last], spentMs, limitMs)
            <==> AllGoWell(runs, spentMs, limitMs) && GoesWell(runs + [last], |runs|, spentMs, limitMs)
  {
    var all := runs + [last];
    forall i | 0 <= i < |runs| ensures GoesWell(all, i, spentMs, limitMs) == GoesWell(runs, i, spentMs, limitMs) {
      assert all[..i] == runs[..i] && all[..i + 1] == runs[..i + 1];
    }
  }

  /** One turn goes through with a pass exactly when its check goes well and neither of its polls finds it canceled. */
  lemma {:induction false} TurnSucceedsExactly(front: seq<CheckRun>, last: CheckRun, spentMs: nat, limits: Limits,
                                               before: Loop, canceled: nat -> bool, poll: nat)
    requires before.gate.Open? && before.passed && before.latencyMs == spentMs + Charged(front)
    ensures var after := Turn(before, last, limits, canceled, poll);
            after.gate.Open? && after.passed
            <==> GoesWell(front + [last], |front|, spentMs, limits.latencyMs) && !canceled(poll) && !canceled(poll + 1)
  {
    var runs := front + [last];
    assert runs[..|front|] == front && runs[..|front| + 1] == runs && runs[..|runs| - 1] == front;
  }

  /** The loop ends open with every check passed exactly when every check goes well and it is never canceled. */
  lemma {:induction false} LoopSucceedsExactly(runs: seq<CheckRun>, spentMs: nat, limits: Limits, canceled: nat -> bool,
                                               poll: nat)
    requires spentMs <= limits.latencyMs
    ensures var loop := LoopOf(runs, spentMs, limits, canceled, poll);
            loop.gate.Open? && loop.passed
            <==> AllGoWell(runs, spentMs, limits.latencyMs) && NeverCanceled(canceled, poll, poll + 2 * |runs|)
  {
    if runs != [] {
      var front, last := runs[..|runs| - 1], runs[|runs| - 1];
      var before := LoopOf(front, spentMs, limits, canceled, poll);
      assert runs == front + [last];
      LoopSucceedsExactly(front, spentMs, limits, canceled, poll);
      LoopLaws(front, spentMs, limits, canceled, poll);
      AllGoWellPush(front, last, spentMs, limits.latencyMs);
      TwoPolls(canceled, poll, poll + 2 * |front|);
      if before.gate.Open? && before.passed {
        TurnSucceedsExactly(front, last, spentMs, limits, before, canceled, poll + 2 * |front|);
      }
    }
  }

  lemma TwoPolls(canceled: nat -> bool, from: nat, to: nat)
    requires from <= to
    ensures NeverCanceled(canceled, from, to + 2)
            <==> NeverCanceled(canceled, from, to) && !canceled(to) && !canceled(to + 1)
  {
  }

  // ---------------------------------------------------------------- the change

  /** Whatever gets past the provider part fits the call budget; what does not fit is stopped as exhausted. */
  lemma ChangeFits(o: Order, script: Script, canceled: nat -> bool)
    ensures var used := ChangeUsage(o, script, canceled);
            && (used.latencyMs > LatencyLimit(o.authority, o.remaining) ==>
                  ChangeGate(o, script, canceled) == Stop(BudgetExhausted))
            && (ChangeGate(o, script, canceled).Open? ==>
                  if o.MayWrite() then
                    script.provider.proposal.Returned? && used == script.provider.proposal.value.usage
                    && !Overdraws(used, CallBudget(o.policy, o.authority, o.remaining))
                    && CallAllowed(o.policy, o.authority, o.remaining)
                  else used == NOTHING_USED)
  {
  }

  predicate Prepared(o: Order, script: Script) {
    && script.baseRetained.Returned? && script.created.Returned?
    && script.priorPaths.Returned? && |script.priorPaths.value| <= PathLimit(o.policy, o.authority)
  }

  /** The provider may be called, answers within the call budget and the path limit, and its answer is applied. */
  predicate Proposed(o: Order, script: Script) {
    var run := script.provider;
    && CallAllowed(o.policy, o.authority, o.remaining)
    && run.context.Returned? && run.proposal.Returned?
    && !Overdraws(run.proposal.value.usage, CallBudget(o.policy, o.authority, o.remaining))
    && script.priorPaths.Returned?
    && |script.priorPaths.value + run.proposal.value.paths| <= PathLimit(o.policy, o.authority)
    && run.proposalStored.Returned? && run.applied.Returned?
  }

  predicate Committed(o: Order, script: Script) {
    script.committed.Returned? && |script.committed.value| <= PathLimit(o.policy, o.authority)
  }

  lemma ChangeOpensExactly(o: Order, script: Script, canceled: nat -> bool)
    ensures ChangeGate(o, script, canceled).Open?
            <==> && Prepared(o, script) && (o.MayWrite() ==> Proposed(o, script)) && Committed(o, script)
                 && NeverCanceled(canceled, 1, CommitPoll(o) + 1)
  {
    assert NeverCanceled(canceled, 1, CommitPoll(o) + 1)
      <==> !canceled(1) && !canceled(2) && (o.MayWrite() ==> !canceled(3) && !canceled(4));
  }

  // ---------------------------------------------------------------- a successful attempt

  /** What the provider says its answer took. */
  function AnswerMs(o: Order, script: Script): nat {
    if o.MayWrite() && script.provider.proposal.Returned? then script.provider.proposal.value.usage.latencyMs else 0
  }

  /** The worktree is clean, is removed when that is the policy, and the outcome is recorded. */
  predicate Closed(o: Order, script: Script) {
    && script.clean == Returned(true) && (o.policy.removesSuccessful ==> script.removed.Returned?)
    && script.recorded.Returned?
  }

  /**
   Exactly when an attempt is reported as a success: the policy allows it, no poll finds it
   canceled, every call it makes answers, paths and provider usage fit their limits, and
   every check starts and ends within the latency that is left, passes and is recorded.
   */
  lemma SuccessExactly(o: Order, script: Script, canceled: nat -> bool)
    ensures IsSuccess(AttemptOf(o, script, canceled))
            <==> && o.PolicyAllows() && NeverCanceled(canceled, 0, CommitPoll(o) + 1 + 2 * |script.checks|)
                 && Prepared(o, script) && (o.MayWrite() ==> Proposed(o, script)) && Committed(o, script)
                 && AllGoWell(script.checks, AnswerMs(o, script), LatencyLimit(o.authority, o.remaining))
                 && Closed(o, script)
  {
    SuccessByGates(o, script, canceled);
    ChangeOpensExactly(o, script, canceled);
    assert NeverCanceled(canceled, 0, CommitPoll(o) + 1 + 2 * |script.checks|)
      <==> && !canceled(0) && NeverCanceled(canceled, 1, CommitPoll(o) + 1)
           && NeverCanceled(canceled, CommitPoll(o) + 1, CommitPoll(o) + 1 + 2 * |script.checks|);
    if ChangeGate(o, script, canceled).Open? {
      ChangeFits(o, script, canceled);
      LoopSucceedsExactly(script.checks, AnswerMs(o, script), LimitsOf(o), canceled, CommitPoll(o) + 1);
    }
  }

  lemma SuccessByGates(o: Order, script: Script, canceled: nat -> bool)
    ensures IsSuccess(AttemptOf(o, script, canceled))
            <==> && o.PolicyAllows() && !canceled(0) && WorkGate(o, script, canceled).Open?
                 && ChecksOf(o, script, canceled).passed && Closed(o, script)
  {
  }

  /** What a reported success guarantees. */
  lemma SuccessWithinBudgets(o: Order, script: Script, canceled: nat -> bool)
    requires OrderValid(o) && IsSuccess(AttemptOf(o, script, canceled))
    ensures var a := AttemptOf(o, script, canceled);
            var change := if o.MayWrite() && script.provider.proposal.Returned?
                          then script.provider.proposal.value.usage else NOTHING_USED;
            && a.usage == change.(latencyMs := change.latencyMs + Charged(script.checks))
            && a.usage.latencyMs <= o.remaining.latencyMs
            && o.authority.consumed.latencyMs + a.usage.latencyMs <= o.authority.budget.latencyMs
            && (o.MayWrite() ==>
                  script.provider.proposal.Returned? && CallAllowed(o.policy, o.authority, o.remaining)
                  && !Overdraws(change, CallBudget(o.policy, o.authority, o.remaining)))
            && script.committed == Returned(a.changed)
            && |a.changed| <= o.policy.maxChangedPaths && |a.changed| <= o.authority.maxChangedPaths
            && AllPass(script.checks) && |a.started| == |script.checks|
            && (script.checks != [] ==> change.latencyMs < LatencyLimit(o.authority, o.remaining))
  {
    SuccessByGates(o, script, canceled);
    ChangeFits(o, script, canceled);
    ChecksLaws(o, script, canceled);
  }

  /** The checks of an attempt, whose change may already have used too much. */
  lemma ChecksLaws(o: Order, script: Script, canceled: nat -> bool)
    ensures ChangeGate(o, script, canceled).Open? ==>
              ChangeUsage(o, script, canceled).latencyMs <= LimitsOf(o).latencyMs
              && LoopKept(script.checks, ChangeUsage(o, script, canceled).latencyMs, LimitsOf(o),
                          ChecksOf(o, script, canceled))
  {
    ChangeFits(o, script, canceled);
    if ChangeGate(o, script, canceled).Open? {
      LoopLaws(script.checks, ChangeUsage(o, script, canceled).latencyMs, LimitsOf(o), canceled, CommitPoll(o) + 1);
    }
  }

  /** Every check of every reported attempt is started in time, and no timeout exceeds the latency left. */
  lemma ChecksStartInTime(o: Order, script: Script, canceled: nat -> bool)
    requires OrderValid(o) && AttemptOf(o, script, canceled).Evidence?
    ensures AllTimely(AttemptOf(o, script, canceled).started, LimitsOf(o))
  {
    StartsTimely(script.checks, ChangeUsage(o, script, canceled).latencyMs, LimitsOf(o), canceled, CommitPoll(o) + 1);
  }

  /** An attempt that stops with more latency than it may use stops as exhausted. */
  lemma OverrunIsExhaustion(o: Order, script: Script, canceled: nat -> bool)
    requires AttemptOf(o, script, canceled).Evidence?
    requires AttemptOf(o, script, canceled).usage.latencyMs > LatencyLimit(o.authority, o.remaining)
    ensures AttemptOf(o, script, canceled).failure == Some(BudgetExhausted)
  {
    ChangeFits(o, script, canceled);
    ChecksLaws(o, script, canceled);
  }

  // ---------------------------------------------------------------- what is spent and what is charged

  /** The provider is called, whatever becomes of the call. */
  predicate CallMade(o: Order, script: Script, canceled: nat -> bool) {
    && o.PolicyAllows() && !canceled(0) && o.MayWrite() && PrepareGate(o, script, canceled).Open?
    && CallAllowed(o.policy, o.authority, o.remaining) && !canceled(2) && script.provider.context.Returned?
  }

  /** What the call takes: what its answer says, or the time until it raises. */
  function CallMs(o: Order, script: Script, canceled: nat -> bool): nat {
    if !CallMade(o, script, canceled) then 0
    else if script.provider.proposal.Returned? then script.provider.proposal.value.usage.latencyMs
    else script.provider.raisedMs
  }

  /** What the checks take that are started. */
  function StartedMs(o: Order, script: Script, canceled: nat -> bool): nat {
    var n := |ChecksOf(o, script, canceled).started|;
    if !o.PolicyAllows() || canceled(0) then 0
    else Charged(if n <= |script.checks| then script.checks[..n] else script.checks)
  }

  /** What an attempt spends, read off its environment and not off its accounts. */
  function SpentMs(o: Order, script: Script, canceled: nat -> bool): nat {
    CallMs(o, script, canceled) + StartedMs(o, script, canceled)
  }

  /** The call, if there is one, answers, and the poll right after the answer does not find it canceled. */
  predicate Accounted(o: Order, script: Script, canceled: nat -> bool) {
    CallMade(o, script, canceled) ==> script.provider.proposal.Returned? && !canceled(3)
  }

  /** A call that is not accounted stops the attempt; its checks are never started. */
  lemma UnaccountedStops(o: Order, script: Script, canceled: nat -> bool)
    requires !Accounted(o, script, canceled)
    ensures !ProviderGate(o, script, canceled).Open? && !ChangeGate(o, script, canceled).Open?
    ensures ChangeUsage(o, script, canceled) == USAGE_UNKNOWN && StartedMs(o, script, canceled) == 0
    ensures AttemptUsage(o, script, canceled) == USAGE_UNKNOWN
  {
  }

  lemma AccountedChange(o: Order, script: Script, canceled: nat -> bool)
    requires Accounted(o, script, canceled) && o.PolicyAllows() && !canceled(0)
    ensures ChangeUsage(o, script, canceled)
            == if CallMade(o, script, canceled) then script.provider.proposal.value.usage else NOTHING_USED
    ensures ChangeUsage(o, script, canceled).latencyMs == CallMs(o, script, canceled)
  {
  }

  /** An accounted attempt is charged what it spends, exactly while its clock serves it and never less. */
  lemma AccountedCharge(o: Order, script: Script, canceled: nat -> bool)
    requires Accounted(o, script, canceled) && AttemptOf(o, script, canceled).Evidence?
    ensures AttemptOf(o, script, canceled).usage.latencyMs >= SpentMs(o, script, canceled)
    ensures AttemptOf(o, script, canceled).failure != Some(ClockInvalid) ==>
              AttemptOf(o, script, canceled).usage.latencyMs == SpentMs(o, script, canceled)
  {
    AccountedChange(o, script, canceled);
    ChecksLaws(o, script, canceled);
  }

  /**
   Exactly when the charge of reported evidence covers what the attempt spent: its call, if
   one was made, answered and was not canceled before its usage was taken over, or cost no time.
   */
  lemma ChargeCoversExactly(o: Order, script: Script, canceled: nat -> bool)
    requires AttemptOf(o, script, canceled).Evidence?
    ensures AttemptOf(o, script, canceled).usage.latencyMs >= SpentMs(o, script, canceled)
            <==> Accounted(o, script, canceled) || CallMs(o, script, canceled) == 0
  {
    EvidenceUsage(o, script, canceled);
    if Accounted(o, script, canceled) {
      AccountedCharge(o, script, canceled);
    } else {
      UnaccountedStops(o, script, canceled);
    }
  }

  lemma EvidenceUsage(o: Order, script: Script, canceled: nat -> bool)
    requires AttemptOf(o, script, canceled).Evidence?
    ensures o.PolicyAllows() && !canceled(0)
    ensures AttemptOf(o, script, canceled).usage == AttemptUsage(o, script, canceled)
  {
  }

  /** Tokens and cost are never charged wrongly: they are the answer's, or nothing without a call, or else unknown. */
  lemma KnownUsageIsTheAnswers(o: Order, script: Script, canceled: nat -> bool)
    requires AttemptOf(o, script, canceled).Evidence?
    ensures var used := AttemptOf(o, script, canceled).usage;
            var spent := if !CallMade(o, script, canceled) then NOTHING_USED
                         else if Accounted(o, script, canceled) then script.provider.proposal.value.usage
                         else USAGE_UNKNOWN;
            used == spent.(latencyMs := used.latencyMs)
  {
    EvidenceUsage(o, script, canceled);
    if Accounted(o, script, canceled) {
      AccountedChange(o, script, canceled);
    } else {
      UnaccountedStops(o, script, canceled);
    }
  }

  const AMPLE := Budget(1000, 1000, 1000, 1000)
  const NONE_USED := Budget(0, 0, 0, 0)

  /** An order to write under ample budgets. */
  const WRITE := Order(
    WRITING, Decision(true, WRITING), Policy(AMPLE, 1, 1, false), Authority(AMPLE, NONE_USED, 1, 1, true), AMPLE)

  const WRITING := Action("run", "plan", "task", 1, ["src"])

  /** An environment in which everything answers, and the provider says it took 900 ms. */
  const ANSWERING := Script(
    Returned(true), Returned(true), Returned({}),
    ProviderRun(Returned(true), Returned(Proposal(Usage(Some(1), Some(1), 900, Some(1)), {})), 0, Returned(true),
                Returned(true)),
    Returned({}), [], Returned(true), Returned(true), Returned(true), true, Returned(true), true, true)

  /** A cancellation that comes while the provider answers: 900 ms are spent and none is charged. */
  lemma DroppedAnswerIsFree(canceled: nat -> bool)
    requires !canceled(0) && !canceled(1) && !canceled(2) && canceled(3)
    ensures AttemptOf(WRITE, ANSWERING, canceled) == Evidence(Some(WasCanceled), USAGE_UNKNOWN, {}, [])
    ensures SpentMs(WRITE, ANSWERING, canceled) == 900
  {
    var call := ANSWERING.provider;
    assert CallBudget(WRITE.policy, WRITE.authority, WRITE.remaining) == AMPLE;
    assert PrepareGate(WRITE, ANSWERING, canceled).Open?;
    assert CallGate(WRITE.policy, WRITE.authority, WRITE.remaining, call, {}, 1, canceled, 2) == Stop(WasCanceled);
    assert !Accounted(WRITE, ANSWERING, canceled);
    UnaccountedStops(WRITE, ANSWERING, canceled);
  }

  // ---------------------------------------------------------------- real time

  ghost predicate AllServed(runs: seq<CheckRun>) {
    forall i :: 0 <= i < |runs| ==> ClockServes(runs[i])
  }

  function ElapsedSeconds(runs: seq<CheckRun>): real
    requires forall i :: 0 <= i < |runs| ==> runs[i].started.Some? && runs[i].finished.Some?
  {
    if runs == [] then 0.0
    else
      ElapsedSeconds(runs[..|runs| - 1]) + (runs[|runs| - 1].finished.value - runs[|runs| - 1].started.value)
  }

  /** The time checks really took is charged in full, and overcharged by at most a millisecond a check. */
  lemma {:induction false} ChargedIsElapsed(runs: seq<CheckRun>)
    requires AllServed(runs)
    ensures ElapsedSeconds(runs) * 1000.0 <= Charged(runs) as real <= ElapsedSeconds(runs) * 1000.0 + |runs| as real
  {
    if runs != [] {
      ChargedIsElapsed(runs[..|runs| - 1]);
    }
  }
}
