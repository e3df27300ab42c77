/**
 Exactly how an attempt ends, in terms of its order, what its environment answers and when it
 is canceled. The attempt is followed point by point; each ending is the first point at which
 something goes wrong, and what that is.
 */
module AttemptFailures {
  import opened Wrappers
  import opened AttemptBudget
  import opened AttemptLaws

  // ---------------------------------------------------------------- what the limits allow

  predicate Allowed(o: Order) {
    o.decision.allowed && o.decision.action == o.action
  }

  predicate Writes(o: Order) {
    o.action.allowedPaths != []
  }

  /** Every earlier use is known, and something is left under all three budgets; a budget without cost needs none. */
  predicate MayCall(o: Order) {
    var policy, left, consumed, total := o.policy.providerBudget, o.remaining, o.authority.consumed, o.authority.budget;
    && o.authority.usageComplete
    && policy.inputTokens > 0 && left.inputTokens > 0 && consumed.inputTokens < total.inputTokens
    && policy.outputTokens > 0 && left.outputTokens > 0 && consumed.outputTokens < total.outputTokens
    && policy.latencyMs > 0 && left.latencyMs > 0 && consumed.latencyMs < total.latencyMs
    && (total.costMicrousd > 0 ==>
          policy.costMicrousd > 0 && left.costMicrousd > 0 && consumed.costMicrousd < total.costMicrousd)
  }

  predicate Fits(amount: nat, policy: nat, left: nat, consumed: nat, total: nat) {
    amount <= policy && amount <= left && consumed + amount <= total
  }

  /** What the answer says it used fits all three budgets; what it does not say does not count. */
  predicate AnswerFits(o: Order, used: Usage) {
    var policy, left, consumed, total := o.policy.providerBudget, o.remaining, o.authority.consumed, o.authority.budget;
    && (used.inputTokens.Some? ==> Fits(used.inputTokens.value, policy.inputTokens, left.inputTokens,
                                        consumed.inputTokens, total.inputTokens))
    && (used.outputTokens.Some? ==> Fits(used.outputTokens.value, policy.outputTokens, left.outputTokens,
                                         consumed.outputTokens, total.outputTokens))
    && Fits(used.latencyMs, policy.latencyMs, left.latencyMs, consumed.latencyMs, total.latencyMs)
    && (used.costMicrousd.Some? ==> Fits(used.costMicrousd.value, policy.costMicrousd, left.costMicrousd,
                                         consumed.costMicrousd, total.costMicrousd))
  }

  predicate PathsFit(o: Order, paths: set<Path>) {
    |paths| <= o.policy.maxChangedPaths && |paths| <= o.authority.maxChangedPaths
  }

  /** After `ms` there is latency left, under the run's budget and under the authority's. */
  predicate TimeLeft(o: Order, ms: nat) {
    ms < o.remaining.latencyMs && o.authority.consumed.latencyMs + ms < o.authority.budget.latencyMs
  }

  predicate InTime(o: Order, ms: nat) {
    ms <= o.remaining.latencyMs && o.authority.consumed.latencyMs + ms <= o.authority.budget.latencyMs
  }

  lemma LimitsMean(o: Order, ms: nat, paths: set<Path>, used: Usage)
    requires OrderValid(o)
    ensures TimeLeft(o, ms) <==> ms < LatencyLimit(o.authority, o.remaining)
    ensures InTime(o, ms) <==> ms <= LatencyLimit(o.authority, o.remaining)
    ensures PathsFit(o, paths) <==> |paths| <= PathLimit(o.policy, o.authority)
    ensures MayCall(o) <==> CallAllowed(o.policy, o.authority, o.remaining)
    ensures AnswerFits(o, used) <==> !Overdraws(used, CallBudget(o.policy, o.authority, o.remaining))
  {
  }

  // ---------------------------------------------------------------- how far the change gets

  predicate Begun(o: Order, canceled: nat -> bool) {
    Allowed(o) && !canceled(0)
  }

  /** The plan's base is retained and the attempt not canceled since. */
  predicate OnBase(o: Order, s: Script, canceled: nat -> bool) {
    Begun(o, canceled) && s.baseRetained.Returned? && !canceled(1)
  }

  predicate InWorktree(o: Order, s: Script, canceled: nat -> bool) {
    OnBase(o, s, canceled) && s.created.Returned?
  }

  /** The paths changed before are known and within the limits. */
  predicate ReadyToWrite(o: Order, s: Script, canceled: nat -> bool) {
    InWorktree(o, s, canceled) && s.priorPaths.Returned? && PathsFit(o, s.priorPaths.value)
  }

  predicate Calling(o: Order, s: Script, canceled: nat -> bool) {
    ReadyToWrite(o, s, canceled) && Writes(o) && MayCall(o) && !canceled(2)
  }

  predicate Asking(o: Order, s: Script, canceled: nat -> bool) {
    Calling(o, s, canceled) && s.provider.context.Returned?
  }

  predicate Answered(o: Order, s: Script, canceled: nat -> bool) {
    Asking(o, s, canceled) && s.provider.proposal.Returned? && !canceled(3)
  }

  predicate Accepted(o: Order, s: Script, canceled: nat -> bool) {
    && Answered(o, s, canceled) && AnswerFits(o, s.provider.proposal.value.usage)
    && PathsFit(o, s.priorPaths.value + s.provider.proposal.value.paths)
  }

  /** The change is in the worktree; a task that writes nothing has none. */
  predicate Changed(o: Order, s: Script, canceled: nat -> bool) {
    if Writes(o) then
      Accepted(o, s, canceled) && s.provider.proposalStored.Returned? && s.provider.applied.Returned?
    else ReadyToWrite(o, s, canceled)
  }

  /** The poll before the commit: the fifth of an attempt that writes, else the third. */
  function PollBefore(o: Order): nat {
    if Writes(o) then 4 else 2
  }

  predicate Committing(o: Order, s: Script, canceled: nat -> bool) {
    Changed(o, s, canceled) && !canceled(PollBefore(o))
  }

  predicate ReadyToCheck(o: Order, s: Script, canceled: nat -> bool) {
    Committing(o, s, canceled) && s.committed.Returned? && PathsFit(o, s.committed.value)
  }

  // ---------------------------------------------------------------- how far the checks get

  /** What has been spent before check `i`. */
  function Before(o: Order, s: Script, i: nat): nat
    requires i <= |s.checks|
  {
    AnswerMs(o, s) + Charged(s.checks[..i])
  }

  /** The first of the two polls of check `i`. */
  function PollAt(o: Order, i: nat): nat {
    PollBefore(o) + 1 + 2 * i
  }

  predicate Starts(o: Order, s: Script, canceled: nat -> bool, i: nat)
    requires i < |s.checks|
  {
    !canceled(PollAt(o, i)) && TimeLeft(o, Before(o, s, i))
  }

  /** Check `i` was started, the clock served it, and it stayed in time. */
  predicate EndsInTime(o: Order, s: Script, canceled: nat -> bool, i: nat)
    requires i < |s.checks|
  {
    Starts(o, s, canceled, i) && ClockServes(s.checks[i]) && InTime(o, Before(o, s, i + 1))
  }

  predicate HasResult(o: Order, s: Script, canceled: nat -> bool, i: nat)
    requires i < |s.checks|
  {
    && EndsInTime(o, s, canceled, i) && s.checks[i].runner.Ran? && !canceled(PollAt(o, i) + 1)
    && s.checks[i].runner.wellFormed
  }

  /** Check `i` is run and its result stored, whether it passed or not. */
  predicate GoesThrough(o: Order, s: Script, canceled: nat -> bool, i: nat)
    requires i < |s.checks|
  {
    HasResult(o, s, canceled, i) && s.checks[i].stored.Returned?
  }

  ghost predicate FirstGoThrough(o: Order, s: Script, canceled: nat -> bool, i: nat)
    requires i <= |s.checks|
  {
    forall j :: 0 <= j < i ==> GoesThrough(o, s, canceled, j)
  }

  /** The change is committed and every check before the `i`-th has gone through. */
  ghost predicate Reaches(o: Order, s: Script, canceled: nat -> bool, i: nat)
    requires i <= |s.checks|
  {
    ReadyToCheck(o, s, canceled) && FirstGoThrough(o, s, canceled, i)
  }

  /** The change and every check go through. */
  ghost predicate WorkDone(o: Order, s: Script, canceled: nat -> bool) {
    Reaches(o, s, canceled, |s.checks|)
  }

  // ---------------------------------------------------------------- what goes wrong

  /** A call that ends badly: with an input or output error, or with another. */
  predicate Bad<T>(r: Reply<T>, io: bool) {
    if io then r.IoError? else r.Failed?
  }

  predicate ChangeCallBad(o: Order, s: Script, canceled: nat -> bool, io: bool) {
    || (Begun(o, canceled) && Bad(s.baseRetained, io))
    || (OnBase(o, s, canceled) && Bad(s.created, io))
    || (InWorktree(o, s, canceled) && Bad(s.priorPaths, io))
    || (Calling(o, s, canceled) && Bad(s.provider.context, io))
    || (Asking(o, s, canceled) && Bad(s.provider.proposal, io))
    || (Accepted(o, s, canceled) && Bad(s.provider.proposalStored, io))
    || (Accepted(o, s, canceled) && s.provider.proposalStored.Returned? && Bad(s.provider.applied, io))
    || (Committing(o, s, canceled) && Bad(s.committed, io))
  }

  predicate CanceledInChange(o: Order, s: Script, canceled: nat -> bool) {
    || (Begun(o, canceled) && s.baseRetained.Returned? && canceled(1))
    || (ReadyToWrite(o, s, canceled) && Writes(o) && MayCall(o) && canceled(2))
    || (Asking(o, s, canceled) && s.provider.proposal.Returned? && canceled(3))
    || (Changed(o, s, canceled) && canceled(PollBefore(o)))
  }

  predicate ProviderExhausted(o: Order, s: Script, canceled: nat -> bool) {
    || (ReadyToWrite(o, s, canceled) && Writes(o) && !MayCall(o))
    || (Answered(o, s, canceled) && !AnswerFits(o, s.provider.proposal.value.usage))
  }

  predicate TooManyPaths(o: Order, s: Script, canceled: nat -> bool) {
    || (InWorktree(o, s, canceled) && s.priorPaths.Returned? && !PathsFit(o, s.priorPaths.value))
    || (Answered(o, s, canceled) && AnswerFits(o, s.provider.proposal.value.usage)
        && !PathsFit(o, s.priorPaths.value + s.provider.proposal.value.paths))
    || (Committing(o, s, canceled) && s.committed.Returned? && !PathsFit(o, s.committed.value))
  }

  /** What goes wrong before the checks. */
  predicate ChangeFails(o: Order, s: Script, canceled: nat -> bool, failure: Failure) {
    match failure
    case WasCanceled => CanceledInChange(o, s, canceled)
    case BudgetExhausted => ProviderExhausted(o, s, canceled)
    case PathLimitExceeded => TooManyPaths(o, s, canceled)
    case CallFailed => ChangeCallBad(o, s, canceled, false)
    case _ => false
  }

  /** What goes wrong with check `i`, once it is reached. */
  predicate CheckFails(o: Order, s: Script, canceled: nat -> bool, i: nat, failure: Failure)
    requires i < |s.checks|
  {
    var run := s.checks[i];
    match failure
    case WasCanceled =>
      canceled(PollAt(o, i)) || (EndsInTime(o, s, canceled, i) && run.runner.Ran? && canceled(PollAt(o, i) + 1))
    case BudgetExhausted =>
      || (!canceled(PollAt(o, i)) && !TimeLeft(o, Before(o, s, i)))
      || (Starts(o, s, canceled, i) && ClockServes(run) && !InTime(o, Before(o, s, i + 1)))
    case ClockInvalid => Starts(o, s, canceled, i) && !ClockServes(run)
    case CheckRunnerFailed => EndsInTime(o, s, canceled, i) && run.runner.RunnerRaised?
    case InvalidCheckResult =>
      EndsInTime(o, s, canceled, i) && run.runner.Ran? && !canceled(PollAt(o, i) + 1) && !run.runner.wellFormed
    case CallFailed => HasResult(o, s, canceled, i) && Bad(run.stored, false)
    case _ => false
  }

  predicate CheckAborts(o: Order, s: Script, canceled: nat -> bool, i: nat)
    requires i < |s.checks|
  {
    HasResult(o, s, canceled, i) && Bad(s.checks[i].stored, true)
  }

  ghost predicate SomeCheckFails(o: Order, s: Script, canceled: nat -> bool, failure: Failure) {
    exists i :: 0 <= i < |s.checks| && Reaches(o, s, canceled, i) && CheckFails(o, s, canceled, i, failure)
  }

  ghost predicate SomeCheckAborts(o: Order, s: Script, canceled: nat -> bool) {
    exists i :: 0 <= i < |s.checks| && Reaches(o, s, canceled, i) && CheckAborts(o, s, canceled, i)
  }

  /** Something is wrong at the end of an attempt whose change and checks went through. */
  predicate ClosesBadly(o: Order, s: Script, passed: bool, io: bool) {
    match s.clean
    case Returned(false) => if s.uncleanRetained then Bad(s.uncleanRecorded, io) else !io
    case Returned(true) =>
      if passed && o.policy.removesSuccessful && !s.removed.Returned? then Bad(s.removed, io) else Bad(s.recorded, io)
    case _ => Bad(s.clean, io)
  }

  ghost predicate CloseFails(o: Order, s: Script, canceled: nat -> bool, io: bool) {
    WorkDone(o, s, canceled) && ClosesBadly(o, s, AllPass(s.checks), io)
  }

  // ---------------------------------------------------------------- the change, point by point

  lemma PreparedExactly(o: Order, s: Script, canceled: nat -> bool)
    requires OrderValid(o) && Begun(o, canceled)
    ensures var gate := PrepareGate(o, s, canceled);
            && (gate.Open? <==> ReadyToWrite(o, s, canceled))
            && (gate == Stop(WasCanceled) <==> s.baseRetained.Returned? && canceled(1))
            && (gate == Stop(PathLimitExceeded) <==>
                  InWorktree(o, s, canceled) && s.priorPaths.Returned? && !PathsFit(o, s.priorPaths.value))
            && (forall io :: gate == (if io then Abort else Stop(CallFailed)) <==> PrepareBad(o, s, canceled, io))
            && (gate.Stop? ==> gate.failure in {WasCanceled, PathLimitExceeded, CallFailed})
  {
  }

  predicate PrepareBad(o: Order, s: Script, canceled: nat -> bool, io: bool) {
    || Bad(s.baseRetained, io)
    || (OnBase(o, s, canceled) && Bad(s.created, io))
    || (InWorktree(o, s, canceled) && Bad(s.priorPaths, io))
  }

  lemma ProvidedExactly(o: Order, s: Script, canceled: nat -> bool)
    requires OrderValid(o) && ReadyToWrite(o, s, canceled) && Writes(o)
    ensures var gate := ProviderGate(o, s, canceled);
            && (gate.Open? <==> Changed(o, s, canceled))
            && (gate == Stop(WasCanceled) <==>
                  (MayCall(o) && canceled(2))
                  || (Asking(o, s, canceled) && s.provider.proposal.Returned? && canceled(3)))
            && (gate == Stop(BudgetExhausted) <==> ProviderExhausted(o, s, canceled))
            && (gate == Stop(PathLimitExceeded) <==>
                  Answered(o, s, canceled) && AnswerFits(o, s.provider.proposal.value.usage)
                  && !PathsFit(o, s.priorPaths.value + s.provider.proposal.value.paths))
            && (forall io :: gate == (if io then Abort else Stop(CallFailed)) <==> ProviderBad(o, s, canceled, io))
            && (gate.Stop? ==> gate.failure in {WasCanceled, BudgetExhausted, PathLimitExceeded, CallFailed})
  {
    if s.provider.proposal.Returned? {
      LimitsMean(o, 0, s.priorPaths.value + s.provider.proposal.value.paths, s.provider.proposal.value.usage);
    }
  }

  predicate ProviderBad(o: Order, s: Script, canceled: nat -> bool, io: bool) {
    || (Calling(o, s, canceled) && Bad(s.provider.context, io))
    || (Asking(o, s, canceled) && Bad(s.provider.proposal, io))
    || (Accepted(o, s, canceled) && Bad(s.provider.proposalStored, io))
    || (Accepted(o, s, canceled) && s.provider.proposalStored.Returned? && Bad(s.provider.applied, io))
  }

  lemma CommittedExactly(o: Order, s: Script, canceled: nat -> bool)
    requires OrderValid(o) && Changed(o, s, canceled)
    ensures var gate := CommitGate(o, s, canceled);
            && (gate.Open? <==> ReadyToCheck(o, s, canceled))
            && (gate == Stop(WasCanceled) <==> canceled(PollBefore(o)))
            && (gate == Stop(PathLimitExceeded) <==>
                  Committing(o, s, canceled) && s.committed.Returned? && !PathsFit(o, s.committed.value))
            && (forall io :: gate == (if io then Abort else Stop(CallFailed)) <==>
                               Committing(o, s, canceled) && Bad(s.committed, io))
            && (gate.Stop? ==> gate.failure in {WasCanceled, PathLimitExceeded, CallFailed})
  {
  }

  /** The gate before the checks opens exactly for a change that goes through, and ends as it does otherwise. */
  predicate ChangeEndsAs(o: Order, s: Script, canceled: nat -> bool, failure: Failure) {
    var gate := ChangeGate(o, s, canceled);
    && (gate.Open? <==> ReadyToCheck(o, s, canceled))
    && (gate == Stop(failure) <==> ChangeFails(o, s, canceled, failure))
    && (gate == Abort <==> ChangeCallBad(o, s, canceled, true))
  }

  lemma ChangeEndsExactly(o: Order, s: Script, canceled: nat -> bool, failure: Failure)
    requires OrderValid(o) && Begun(o, canceled)
    ensures ChangeEndsAs(o, s, canceled, failure)
  {
    PreparedExactly(o, s, canceled);
    if ReadyToWrite(o, s, canceled) {
      if Changed(o, s, canceled) {
        EndsCommitting(o, s, canceled, failure);
      } else {
        EndsWriting(o, s, canceled, failure);
      }
    }
  }

  lemma EndsWriting(o: Order, s: Script, canceled: nat -> bool, failure: Failure)
    requires OrderValid(o) && ReadyToWrite(o, s, canceled) && !Changed(o, s, canceled)
    ensures ChangeEndsAs(o, s, canceled, failure)
  {
    PreparedExactly(o, s, canceled);
    ProvidedExactly(o, s, canceled);
  }

  lemma EndsCommitting(o: Order, s: Script, canceled: nat -> bool, failure: Failure)
    requires OrderValid(o) && ReadyToWrite(o, s, canceled) && Changed(o, s, canceled)
    ensures ChangeEndsAs(o, s, canceled, failure)
  {
    PreparedExactly(o, s, canceled);
    if Writes(o) {
      ProvidedExactly(o, s, canceled);
    }
    CommittedExactly(o, s, canceled);
  }

  // ---------------------------------------------------------------- the checks, one by one

  /** The checks' loop of an attempt whose change went through. */
  function LoopBefore(o: Order, s: Script, canceled: nat -> bool, i: nat): Loop
    requires i <= |s.checks|
  {
    LoopOf(s.checks[..i], AnswerMs(o, s), LimitsOf(o), canceled, PollAt(o, 0))
  }

  /** How a started check ends. */
  lemma RunEndsExactly(run: CheckRun, limitMs: nat, spentMs: nat, canceled: nat -> bool, poll: nat, failure: Failure)
    ensures var gate := RunGate(run, limitMs, spentMs, canceled, poll);
            var inTime := ClockServes(run) && spentMs + ChargeOf(run) <= limitMs;
            var hasResult := inTime && run.runner.Ran? && !canceled(poll) && run.runner.wellFormed;
            && (gate.Open? <==> hasResult && run.stored.Returned?)
            && (gate == Abort <==> hasResult && Bad(run.stored, true))
            && (gate == Stop(failure) <==>
                  match failure
                  case ClockInvalid => !ClockServes(run)
                  case BudgetExhausted => ClockServes(run) && !inTime
                  case CheckRunnerFailed => inTime && run.runner.RunnerRaised?
                  case WasCanceled => inTime && run.runner.Ran? && canceled(poll)
                  case InvalidCheckResult =>
                    inTime && run.runner.Ran? && !canceled(poll) && !run.runner.wellFormed
                  case CallFailed => hasResult && Bad(run.stored, false)
                  case _ => false)
            && (gate.Open? ==> LatencyAfter(run, limitMs, spentMs) == spentMs + ChargeOf(run))
  {
  }

  /** How the `i`-th check ends, from what has been spent before it. */
  lemma TurnEndsExactly(o: Order, s: Script, canceled: nat -> bool, i: nat, before: Loop, failure: Failure)
    requires OrderValid(o) && i < |s.checks| && before.latencyMs == Before(o, s, i)
    ensures var after := Turn(before, s.checks[i], LimitsOf(o), canceled, PollAt(o, i));
            && (after.gate.Open? <==> GoesThrough(o, s, canceled, i))
            && (after.gate == Stop(failure) <==> CheckFails(o, s, canceled, i, failure))
            && (after.gate == Abort <==> CheckAborts(o, s, canceled, i))
            && (after.gate.Open? ==> after.latencyMs == Before(o, s, i + 1))
  {
    TimesMean(o, s, i);
    RunEndsExactly(s.checks[i], LatencyLimit(o.authority, o.remaining), Before(o, s, i), canceled, PollAt(o, i) + 1,
                   failure);
  }

  lemma TimesMean(o: Order, s: Script, i: nat)
    requires OrderValid(o) && i < |s.checks|
    ensures var limit, before := LatencyLimit(o.authority, o.remaining), Before(o, s, i);
            && (TimeLeft(o, before) <==> before < limit)
            && Before(o, s, i + 1) == before + ChargeOf(s.checks[i])
            && (InTime(o, Before(o, s, i + 1)) <==> before + ChargeOf(s.checks[i]) <= limit)
  {
    LimitsMean(o, Before(o, s, i), {}, NOTHING_USED);
    LimitsMean(o, Before(o, s, i + 1), {}, NOTHING_USED);
    SpentThrough(o, s, i);
  }

  lemma SpentThrough(o: Order, s: Script, i: nat)
    requires i < |s.checks|
    ensures Before(o, s, i + 1) == Before(o, s, i) + ChargeOf(s.checks[i])
  {
    Sequences.FrontOfPrefix(s.checks, i);
  }

  lemma LoopContinues(o: Order, s: Script, canceled: nat -> bool, i: nat)
    requires i < |s.checks|
    ensures var before, after := LoopBefore(o, s, canceled, i), LoopBefore(o, s, canceled, i + 1);
            after == if before.gate.Open? then Turn(before, s.checks[i], LimitsOf(o), canceled, PollAt(o, i))
                     else before
  {
    Sequences.FrontOfPrefix(s.checks, i);
  }

  /** The loop stays open exactly as long as the checks go through, and has then spent what they took. */
  lemma {:induction false} LoopOpenExactly(o: Order, s: Script, canceled: nat -> bool, i: nat)
    requires OrderValid(o) && i <= |s.checks|
    ensures LoopBefore(o, s, canceled, i).gate.Open? <==> FirstGoThrough(o, s, canceled, i)
    ensures LoopBefore(o, s, canceled, i).gate.Open? ==> LoopBefore(o, s, canceled, i).latencyMs == Before(o, s, i)
  {
    if i > 0 {
      LoopOpenExactly(o, s, canceled, i - 1);
      LoopContinues(o, s, canceled, i - 1);
      OpenForOneMore(o, s, canceled, i - 1, LoopBefore(o, s, canceled, i - 1), LoopBefore(o, s, canceled, i));
    }
  }

  lemma OpenForOneMore(o: Order, s: Script, canceled: nat -> bool, i: nat, before: Loop, after: Loop)
    requires OrderValid(o) && i < |s.checks|
    requires before.gate.Open? <==> FirstGoThrough(o, s, canceled, i)
    requires before.gate.Open? ==> before.latencyMs == Before(o, s, i)
    requires after == if before.gate.Open? then Turn(before, s.checks[i], LimitsOf(o), canceled, PollAt(o, i))
                      else before
    ensures after.gate.Open? <==> FirstGoThrough(o, s, canceled, i + 1)
    ensures after.gate.Open? ==> after.latencyMs == Before(o, s, i + 1)
  {
    if before.gate.Open? {
      TurnEndsExactly(o, s, canceled, i, before, WasCanceled);
    }
  }

  lemma {:induction false} LoopStays(o: Order, s: Script, canceled: nat -> bool, i: nat, n: nat)
    requires i <= n <= |s.checks| && !LoopBefore(o, s, canceled, i).gate.Open?
    ensures LoopBefore(o, s, canceled, n) == LoopBefore(o, s, canceled, i)
  {
    if i < n {
      LoopStays(o, s, canceled, i, n - 1);
      LoopContinues(o, s, canceled, n - 1);
    }
  }

  /** The loop ends as its first check does that does not go through. */
  lemma LoopEndsAt(o: Order, s: Script, canceled: nat -> bool, i: nat, failure: Failure)
    requires OrderValid(o) && i < |s.checks| && FirstGoThrough(o, s, canceled, i) && !GoesThrough(o, s, canceled, i)
    ensures var gate := LoopBefore(o, s, canceled, |s.checks|).gate;
            && (gate == Stop(failure) <==> CheckFails(o, s, canceled, i, failure))
            && (gate == Abort <==> CheckAborts(o, s, canceled, i))
  {
    LoopOpenExactly(o, s, canceled, i);
    var before := LoopBefore(o, s, canceled, i);
    TurnEndsExactly(o, s, canceled, i, before, failure);
    LoopContinues(o, s, canceled, i);
    LoopStays(o, s, canceled, i + 1, |s.checks|);
  }

  lemma {:induction false} FirstStuck(o: Order, s: Script, canceled: nat -> bool, n: nat) returns (i: nat)
    requires n <= |s.checks| && !FirstGoThrough(o, s, canceled, n)
    ensures i < n && FirstGoThrough(o, s, canceled, i) && !GoesThrough(o, s, canceled, i)
  {
    if FirstGoThrough(o, s, canceled, n - 1) {
      i := n - 1;
    } else {
      i := FirstStuck(o, s, canceled, n - 1);
    }
  }

  lemma CheckFailsStuck(o: Order, s: Script, canceled: nat -> bool, i: nat, failure: Failure)
    requires i < |s.checks|
    ensures CheckFails(o, s, canceled, i, failure) ==> !GoesThrough(o, s, canceled, i)
  {
  }

  lemma FirstIsFirst(o: Order, s: Script, canceled: nat -> bool, i: nat, j: nat)
    requires i < |s.checks| && j < |s.checks|
    requires FirstGoThrough(o, s, canceled, i) && !GoesThrough(o, s, canceled, i)
    requires FirstGoThrough(o, s, canceled, j) && !GoesThrough(o, s, canceled, j)
    ensures i == j
  {
  }

  lemma LoopEndsExactly(o: Order, s: Script, canceled: nat -> bool, failure: Failure)
    requires OrderValid(o) && ReadyToCheck(o, s, canceled)
    ensures var gate := LoopBefore(o, s, canceled, |s.checks|).gate;
            && (gate.Open? <==> WorkDone(o, s, canceled))
            && (gate == Stop(failure) <==> SomeCheckFails(o, s, canceled, failure))
            && (gate == Abort <==> SomeCheckAborts(o, s, canceled))
  {
    LoopOpenExactly(o, s, canceled, |s.checks|);
    if FirstGoThrough(o, s, canceled, |s.checks|) {
      NoneFails(o, s, canceled, failure);
    } else {
      var i := FirstStuck(o, s, canceled, |s.checks|);
      LoopEndsAt(o, s, canceled, i, failure);
      OnlyFails(o, s, canceled, i, failure);
    }
  }

  lemma NoneFails(o: Order, s: Script, canceled: nat -> bool, failure: Failure)
    requires FirstGoThrough(o, s, canceled, |s.checks|)
    ensures !SomeCheckFails(o, s, canceled, failure) && !SomeCheckAborts(o, s, canceled)
  {
    forall i | 0 <= i < |s.checks| ensures !CheckFails(o, s, canceled, i, failure) {
      CheckFailsStuck(o, s, canceled, i, failure);
    }
    forall i | 0 <= i < |s.checks| ensures !CheckAborts(o, s, canceled, i) {
      assert GoesThrough(o, s, canceled, i);
    }
  }

  lemma OnlyFails(o: Order, s: Script, canceled: nat -> bool, i: nat, failure: Failure)
    requires ReadyToCheck(o, s, canceled) && i < |s.checks|
    requires FirstGoThrough(o, s, canceled, i) && !GoesThrough(o, s, canceled, i)
    ensures SomeCheckFails(o, s, canceled, failure) <==> CheckFails(o, s, canceled, i, failure)
    ensures SomeCheckAborts(o, s, canceled) <==> CheckAborts(o, s, canceled, i)
  {
    assert Reaches(o, s, canceled, i);
    forall j | 0 <= j < |s.checks| && Reaches(o, s, canceled, j) && !GoesThrough(o, s, canceled, j) ensures j == i {
      FirstIsFirst(o, s, canceled, i, j);
    }
    forall j | 0 <= j < |s.checks| && CheckFails(o, s, canceled, j, failure)
      ensures !GoesThrough(o, s, canceled, j) {
      CheckFailsStuck(o, s, canceled, j, failure);
    }
    forall j | 0 <= j < |s.checks| && CheckAborts(o, s, canceled, j) ensures !GoesThrough(o, s, canceled, j) {
    }
  }

  // ---------------------------------------------------------------- how an attempt ends

  ghost predicate Reported(a: Attempt, failure: Failure) {
    a.Evidence? && a.failure == Some(failure)
  }

  /** Something goes wrong that `failure` names, at the first point where anything does. */
  ghost predicate Fails(o: Order, s: Script, canceled: nat -> bool, failure: Failure) {
    || ChangeFails(o, s, canceled, failure)
    || SomeCheckFails(o, s, canceled, failure)
    || (failure == CallFailed && CloseFails(o, s, canceled, false))
  }

  lemma WorkEndsExactly(o: Order, s: Script, canceled: nat -> bool, failure: Failure)
    requires OrderValid(o) && Begun(o, canceled)
    ensures var gate := WorkGate(o, s, canceled);
            && (gate.Open? <==> WorkDone(o, s, canceled))
            && (gate == Stop(failure) <==> ChangeFails(o, s, canceled, failure)
                                           || SomeCheckFails(o, s, canceled, failure))
            && (gate == Abort <==> ChangeCallBad(o, s, canceled, true) || SomeCheckAborts(o, s, canceled))
            && (gate.Open? ==> (ChecksOf(o, s, canceled).passed <==> AllPass(s.checks)))
  {
    ChangeEndsExactly(o, s, canceled, failure);
    if ReadyToCheck(o, s, canceled) {
      LoopEndsExactly(o, s, canceled, failure);
      ChecksLaws(o, s, canceled);
      ChecksAreLoop(o, s, canceled);
    }
  }

  /** How an attempt closes whose change and checks went through. */
  lemma CloseExactly(o: Order, s: Script, passed: bool, usage: Usage, changed: set<Path>, started: seq<Started>)
    ensures var a, clean := Close(o, s, passed, usage, changed, started), s.clean == Returned(true);
            var removed := passed && o.policy.removesSuccessful ==> s.removed.Returned?;
            && (IsSuccess(a) <==> clean && passed && removed && s.recorded.Returned?)
            && (Reported(a, ChecksFailed) <==> clean && !passed && s.recorded.Returned?)
            && (Reported(a, WorkspaceNotClean) <==>
                  s.clean == Returned(false) && s.uncleanRetained && s.uncleanRecorded.Returned?)
            && (Reported(a, CallFailed) <==> ClosesBadly(o, s, passed, false) && s.retained && s.failureRecorded)
            && (a.Raised? <==>
                  || ClosesBadly(o, s, passed, true)
                  || (ClosesBadly(o, s, passed, false) && !(s.retained && s.failureRecorded)))
            && (a.Evidence? ==> a.usage == usage && a.changed == changed && a.started == started)
  {
  }

  lemma AttemptByEnds(o: Order, s: Script, canceled: nat -> bool)
    ensures var a, gate, checks := AttemptOf(o, s, canceled), WorkGate(o, s, canceled), ChecksOf(o, s, canceled);
            var usage, changed := AttemptUsage(o, s, canceled), ChangedPaths(o, s, canceled);
            a == if !Begun(o, canceled) || gate.Abort? then Raised
                 else if gate.Open? then Close(o, s, checks.passed, usage, changed, checks.started)
                 else if s.retained && s.failureRecorded then
                   Evidence(Some(gate.failure), usage, changed, checks.started)
                 else Raised
  {
  }

  /** Failed checks are reported exactly when all went through, the worktree is clean, and some check did not pass. */
  lemma ChecksFailedExactly(o: Order, s: Script, canceled: nat -> bool)
    requires OrderValid(o)
    ensures Reported(AttemptOf(o, s, canceled), ChecksFailed)
            <==> && WorkDone(o, s, canceled) && (exists i :: 0 <= i < |s.checks| && !CheckPassed(s.checks[i]))
                 && s.clean == Returned(true) && s.recorded.Returned?
  {
    EndsExactly(o, s, canceled, ChecksFailed);
  }

  /** An unclean worktree is reported exactly when all went through to it, and it is retained and reported at once. */
  lemma UncleanExactly(o: Order, s: Script, canceled: nat -> bool)
    requires OrderValid(o)
    ensures Reported(AttemptOf(o, s, canceled), WorkspaceNotClean)
            <==> && WorkDone(o, s, canceled) && s.clean == Returned(false)
                 && s.uncleanRetained && s.uncleanRecorded.Returned?
  {
    EndsExactly(o, s, canceled, WorkspaceNotClean);
  }

  /** Every other failure is reported exactly when it is the first thing to go wrong, and can be reported. */
  lemma FailureExactly(o: Order, s: Script, canceled: nat -> bool, failure: Failure)
    requires OrderValid(o) && failure != ChecksFailed && failure != WorkspaceNotClean
    ensures Reported(AttemptOf(o, s, canceled), failure)
            <==> Fails(o, s, canceled, failure) && s.retained && s.failureRecorded
  {
    EndsExactly(o, s, canceled, failure);
  }

  /** Every failure at once. */
  lemma EndsExactly(o: Order, s: Script, canceled: nat -> bool, failure: Failure)
    requires OrderValid(o)
    ensures Reported(AttemptOf(o, s, canceled), failure)
            <==> match failure
                 case ChecksFailed =>
                   WorkDone(o, s, canceled) && !AllPass(s.checks) && s.clean == Returned(true) && s.recorded.Returned?
                 case WorkspaceNotClean =>
                   && WorkDone(o, s, canceled) && s.clean == Returned(false)
                   && s.uncleanRetained && s.uncleanRecorded.Returned?
                 case _ => Fails(o, s, canceled, failure) && s.retained && s.failureRecorded
  {
    AttemptByEnds(o, s, canceled);
    var checks := ChecksOf(o, s, canceled);
    CloseExactly(o, s, checks.passed, AttemptUsage(o, s, canceled), ChangedPaths(o, s, canceled), checks.started);
    if Begun(o, canceled) {
      WorkEndsExactly(o, s, canceled, failure);
    }
  }

  /**
   Exactly when an attempt ends without any evidence: it is not allowed or already canceled,
   a call ends with an input or output error, or a failure cannot be reported.
   */
  lemma RaisedExactly(o: Order, s: Script, canceled: nat -> bool)
    requires OrderValid(o)
    ensures AttemptOf(o, s, canceled).Raised?
            <==> || !Begun(o, canceled)
                 || ChangeCallBad(o, s, canceled, true) || SomeCheckAborts(o, s, canceled)
                 || CloseFails(o, s, canceled, true)
                 || (!(s.retained && s.failureRecorded) && exists failure :: Fails(o, s, canceled, failure))
  {
    AttemptByEnds(o, s, canceled);
    var checks, gate := ChecksOf(o, s, canceled), WorkGate(o, s, canceled);
    CloseExactly(o, s, checks.passed, AttemptUsage(o, s, canceled), ChangedPaths(o, s, canceled), checks.started);
    if Begun(o, canceled) {
      forall failure
        ensures Fails(o, s, canceled, failure)
                <==> gate == Stop(failure) || (failure == CallFailed && CloseFails(o, s, canceled, false)) {
        WorkEndsExactly(o, s, canceled, failure);
      }
      WorkEndsExactly(o, s, canceled, CallFailed);
      assert gate.Stop? ==> Fails(o, s, canceled, gate.failure);
      assert CloseFails(o, s, canceled, false) ==> Fails(o, s, canceled, CallFailed);
    }
  }

  /** Evidence names the paths changed since the goal's base exactly when the commit is reached and answers. */
  lemma ChangedExactly(o: Order, s: Script, canceled: nat -> bool)
    requires OrderValid(o) && AttemptOf(o, s, canceled).Evidence?
    ensures AttemptOf(o, s, canceled).changed
            == if Committing(o, s, canceled) && s.committed.Returned? then s.committed.value else {}
  {
    AttemptByEnds(o, s, canceled);
    var checks := ChecksOf(o, s, canceled);
    CloseExactly(o, s, checks.passed, AttemptUsage(o, s, canceled), ChangedPaths(o, s, canceled), checks.started);
    PreparedExactly(o, s, canceled);
    if ReadyToWrite(o, s, canceled) && Writes(o) {
      ProvidedExactly(o, s, canceled);
    }
  }

  // ---------------------------------------------------------------- the checks that are started

  /** The least of what the policy, the authority and the latency that is left allow. */
  predicate LeastTime(o: Order, spentMs: nat, seconds: real) {
    var run, authority := o.remaining.latencyMs - spentMs,
                          o.authority.budget.latencyMs - o.authority.consumed.latencyMs - spentMs;
    && seconds <= o.policy.checkTimeoutSeconds as real && seconds <= o.authority.checkTimeoutSeconds as real
    && seconds <= AsSeconds(run) && seconds <= AsSeconds(authority)
    && (|| seconds == o.policy.checkTimeoutSeconds as real || seconds == o.authority.checkTimeoutSeconds as real
        || seconds == AsSeconds(run) || seconds == AsSeconds(authority))
  }

  /** Check `i` was started after `Before(o, s, i)` milliseconds, with all the time it could have. */
  predicate StartedAs(o: Order, s: Script, i: nat, started: Started)
    requires i < |s.checks|
  {
    started.spentMs == Before(o, s, i) && LeastTime(o, started.spentMs, started.timeoutSeconds)
  }

  ghost predicate AllStartedAs(o: Order, s: Script, started: seq<Started>) {
    |started| <= |s.checks| && forall i :: 0 <= i < |started| ==> StartedAs(o, s, i, started[i])
  }

  lemma {:induction false} LoopStarts(o: Order, s: Script, canceled: nat -> bool, i: nat)
    requires OrderValid(o) && i <= |s.checks|
    ensures AllStartedAs(o, s, LoopBefore(o, s, canceled, i).started)
    ensures |LoopBefore(o, s, canceled, i).started| <= i
    ensures LoopBefore(o, s, canceled, i).gate.Open? ==> |LoopBefore(o, s, canceled, i).started| == i
  {
    if i > 0 {
      LoopStarts(o, s, canceled, i - 1);
      LoopOpenExactly(o, s, canceled, i - 1);
      LoopContinues(o, s, canceled, i - 1);
      var before := LoopBefore(o, s, canceled, i - 1);
      if before.gate.Open? {
        TurnStarts(o, s, canceled, i - 1, before);
      }
    }
  }

  lemma TurnStarts(o: Order, s: Script, canceled: nat -> bool, i: nat, before: Loop)
    requires OrderValid(o) && i < |s.checks| && before.gate.Open? && before.latencyMs == Before(o, s, i)
    requires AllStartedAs(o, s, before.started) && |before.started| == i
    ensures var after := Turn(before, s.checks[i], LimitsOf(o), canceled, PollAt(o, i));
            && AllStartedAs(o, s, after.started) && |after.started| == if Starts(o, s, canceled, i) then i + 1 else i
  {
    LimitsMean(o, Before(o, s, i), {}, NOTHING_USED);
  }

  lemma {:induction false} StartedWhen(o: Order, s: Script, canceled: nat -> bool, i: nat, n: nat)
    requires OrderValid(o) && i < |s.checks| && n <= |s.checks|
    ensures i < |LoopBefore(o, s, canceled, n).started|
            <==> i < n && FirstGoThrough(o, s, canceled, i) && Starts(o, s, canceled, i)
  {
    LoopStarts(o, s, canceled, n);
    if n > i {
      StartedWhen(o, s, canceled, i, n - 1);
      LoopStarts(o, s, canceled, n - 1);
      LoopOpenExactly(o, s, canceled, n - 1);
      LoopContinues(o, s, canceled, n - 1);
      var before := LoopBefore(o, s, canceled, n - 1);
      if before.gate.Open? {
        TurnStarts(o, s, canceled, n - 1, before);
        assert i < n - 1 ==> GoesThrough(o, s, canceled, i);
      }
    }
  }

  /** Which checks were started, after how much latency, and with how much time. */
  lemma StartedExactly(o: Order, s: Script, canceled: nat -> bool, i: nat)
    requires OrderValid(o) && AttemptOf(o, s, canceled).Evidence? && i < |s.checks|
    ensures var started := AttemptOf(o, s, canceled).started;
            && (i < |started| <==> Reaches(o, s, canceled, i) && Starts(o, s, canceled, i))
            && (i < |started| ==> StartedAs(o, s, i, started[i]))
  {
    AttemptByEnds(o, s, canceled);
    var checks := ChecksOf(o, s, canceled);
    CloseExactly(o, s, checks.passed, AttemptUsage(o, s, canceled), ChangedPaths(o, s, canceled), checks.started);
    ChangeEndsExactly(o, s, canceled, CallFailed);
    if ReadyToCheck(o, s, canceled) {
      ChecksAreLoop(o, s, canceled);
      StartedWhen(o, s, canceled, i, |s.checks|);
      LoopStarts(o, s, canceled, |s.checks|);
    }
  }

  lemma ChecksAreLoop(o: Order, s: Script, canceled: nat -> bool)
    requires OrderValid(o) && ReadyToCheck(o, s, canceled)
    ensures ChecksOf(o, s, canceled) == LoopBefore(o, s, canceled, |s.checks|)
  {
    ChangeEndsExactly(o, s, canceled, CallFailed);
    ChangeFits(o, s, canceled);
    Sequences.WholePrefix(s.checks);
  }
}
