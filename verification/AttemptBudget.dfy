/**
 One execution attempt and the budgets it runs under: what it may spend on its
 provider call and its checks, and what a reported success guarantees.

 Everything outside the attempt is an input: what the worktree, the provider, the
 check runner and the artifact store answer, what the clock shows, and the answer
 to each poll for cancellation. Instants are reals in seconds.
 */
module AttemptBudget {
  import opened Wrappers
  import opened Sequences

  datatype Budget = Budget(inputTokens: nat, outputTokens: nat, latencyMs: nat, costMicrousd: nat)

  /** What a call or an attempt used; tokens and cost may be unknown. */
  datatype Usage = Usage(inputTokens: Option<nat>, outputTokens: Option<nat>, latencyMs: nat, costMicrousd: Option<nat>)

  const NOTHING_USED := Usage(Some(0), Some(0), 0, Some(0))
  const USAGE_UNKNOWN := Usage(None, None, 0, None)

  type Path = string

  datatype Authority = Authority(
    budget: Budget, consumed: Budget, checkTimeoutSeconds: nat, maxChangedPaths: nat, usageComplete: bool)

  /** What constructing an authority guarantees. */
  predicate AuthorityValid(a: Authority) {
    && Within(a.consumed, a.budget)
    && 1 <= a.checkTimeoutSeconds <= 600 && a.maxChangedPaths <= 10000
  }

  datatype Policy = Policy(
    providerBudget: Budget, checkTimeoutSeconds: nat, maxChangedPaths: nat, removesSuccessful: bool)

  // ---------------------------------------------------------------- budget arithmetic

  function Min(a: nat, b: nat): nat {
    if b < a then b else a
  }

  function Minus(a: nat, b: nat): nat {
    if a < b then 0 else a - b
  }

  /** `_intersect_budget` */
  function Intersect(a: Budget, b: Budget): Budget {
    Budget(Min(a.inputTokens, b.inputTokens), Min(a.outputTokens, b.outputTokens),
           Min(a.latencyMs, b.latencyMs), Min(a.costMicrousd, b.costMicrousd))
  }

  /** `_subtract_budget` */
  function Subtract(total: Budget, consumed: Budget): Budget {
    Budget(Minus(total.inputTokens, consumed.inputTokens), Minus(total.outputTokens, consumed.outputTokens),
           Minus(total.latencyMs, consumed.latencyMs), Minus(total.costMicrousd, consumed.costMicrousd))
  }

  predicate Within(a: Budget, b: Budget) {
    && a.inputTokens <= b.inputTokens && a.outputTokens <= b.outputTokens
    && a.latencyMs <= b.latencyMs && a.costMicrousd <= b.costMicrousd
  }

  /** `_provider_budget_exhausted` */
  predicate ProviderBudgetExhausted(b: Budget, total: Budget) {
    b.inputTokens == 0 || b.outputTokens == 0 || b.latencyMs == 0 || (total.costMicrousd > 0 && b.costMicrousd == 0)
  }

  /** `_usage_overdraws_budget`: an unknown amount never overdraws. */
  predicate Overdraws(u: Usage, b: Budget) {
    || (u.inputTokens.Some? && u.inputTokens.value > b.inputTokens)
    || (u.outputTokens.Some? && u.outputTokens.value > b.outputTokens)
    || u.latencyMs > b.latencyMs
    || (u.costMicrousd.Some? && u.costMicrousd.value > b.costMicrousd)
  }

  // ---------------------------------------------------------------- elapsed time

  /** `math.ceil` of a non-negative number. */
  function Ceil(r: real): nat
    requires r >= 0.0
  {
    if r.Floor as real == r then r.Floor else r.Floor + 1
  }

  /** `_elapsed_milliseconds`; `None` is its exception. */
  function ElapsedMilliseconds(started: real, finished: real): (ms: Option<nat>)
    ensures ms.Some? <==> started <= finished
    ensures ms.Some? ==> (finished - started) * 1000.0 <= ms.value as real < (finished - started) * 1000.0 + 1.0
  {
    if finished < started then None else Some(Ceil((finished - started) * 1000.0))
  }

  // ---------------------------------------------------------------- the environment

  /** How a call out of the attempt ends; `IoError` is the kind the attempt does not turn into evidence. */
  datatype Reply<T> = Returned(value: T) | Failed | IoError

  /** What one check does when run; a clock sample of `None` is an unusable one. */
  datatype CheckRun = CheckRun(started: Option<real>, finished: Option<real>, runner: RunnerReply, stored: Reply<bool>)

  datatype RunnerReply = Ran(wellFormed: bool, passed: bool) | RunnerRaised

  /** The provider's part; a call that raises has taken `raisedMs` and reports nothing. */
  datatype ProviderRun = ProviderRun(
    context: Reply<bool>, proposal: Reply<Proposal>, raisedMs: nat, proposalStored: Reply<bool>, applied: Reply<bool>)

  datatype Proposal = Proposal(usage: Usage, paths: set<Path>)

  /** How everything outside answers; an unclean worktree is reported on once more when that report fails. */
  datatype Script = Script(
    baseRetained: Reply<bool>, created: Reply<bool>, priorPaths: Reply<set<Path>>,
    provider: ProviderRun, committed: Reply<set<Path>>, checks: seq<CheckRun>,
    clean: Reply<bool>, removed: Reply<bool>, recorded: Reply<bool>,
    uncleanRetained: bool, uncleanRecorded: Reply<bool>, retained: bool, failureRecorded: bool)

  datatype Failure =
    | WasCanceled | BudgetExhausted | PathLimitExceeded | ClockInvalid | CheckRunnerFailed | InvalidCheckResult
    | WorkspaceNotClean | ChecksFailed | CallFailed

  /** One check that was started: the latency spent before it and the timeout it was given. */
  datatype Started = Started(spentMs: nat, timeoutSeconds: real)

  datatype Attempt =
    | Evidence(failure: Option<Failure>, usage: Usage, changed: set<Path>, started: seq<Started>)
    | Raised

  // ---------------------------------------------------------------- gates

  /**
   A gate is one thing an attempt must get past: it opens, it stops the attempt with
   evidence of a failure, or it aborts the attempt without any.
   */
  datatype Gate = Open | Stop(failure: Failure) | Abort

  /** Both gates, in order: the first that does not open decides. */
  function Then(first: Gate, second: Gate): Gate {
    if first.Open? then second else first
  }

  function Unless(blocked: bool, failure: Failure): Gate {
    if blocked then Stop(failure) else Open
  }

  /** A call out of the attempt that answers `r`. */
  function Calls<T>(r: Reply<T>): Gate {
    match r case Returned(_) => Open case Failed => Stop(CallFailed) case IoError => Abort
  }

  /** The `k`-th poll for cancellation. */
  function Polls(canceled: nat -> bool, k: nat): Gate {
    Unless(canceled(k), WasCanceled)
  }

  // ---------------------------------------------------------------- the check loop

  /** The milliseconds the checks take, each rounded up, when the clock serves them. */
  function Charged(runs: seq<CheckRun>): nat {
    if runs == [] then 0
    else Charged(runs[..|runs| - 1]) + ChargeOf(runs[|runs| - 1])
  }

  predicate ClockServes(run: CheckRun) {
    run.started.Some? && run.finished.Some? && run.started.value <= run.finished.value
  }

  function ChargeOf(run: CheckRun): nat {
    if ClockServes(run) then ElapsedMilliseconds(run.started.value, run.finished.value).value else 0
  }

  /**
   The latency after one started check: nothing more when its clock never started, the
   whole limit when the clock failed after that, else what the check took.
   */
  function LatencyAfter(run: CheckRun, limitMs: nat, spentMs: nat): nat {
    if run.started.None? then spentMs
    else if !ClockServes(run) then limitMs
    else spentMs + ChargeOf(run)
  }

  predicate CheckPassed(run: CheckRun) {
    run.runner.Ran? && run.runner.passed
  }

  ghost predicate AllPass(runs: seq<CheckRun>) {
    forall i :: 0 <= i < |runs| ==> CheckPassed(runs[i])
  }

  function AsSeconds(ms: int): real {
    ms as real / 1000.0
  }

  function MinReal(a: real, b: real): real {
    if b < a then b else a
  }

  /** What a started check must get past. */
  function RunGate(run: CheckRun, limitMs: nat, spentMs: nat, canceled: nat -> bool, poll: nat): Gate {
    Then(Unless(!ClockServes(run), ClockInvalid),
    Then(Unless(LatencyAfter(run, limitMs, spentMs) > limitMs, BudgetExhausted),
    Then(Unless(run.runner.RunnerRaised?, CheckRunnerFailed),
    Then(Polls(canceled, poll),
    Then(Unless(run.runner.Ran? && !run.runner.wellFormed, InvalidCheckResult),
         Calls(run.stored))))))
  }

  /** What must hold for a check to start. */
  function StartGate(limitMs: nat, spentMs: nat, canceled: nat -> bool, poll: nat): Gate {
    Then(Polls(canceled, poll), Unless(limitMs <= spentMs, BudgetExhausted))
  }

  /** The limits a task's checks share. */
  datatype Limits = Limits(latencyMs: nat, policySeconds: nat, authoritySeconds: nat)

  function Timeout(limits: Limits, spentMs: nat): real {
    MinReal(MinReal(limits.policySeconds as real, limits.authoritySeconds as real),
            AsSeconds(limits.latencyMs - spentMs))
  }

  /** The checks so far: how they end, the latency then, the checks started, and whether every one passed. */
  datatype Loop = Loop(gate: Gate, latencyMs: nat, started: seq<Started>, passed: bool)

  /** One check more, when nothing has stopped the loop before it; it polls twice. */
  function Turn(before: Loop, run: CheckRun, limits: Limits, canceled: nat -> bool, poll: nat): Loop {
    var start := StartGate(limits.latencyMs, before.latencyMs, canceled, poll);
    if !start.Open? then before.(gate := start)
    else
      Loop(RunGate(run, limits.latencyMs, before.latencyMs, canceled, poll + 1),
           LatencyAfter(run, limits.latencyMs, before.latencyMs),
           before.started + [Started(before.latencyMs, Timeout(limits, before.latencyMs))],
           before.passed && CheckPassed(run))
  }

  function LoopOf(runs: seq<CheckRun>, spentMs: nat, limits: Limits, canceled: nat -> bool, poll: nat): Loop {
    if runs == [] then Loop(Open, spentMs, [], true)
    else
      var before := LoopOf(runs[..|runs| - 1], spentMs, limits, canceled, poll);
      if before.gate.Open? then Turn(before, runs[|runs| - 1], limits, canceled, poll + 2 * (|runs| - 1)) else before
  }

  /** Started with latency left, and with no more time than is left under every limit. */
  predicate TimelyStart(s: Started, limits: Limits) {
    && s.spentMs < limits.latencyMs
    && 0.0 < s.timeoutSeconds <= AsSeconds(limits.latencyMs - s.spentMs)
    && s.timeoutSeconds <= limits.policySeconds as real
    && s.timeoutSeconds <= limits.authoritySeconds as real
  }

  ghost predicate AllTimely(started: seq<Started>, limits: Limits) {
    forall i :: 0 <= i < |started| ==> TimelyStart(started[i], limits)
  }

  /** One started check: how it ends, whether it passed, and the latency after it. */
  method RunCheck(run: CheckRun, limitMs: nat, spentMs: nat, canceled: nat -> bool, poll: nat)
    returns (gate: Gate, passed: bool, latencyMs: nat)
    ensures gate == RunGate(run, limitMs, spentMs, canceled, poll)
    ensures latencyMs == LatencyAfter(run, limitMs, spentMs)
    ensures gate.Open? ==> latencyMs <= limitMs && passed == CheckPassed(run)
  {
    passed, latencyMs := false, spentMs;
    if run.started.None? {
      return Stop(ClockInvalid), passed, latencyMs;
    }
    if run.finished.None? || run.finished.value < run.started.value {
      return Stop(ClockInvalid), passed, limitMs;
    }
    var elapsed := ElapsedMilliseconds(run.started.value, run.finished.value);
    latencyMs := spentMs + elapsed.value;
    if latencyMs > limitMs {
      return Stop(BudgetExhausted), passed, latencyMs;
    }
    if run.runner.RunnerRaised? {
      return Stop(CheckRunnerFailed), passed, latencyMs;
    }
    if canceled(poll) {
      return Stop(WasCanceled), passed, latencyMs;
    }
    if !run.runner.wellFormed {
      return Stop(InvalidCheckResult), passed, latencyMs;
    }
    passed := run.runner.passed;
    gate := Calls(run.stored);
  }

  /** The loop over a task's checks; a check that does not pass does not stop it. */
  method RunChecks(runs: seq<CheckRun>, spentMs: nat, limits: Limits, canceled: nat -> bool, poll: nat)
    returns (gate: Gate, passed: bool, latencyMs: nat, started: seq<Started>)
    ensures var loop := LoopOf(runs, spentMs, limits, canceled, poll);
            gate == loop.gate && latencyMs == loop.latencyMs && started == loop.started
            && (gate.Open? ==> passed == loop.passed)
  {
    passed, latencyMs, started := true, spentMs, [];
    for i := 0 to |runs|
      invariant LoopOf(runs[..i], spentMs, limits, canceled, poll) == Loop(Open, latencyMs, started, passed)
    {
      LoopStep(runs, i, spentMs, limits, canceled, poll, Loop(Open, latencyMs, started, passed));
      gate, passed, latencyMs, started := RunNext(runs[i], limits, passed, latencyMs, started, canceled, poll + 2 * i);
      if !gate.Open? {
        return;
      }
    }
    WholePrefix(runs);
    gate := Open;
  }

  /** The body of the loop. */
  method RunNext(run: CheckRun, limits: Limits, passed0: bool, latencyMs0: nat, started0: seq<Started>,
                 canceled: nat -> bool, poll: nat)
    returns (gate: Gate, passed: bool, latencyMs: nat, started: seq<Started>)
    ensures var after := Turn(Loop(Open, latencyMs0, started0, passed0), run, limits, canceled, poll);
            gate == after.gate && latencyMs == after.latencyMs && started == after.started
            && (gate.Open? ==> passed == after.passed)
  {
    passed, latencyMs, started := passed0, latencyMs0, started0;
    if canceled(poll) {
      return Stop(WasCanceled), passed, latencyMs, started;
    }
    if limits.latencyMs <= latencyMs {
      return Stop(BudgetExhausted), passed, latencyMs, started;
    }
    started := started + [Started(latencyMs, Timeout(limits, latencyMs))];
    var checkPassed: bool;
    gate, checkPassed, latencyMs := RunCheck(run, limits.latencyMs, latencyMs, canceled, poll + 1);
    passed := passed && checkPassed;
  }

  lemma {:induction false} LoopUnfolds(runs: seq<CheckRun>, i: nat, spentMs: nat, limits: Limits, canceled: nat -> bool,
                                       poll: nat)
    requires i < |runs| && LoopOf(runs[..i], spentMs, limits, canceled, poll).gate.Open?
    ensures LoopOf(runs[..i + 1], spentMs, limits, canceled, poll)
            == Turn(LoopOf(runs[..i], spentMs, limits, canceled, poll), runs[i], limits, canceled, poll + 2 * i)
  {
    var next := runs[..i + 1];
    assert next[..|next| - 1] == runs[..i] && next[|next| - 1] == runs[i];
  }

  /** One turn of the loop; if it stops, it has stopped for all the checks. */
  lemma {:induction false} LoopStep(runs: seq<CheckRun>, i: nat, spentMs: nat, limits: Limits, canceled: nat -> bool,
                                    poll: nat, before: Loop)
    requires i < |runs| && LoopOf(runs[..i], spentMs, limits, canceled, poll) == before && before.gate.Open?
    ensures var after := Turn(before, runs[i], limits, canceled, poll + 2 * i);
            && LoopOf(runs[..i + 1], spentMs, limits, canceled, poll) == after
            && (!after.gate.Open? ==> LoopOf(runs, spentMs, limits, canceled, poll) == after)
  {
    LoopUnfolds(runs, i, spentMs, limits, canceled, poll);
    if !LoopOf(runs[..i + 1], spentMs, limits, canceled, poll).gate.Open? {
      LoopStuck(runs, i + 1, spentMs, limits, canceled, poll);
    }
  }

  lemma {:induction false} LoopStuck(runs: seq<CheckRun>, i: nat, spentMs: nat, limits: Limits, canceled: nat -> bool,
                                     poll: nat)
    requires i <= |runs| && !LoopOf(runs[..i], spentMs, limits, canceled, poll).gate.Open?
    ensures LoopOf(runs, spentMs, limits, canceled, poll) == LoopOf(runs[..i], spentMs, limits, canceled, poll)
    decreases |runs|
  {
    if i == |runs| {
      assert runs[..i] == runs;
    } else {
      assert runs[..|runs| - 1][..i] == runs[..i];
      LoopStuck(runs[..|runs| - 1], i, spentMs, limits, canceled, poll);
    }
  }

  // ---------------------------------------------------------------- the provider call

  function CallBudget(policy: Policy, authority: Authority, remaining: Budget): Budget {
    Intersect(Intersect(policy.providerBudget, remaining), Subtract(authority.budget, authority.consumed))
  }

  /** The call may be made: usage so far is known and no budget is exhausted. */
  predicate CallAllowed(policy: Policy, authority: Authority, remaining: Budget) {
    authority.usageComplete && !ProviderBudgetExhausted(CallBudget(policy, authority, remaining), authority.budget)
  }

  /** What the provider part must get past; it polls twice. */
  function CallGate(policy: Policy, authority: Authority, remaining: Budget, run: ProviderRun, prior: set<Path>,
                    maxPaths: nat, canceled: nat -> bool, poll: nat): Gate
  {
    Then(Unless(!CallAllowed(policy, authority, remaining), BudgetExhausted),
    Then(Polls(canceled, poll),
    Then(Calls(run.context),
    Then(Calls(run.proposal),
    Then(Polls(canceled, poll + 1),
    Then(Unless(run.proposal.Returned?
                && Overdraws(run.proposal.value.usage, CallBudget(policy, authority, remaining)), BudgetExhausted),
    Then(Unless(run.proposal.Returned? && |prior + run.proposal.value.paths| > maxPaths, PathLimitExceeded),
    Then(Calls(run.proposalStored),
         Calls(run.applied)))))))))
  }

  /**
   What the provider part is accounted with: nothing until the call is made, unknown
   until it has answered uncanceled, then what the answer says.
   */
  function CallUsage(policy: Policy, authority: Authority, remaining: Budget, run: ProviderRun, canceled: nat -> bool,
                     poll: nat): Usage
  {
    if !CallAllowed(policy, authority, remaining) || canceled(poll) || !run.context.Returned? then NOTHING_USED
    else if !run.proposal.Returned? || canceled(poll + 1) then USAGE_UNKNOWN
    else run.proposal.value.usage
  }

  method CallProvider(policy: Policy, authority: Authority, remaining: Budget, run: ProviderRun,
                      prior: set<Path>, maxPaths: nat, canceled: nat -> bool, poll: nat)
    returns (gate: Gate, usage: Usage)
    ensures gate == CallGate(policy, authority, remaining, run, prior, maxPaths, canceled, poll)
    ensures usage == CallUsage(policy, authority, remaining, run, canceled, poll)
    ensures gate.Open? ==> !Overdraws(usage, CallBudget(policy, authority, remaining))
  {
    usage := NOTHING_USED;
    var callBudget := CallBudget(policy, authority, remaining);
    if !authority.usageComplete || ProviderBudgetExhausted(callBudget, authority.budget) {
      return Stop(BudgetExhausted), usage;
    }
    if canceled(poll) {
      return Stop(WasCanceled), usage;
    }
    gate := Calls(run.context);
    if !gate.Open? {
      return;
    }
    usage := USAGE_UNKNOWN;
    gate := Calls(run.proposal);
    if !gate.Open? {
      return;
    }
    if canceled(poll + 1) {
      return Stop(WasCanceled), usage;
    }
    var proposal := run.proposal.value;
    usage := proposal.usage;
    if Overdraws(usage, callBudget) {
      return Stop(BudgetExhausted), usage;
    }
    if |prior + proposal.paths| > maxPaths {
      return Stop(PathLimitExceeded), usage;
    }
    gate := Calls(run.proposalStored);
    if gate.Open? {
      gate := Calls(run.applied);
    }
  }

  // ---------------------------------------------------------------- the attempt

  function LatencyLimit(authority: Authority, remaining: Budget): nat {
    Min(remaining.latencyMs, Subtract(authority.budget, authority.consumed).latencyMs)
  }

  function PathLimit(policy: Policy, authority: Authority): nat {
    Min(policy.maxChangedPaths, authority.maxChangedPaths)
  }

  /** One attempt at one task, as the policy is asked about it. */
  datatype Action = Action(runId: string, planId: string, taskId: string, attempt: nat, allowedPaths: seq<Path>)

  /** The policy's answer; it names its action by digest, and equal digests mean equal actions. */
  datatype Decision = Decision(allowed: bool, action: Action)

  /** What an attempt is asked to do and allowed to use. */
  datatype Order = Order(
    action: Action, decision: Decision, policy: Policy, authority: Authority, remaining: Budget)
  {
    /** The decision allows exactly this action. */
    predicate PolicyAllows() {
      decision.allowed && decision.action == action
    }

    predicate MayWrite() {
      action.allowedPaths != []
    }
  }

  predicate OrderValid(o: Order) {
    AuthorityValid(o.authority) && 1 <= o.policy.checkTimeoutSeconds
  }

  function CommitPoll(o: Order): nat {
    if o.MayWrite() then 4 else 2
  }

  /** A worktree on the base, and the paths already changed. */
  function PrepareGate(o: Order, script: Script, canceled: nat -> bool): Gate {
    Then(Calls(script.baseRetained),
    Then(Polls(canceled, 1),
    Then(Calls(script.created),
    Then(Calls(script.priorPaths),
         Unless(script.priorPaths.Returned? && |script.priorPaths.value| > PathLimit(o.policy, o.authority),
                PathLimitExceeded)))))
  }

  function ProviderGate(o: Order, script: Script, canceled: nat -> bool): Gate {
    if o.MayWrite() then
      CallGate(o.policy, o.authority, o.remaining, script.provider,
               if script.priorPaths.Returned? then script.priorPaths.value else {},
               PathLimit(o.policy, o.authority), canceled, 2)
    else Open
  }

  function CommitGate(o: Order, script: Script, canceled: nat -> bool): Gate {
    Then(Polls(canceled, CommitPoll(o)),
    Then(Calls(script.committed),
         Unless(script.committed.Returned? && |script.committed.value| > PathLimit(o.policy, o.authority),
                PathLimitExceeded)))
  }

  /** Everything before the checks. */
  function ChangeGate(o: Order, script: Script, canceled: nat -> bool): Gate {
    Then(PrepareGate(o, script, canceled), Then(ProviderGate(o, script, canceled), CommitGate(o, script, canceled)))
  }

  /** What the attempt has used when its checks begin, or when it ends before them. */
  function ChangeUsage(o: Order, script: Script, canceled: nat -> bool): Usage {
    if PrepareGate(o, script, canceled).Open? && o.MayWrite()
    then CallUsage(o.policy, o.authority, o.remaining, script.provider, canceled, 2)
    else NOTHING_USED
  }

  function LimitsOf(o: Order): Limits {
    Limits(LatencyLimit(o.authority, o.remaining), o.policy.checkTimeoutSeconds, o.authority.checkTimeoutSeconds)
  }

  /** The checks, once the change is committed. */
  function ChecksOf(o: Order, script: Script, canceled: nat -> bool): Loop {
    var used := ChangeUsage(o, script, canceled).latencyMs;
    if ChangeGate(o, script, canceled).Open?
    then LoopOf(script.checks, used, LimitsOf(o), canceled, CommitPoll(o) + 1)
    else Loop(Open, used, [], true)
  }

  /** Everything up to the last check. */
  function WorkGate(o: Order, script: Script, canceled: nat -> bool): Gate {
    Then(ChangeGate(o, script, canceled), ChecksOf(o, script, canceled).gate)
  }

  /** What the attempt is charged: what the change used, and every started check. */
  function AttemptUsage(o: Order, script: Script, canceled: nat -> bool): Usage {
    ChangeUsage(o, script, canceled).(latencyMs := ChecksOf(o, script, canceled).latencyMs)
  }

  /** The paths changed since the goal's base, once the change is committed. */
  function ChangedPaths(o: Order, script: Script, canceled: nat -> bool): set<Path> {
    if Then(PrepareGate(o, script, canceled),
            Then(ProviderGate(o, script, canceled), Polls(canceled, CommitPoll(o)))).Open?
       && script.committed.Returned?
    then script.committed.value
    else {}
  }

  /** `_failure`: the worktree is retained and the failure recorded, or the call raises. */
  function Report(script: Script, failure: Failure, usage: Usage, changed: set<Path>, started: seq<Started>): Attempt {
    if script.retained && script.failureRecorded then Evidence(Some(failure), usage, changed, started) else Raised
  }

  /**
   `_failure` on an unclean worktree is called where its own exceptions are caught: when the
   worktree cannot be retained, or recording fails, the failure is reported once more.
   */
  function ReportUnclean(script: Script, usage: Usage, changed: set<Path>, started: seq<Started>): Attempt {
    if !script.uncleanRetained then Report(script, CallFailed, usage, changed, started)
    else
      match script.uncleanRecorded
      case Returned(_) => Evidence(Some(WorkspaceNotClean), usage, changed, started)
      case Failed => Report(script, CallFailed, usage, changed, started)
      case IoError => Raised
  }

  /** `_finish`: the outcome is recorded, or failing to record it ends the attempt. */
  function Finish(script: Script, failure: Option<Failure>, usage: Usage, changed: set<Path>, started: seq<Started>)
    : Attempt {
    match script.recorded
    case Returned(_) => Evidence(failure, usage, changed, started)
    case Failed => Report(script, CallFailed, usage, changed, started)
    case IoError => Raised
  }

  function Ended(script: Script, gate: Gate, usage: Usage, changed: set<Path>, started: seq<Started>): Attempt
    requires !gate.Open?
  {
    if gate.Abort? then Raised else Report(script, gate.failure, usage, changed, started)
  }

  /** After the checks: the worktree must be clean, and a successful one is removed when the policy says so. */
  function Close(o: Order, script: Script, passed: bool, usage: Usage, changed: set<Path>, started: seq<Started>)
    : Attempt {
    if !script.clean.Returned? then Ended(script, Calls(script.clean), usage, changed, started)
    else if !script.clean.value then ReportUnclean(script, usage, changed, started)
    else if !passed then Finish(script, Some(ChecksFailed), usage, changed, started)
    else if o.policy.removesSuccessful && !script.removed.Returned? then
      Ended(script, Calls(script.removed), usage, changed, started)
    else Finish(script, None, usage, changed, started)
  }

  /** What an attempt reports, from the gates it meets. */
  function AttemptOf(o: Order, script: Script, canceled: nat -> bool): Attempt {
    if !o.PolicyAllows() || canceled(0) then Raised
    else
      var usage, changed := AttemptUsage(o, script, canceled), ChangedPaths(o, script, canceled);
      var checks, gate := ChecksOf(o, script, canceled), WorkGate(o, script, canceled);
      if gate.Open? then Close(o, script, checks.passed, usage, changed, checks.started)
      else Ended(script, gate, usage, changed, checks.started)
  }

  method Prepare(o: Order, script: Script, canceled: nat -> bool) returns (gate: Gate)
    ensures gate == PrepareGate(o, script, canceled)
  {
    gate := Calls(script.baseRetained);
    if !gate.Open? {
      return;
    }
    if canceled(1) {
      return Stop(WasCanceled);
    }
    gate := Calls(script.created);
    if !gate.Open? {
      return;
    }
    gate := Calls(script.priorPaths);
    if gate.Open? && |script.priorPaths.value| > PathLimit(o.policy, o.authority) {
      gate := Stop(PathLimitExceeded);
    }
  }

  /** Everything before the checks, with what it used and what it changed. */
  method Change(o: Order, script: Script, canceled: nat -> bool) returns (gate: Gate, usage: Usage, changed: set<Path>)
    ensures gate == ChangeGate(o, script, canceled)
    ensures usage == ChangeUsage(o, script, canceled) && changed == ChangedPaths(o, script, canceled)
  {
    usage, changed := NOTHING_USED, {};
    gate := Prepare(o, script, canceled);
    if !gate.Open? {
      return;
    }
    if o.MayWrite() {
      gate, usage := CallProvider(o.policy, o.authority, o.remaining, script.provider, script.priorPaths.value,
                                  PathLimit(o.policy, o.authority), canceled, 2);
      if !gate.Open? {
        return;
      }
    }
    if canceled(CommitPoll(o)) {
      return Stop(WasCanceled), usage, changed;
    }
    gate := Calls(script.committed);
    if !gate.Open? {
      return;
    }
    changed := script.committed.value;
    if |changed| > PathLimit(o.policy, o.authority) {
      gate := Stop(PathLimitExceeded);
    }
  }

  /** `execute`. */
  method Execute(o: Order, script: Script, canceled: nat -> bool) returns (a: Attempt)
    ensures a == AttemptOf(o, script, canceled)
  {
    if !o.PolicyAllows() {
      return Raised;
    }
    if canceled(0) {
      return Raised;
    }
    var gate, usage, changed := Change(o, script, canceled);
    if !gate.Open? {
      return Ended(script, gate, usage, changed, []);
    }
    var passed, latencyMs, started;
    gate, passed, latencyMs, started :=
      RunChecks(script.checks, usage.latencyMs, LimitsOf(o), canceled, CommitPoll(o) + 1);
    usage := usage.(latencyMs := latencyMs);
    if !gate.Open? {
      return Ended(script, gate, usage, changed, started);
    }
    gate := Calls(script.clean);
    if !gate.Open? {
      return Ended(script, gate, usage, changed, started);
    }
    if !script.clean.value {
      return ReportUnclean(script, usage, changed, started);
    }
    if !passed {
      return Finish(script, Some(ChecksFailed), usage, changed, started);
    }
    if o.policy.removesSuccessful {
      gate := Calls(script.removed);
      if !gate.Open? {
        return Ended(script, gate, usage, changed, started);
      }
    }
    return Finish(script, None, usage, changed, started);
  }
}
