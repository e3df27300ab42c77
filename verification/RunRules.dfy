/** The totals of a run as sums over its steps, and exactly which step may come next. */
module RunRules {
  import opened Wrappers
  import opened Sequences
  import opened AttemptBudget
  import opened AttemptLaws
  import opened AttemptRuns

  /** What a step is charged: a planning call its usage, recorded evidence its own, anything else nothing. */
  ghost function Charge(step: Step): Usage {
    match step
    case Planned(usage) => usage
    case Tried(_, _, _, recorded) =>
      if recorded && AttemptRuns.Result(step).Evidence? then AttemptRuns.Result(step).usage
      else Usage(Some(0), Some(0), 0, Some(0))
  }

  function InputOf(u: Usage): nat {
    match u.inputTokens case Some(n) => n case None => 0
  }

  function OutputOf(u: Usage): nat {
    match u.outputTokens case Some(n) => n case None => 0
  }

  function CostOf(u: Usage): nat {
    match u.costMicrousd case Some(n) => n case None => 0
  }

  function LatencyOf(u: Usage): nat {
    u.latencyMs
  }

  ghost function Sum(steps: seq<Step>, amount: Usage -> nat): nat {
    if steps == [] then 0 else Sum(steps[..|steps| - 1], amount) + amount(Charge(steps[|steps| - 1]))
  }

  ghost predicate AllKnown(steps: seq<Step>) {
    forall i :: 0 <= i < |steps| ==> Known(Charge(steps[i]))
  }

  predicate Known(u: Usage) {
    u.inputTokens.Some? && u.outputTokens.Some? && u.costMicrousd.Some?
  }

  /** The totals are the sums of what is known, and complete exactly when everything is. */
  lemma {:induction false} TotalsExactly(steps: seq<Step>)
    ensures var totals := TotalsOf(steps);
            && totals.inputTokens == Sum(steps, InputOf) && totals.outputTokens == Sum(steps, OutputOf)
            && totals.latencyMs == Sum(steps, LatencyOf) && totals.costMicrousd == Sum(steps, CostOf)
            && (Complete(totals) <==> AllKnown(steps))
  {
    if steps != [] {
      var front, last := steps[..|steps| - 1], steps[|steps| - 1];
      TotalsExactly(front);
      ChargeExactly(last);
      KnownPush(front, last);
      SplitLast(steps);
    }
  }

  lemma ChargeExactly(step: Step)
    ensures UsedBy(step) == Charge(step)
  {
    if Reported(step) {
      UsedIsReported(step);
    }
  }

  lemma KnownPush(front: seq<Step>, last: Step)
    ensures AllKnown(front + [last]) <==> AllKnown(front) && Known(Charge(last))
  {
    var steps := front + [last];
    assert steps[|front|] == last;
    assert forall i :: 0 <= i < |front| ==> steps[i] == front[i];
  }

  /** In no amount has the run used more than its budget. */
  ghost predicate Within(budget: Budget, steps: seq<Step>) {
    && Sum(steps, InputOf) <= budget.inputTokens && Sum(steps, OutputOf) <= budget.outputTokens
    && Sum(steps, LatencyOf) <= budget.latencyMs && Sum(steps, CostOf) <= budget.costMicrousd
  }

  /** What is left of an amount. */
  predicate Left(left: nat, budget: nat, used: nat) {
    if used <= budget then left + used == budget else left == 0
  }

  /** A provider is called only with all usage known, and for a change only with tokens and time left. */
  ghost predicate MayStart(budget: Budget, steps: seq<Step>, next: Step) {
    match next
    case Planned(_) => AllKnown(steps)
    case Tried(order, _, _, _) =>
      && OrderValid(order)
      && Left(order.remaining.inputTokens, budget.inputTokens, Sum(steps, InputOf))
      && Left(order.remaining.outputTokens, budget.outputTokens, Sum(steps, OutputOf))
      && Left(order.remaining.latencyMs, budget.latencyMs, Sum(steps, LatencyOf))
      && Left(order.remaining.costMicrousd, budget.costMicrousd, Sum(steps, CostOf))
      && (order.action.allowedPaths != [] ==>
            && AllKnown(steps) && Sum(steps, InputOf) < budget.inputTokens
            && Sum(steps, OutputOf) < budget.outputTokens && Sum(steps, LatencyOf) < budget.latencyMs)
  }

  /** A retry writes exactly when the attempt before it does. */
  predicate SameKind(last: Step, next: Step) {
    && last.Tried? && next.Tried?
    && (last.order.action.allowedPaths == [] <==> next.order.action.allowedPaths == [])
  }

  /**
   After an attempt a run goes on only from recorded evidence: after a success to another task, after a
   repairable failure to the same one, both within the budget, and after an unexpected error also to planning.
   */
  ghost predicate MayFollow(budget: Budget, steps: seq<Step>, last: Step, next: Step) {
    last.Planned? || (last.recorded && Continues(AttemptRuns.Result(last), Within(budget, steps), last, next))
  }

  predicate Continues(a: Attempt, within: bool, last: Step, next: Step) {
    && a.Evidence?
    && (|| (a.failure.None? && next.Tried? && within)
        || (a.failure in {Some(ChecksFailed), Some(CheckRunnerFailed), Some(CallFailed)}
            && SameKind(last, next) && within)
        || (a.failure in {Some(CheckRunnerFailed), Some(CallFailed)} && next.Planned?))
  }

  /** Exactly which step may come next in a run. */
  lemma {:induction false} NextStepExactly(budget: Budget, steps: seq<Step>, next: Step)
    ensures IsRun(budget, steps + [next])
            <==> && IsRun(budget, steps) && MayStart(budget, steps, next)
                 && (steps != [] ==> MayFollow(budget, steps, steps[|steps| - 1], next))
  {
    RunPush(budget, steps, next);
    StartExactly(budget, steps, next);
    if steps != [] {
      FollowExactly(budget, steps, steps[|steps| - 1], next);
    }
  }

  lemma {:induction false} StartExactly(budget: Budget, steps: seq<Step>, next: Step)
    ensures MayStart(budget, steps, next) <==> Starts(budget, TotalsOf(steps), next)
  {
    TotalsExactly(steps);
    if next.Tried? {
      LeftExactly(next.order.remaining, budget, steps);
    }
  }

  lemma {:induction false} LeftExactly(left: Budget, budget: Budget, steps: seq<Step>)
    ensures left == Remaining(budget, TotalsOf(steps))
            <==> && Left(left.inputTokens, budget.inputTokens, Sum(steps, InputOf))
                 && Left(left.outputTokens, budget.outputTokens, Sum(steps, OutputOf))
                 && Left(left.latencyMs, budget.latencyMs, Sum(steps, LatencyOf))
                 && Left(left.costMicrousd, budget.costMicrousd, Sum(steps, CostOf))
  {
    TotalsExactly(steps);
  }

  lemma {:induction false} FollowExactly(budget: Budget, steps: seq<Step>, last: Step, next: Step)
    ensures MayFollow(budget, steps, last, next) <==> GoesOn(budget, TotalsOf(steps), last, next)
  {
    WithinExactly(budget, steps);
    if last.Tried? {
      ContinuesExactly(AttemptRuns.Result(last), budget, TotalsOf(steps), last, next);
    }
  }

  lemma {:induction false} WithinExactly(budget: Budget, steps: seq<Step>)
    ensures Within(budget, steps) <==> !Overdrawn(budget, TotalsOf(steps))
  {
    TotalsExactly(steps);
  }

  lemma ContinuesExactly(a: Attempt, budget: Budget, after: Totals, last: Step, next: Step)
    requires last.Tried? && AttemptRuns.Result(last) == a
    ensures last.recorded && Continues(a, !Overdrawn(budget, after), last, next) <==> GoesOn(budget, after, last, next)
  {
    if GoesOn(budget, after, last, next) {
      GoesOnContinues(a, budget, after, last, next);
    }
  }

  lemma GoesOnContinues(a: Attempt, budget: Budget, after: Totals, last: Step, next: Step)
    requires last.Tried? && AttemptRuns.Result(last) == a && GoesOn(budget, after, last, next)
    ensures last.recorded && Continues(a, !Overdrawn(budget, after), last, next)
  {
  }

  // ---------------------------------------------------------------- one step more

  ghost predicate StartsAt(budget: Budget, steps: seq<Step>, i: nat)
    requires i < |steps|
  {
    Starts(budget, TotalsOf(steps[..i]), steps[i])
  }

  ghost predicate GoesOnAt(budget: Budget, steps: seq<Step>, i: nat)
    requires i < |steps| - 1
  {
    GoesOn(budget, TotalsOf(steps[..i + 1]), steps[i], steps[i + 1])
  }

  lemma SameSteps(budget: Budget, steps: seq<Step>, next: Step, i: nat)
    requires i < |steps|
    ensures StartsAt(budget, steps + [next], i) == StartsAt(budget, steps, i)
    ensures i < |steps| - 1 ==> GoesOnAt(budget, steps + [next], i) == GoesOnAt(budget, steps, i)
  {
    assert (steps + [next])[..i] == steps[..i] && (steps + [next])[..i + 1] == steps[..i + 1];
  }

  lemma {:induction false} LastSteps(budget: Budget, steps: seq<Step>, next: Step)
    ensures StartsAt(budget, steps + [next], |steps|) == Starts(budget, TotalsOf(steps), next)
    ensures steps != [] ==>
              GoesOnAt(budget, steps + [next], |steps| - 1)
              == GoesOn(budget, TotalsOf(steps), steps[|steps| - 1], next)
  {
    FrontOfPush(steps, next);
  }

  ghost predicate AllStart(budget: Budget, steps: seq<Step>) {
    forall i :: 0 <= i < |steps| ==> StartsAt(budget, steps, i)
  }

  ghost predicate AllGoOn(budget: Budget, steps: seq<Step>) {
    forall i :: 0 <= i < |steps| - 1 ==> GoesOnAt(budget, steps, i)
  }

  lemma RunAt(budget: Budget, steps: seq<Step>)
    ensures IsRun(budget, steps) <==> AllStart(budget, steps) && AllGoOn(budget, steps)
  {
    if IsRun(budget, steps) {
      forall i | 0 <= i < |steps| ensures StartsAt(budget, steps, i) {
      }
      forall i | 0 <= i < |steps| - 1 ensures GoesOnAt(budget, steps, i) {
      }
    }
    if AllStart(budget, steps) {
      forall i | 0 <= i < |steps| ensures Starts(budget, TotalsOf(steps[..i]), steps[i]) {
        assert StartsAt(budget, steps, i);
      }
    }
    if AllGoOn(budget, steps) {
      forall i | 0 <= i < |steps| - 1 ensures GoesOn(budget, TotalsOf(steps[..i + 1]), steps[i], steps[i + 1]) {
        assert GoesOnAt(budget, steps, i);
      }
    }
  }

  /** A run one step longer, by the two relations that make a run. */
  lemma {:induction false} RunPush(budget: Budget, steps: seq<Step>, next: Step)
    ensures IsRun(budget, steps + [next])
            <==> && IsRun(budget, steps) && Starts(budget, TotalsOf(steps), next)
                 && (steps != [] ==> GoesOn(budget, TotalsOf(steps), steps[|steps| - 1], next))
  {
    RunAt(budget, steps);
    RunAt(budget, steps + [next]);
    LastSteps(budget, steps, next);
    AllPush(budget, steps, next);
  }

  lemma AllPush(budget: Budget, steps: seq<Step>, next: Step)
    ensures AllStart(budget, steps + [next]) <==>
              AllStart(budget, steps) && StartsAt(budget, steps + [next], |steps|)
    ensures AllGoOn(budget, steps + [next]) <==>
              AllGoOn(budget, steps) && (steps != [] ==> GoesOnAt(budget, steps + [next], |steps| - 1))
  {
    var more := steps + [next];
    forall i | 0 <= i < |steps|
      ensures StartsAt(budget, more, i) == StartsAt(budget, steps, i)
      ensures i < |steps| - 1 ==> GoesOnAt(budget, more, i) == GoesOnAt(budget, steps, i) {
      SameSteps(budget, steps, next, i);
    }
  }
}
