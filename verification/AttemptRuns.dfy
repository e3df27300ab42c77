/** Attempts of one run, one after another, each given what the earlier ones left of the budget. */
module AttemptRuns {
  import opened Wrappers
  import opened Sequences
  import opened AttemptBudget
  import opened AttemptLaws

  /** What a run has used; an amount is complete while every part of it was known. */
  datatype Totals = Totals(
    inputTokens: nat, outputTokens: nat, latencyMs: nat, costMicrousd: nat,
    inputComplete: bool, outputComplete: bool, costComplete: bool)

  const NOTHING := Totals(0, 0, 0, 0, true, true, true)

  function OrZero(n: Option<nat>): nat {
    if n.Some? then n.value else 0
  }

  function Add(t: Totals, u: Usage): Totals {
    Totals(t.inputTokens + OrZero(u.inputTokens), t.outputTokens + OrZero(u.outputTokens),
           t.latencyMs + u.latencyMs, t.costMicrousd + OrZero(u.costMicrousd),
           t.inputComplete && u.inputTokens.Some?, t.outputComplete && u.outputTokens.Some?,
           t.costComplete && u.costMicrousd.Some?)
  }

  /** `_remaining_budget` */
  function Remaining(b: Budget, t: Totals): Budget {
    Budget(Minus(b.inputTokens, t.inputTokens), Minus(b.outputTokens, t.outputTokens),
           Minus(b.latencyMs, t.latencyMs), Minus(b.costMicrousd, t.costMicrousd))
  }

  /** `_budget_overdrawn` */
  predicate Overdrawn(b: Budget, t: Totals) {
    t.inputTokens > b.inputTokens || t.outputTokens > b.outputTokens || t.latencyMs > b.latencyMs
    || t.costMicrousd > b.costMicrousd
  }

  /**
   A planning call, which uses whatever it uses, or an attempt in its circumstances; its
   evidence is not recorded when the run is found canceled after it.
   */
  datatype Step =
    | Planned(usage: Usage)
    | Tried(order: Order, script: Script, canceled: nat -> bool, recorded: bool)

  ghost function Result(step: Step): Attempt
    requires step.Tried?
  {
    AttemptOf(step.order, step.script, step.canceled)
  }

  ghost predicate Reported(step: Step) {
    step.Tried? && step.recorded && Result(step).Evidence?
  }

  /** What a step adds to the run's totals: nothing without recorded evidence. */
  ghost function UsedBy(step: Step): Usage {
    match step
    case Planned(usage) => usage
    case Tried(order, script, canceled, _) =>
      if Reported(step) then AttemptUsage(order, script, canceled) else NOTHING_USED
  }

  ghost function TotalsOf(steps: seq<Step>): Totals {
    if steps == [] then NOTHING else Add(TotalsOf(steps[..|steps| - 1]), UsedBy(steps[|steps| - 1]))
  }

  /** Every token and cost amount so far is known. */
  predicate Complete(t: Totals) {
    t.inputComplete && t.outputComplete && t.costComplete
  }

  /** `_provider_budget_exhausted` of the coordinator. */
  predicate Exhausted(b: Budget) {
    b.inputTokens == 0 || b.outputTokens == 0 || b.latencyMs == 0
  }

  /** What must hold for a step: planning and writing call a provider, and need all usage known. */
  predicate Starts(budget: Budget, before: Totals, step: Step) {
    match step
    case Planned(_) => Complete(before)
    case Tried(order, _, _, _) =>
      && OrderValid(order) && order.remaining == Remaining(budget, before)
      && (order.MayWrite() ==> Complete(before) && !Exhausted(order.remaining))
  }

  /** The same task is tried again. */
  predicate Retries(step: Step, next: Step) {
    step.Tried? && next.Tried? && next.order.MayWrite() == step.order.MayWrite()
  }

  /**
   How a run goes on after a step: a success leads to another task, a failure that may be
   repaired to the same task, one that asks for a new plan to planning. Only evidence within
   the budget, or of a failure that asks for a new plan, goes on; every other end is the last.
   */
  ghost predicate GoesOn(budget: Budget, after: Totals, step: Step, next: Step) {
    step.Tried? ==>
      && Reported(step)
      && match Result(step).failure
         case None => next.Tried? && !Overdrawn(budget, after)
         case Some(ChecksFailed) => Retries(step, next) && !Overdrawn(budget, after)
         case Some(CheckRunnerFailed) => next.Planned? || (Retries(step, next) && !Overdrawn(budget, after))
         case Some(CallFailed) => next.Planned? || (Retries(step, next) && !Overdrawn(budget, after))
         case Some(_) => false
  }

  /** A run of the coordinator, each attempt given what the steps before it left of `budget`. */
  ghost predicate IsRun(budget: Budget, steps: seq<Step>) {
    && (forall i :: 0 <= i < |steps| ==> Starts(budget, TotalsOf(steps[..i]), steps[i]))
    && forall i :: 0 <= i < |steps| - 1 ==> GoesOn(budget, TotalsOf(steps[..i + 1]), steps[i], steps[i + 1])
  }

  /** An attempt with checks to pass, recorded as a success. */
  ghost predicate Succeeded(step: Step) {
    Reported(step) && IsSuccess(Result(step)) && step.script.checks != []
  }

  lemma TotalsThrough(steps: seq<Step>, i: nat)
    requires i < |steps|
    ensures TotalsOf(steps[..i + 1]) == Add(TotalsOf(steps[..i]), UsedBy(steps[i]))
  {
    FrontOfPrefix(steps, i);
  }

  lemma {:induction false} LatencyGrows(steps: seq<Step>, i: nat, j: nat)
    requires i <= j <= |steps|
    ensures TotalsOf(steps[..i]).latencyMs <= TotalsOf(steps[..j]).latencyMs
    decreases j
  {
    if i < j {
      LatencyGrows(steps, i, j - 1);
      TotalsThrough(steps, j - 1);
    }
  }

  // ---------------------------------------------------------------- what a run spends

  /** What one step spends, whether its attempt succeeds, fails or raises. */
  function SpentBy(step: Step): nat {
    match step
    case Planned(usage) => usage.latencyMs
    case Tried(order, script, canceled, _) => SpentMs(order, script, canceled)
  }

  function Spent(steps: seq<Step>): nat {
    if steps == [] then 0 else Spent(steps[..|steps| - 1]) + SpentBy(steps[|steps| - 1])
  }

  lemma SpentThrough(steps: seq<Step>, i: nat)
    requires i < |steps|
    ensures Spent(steps[..i + 1]) == Spent(steps[..i]) + SpentBy(steps[i])
  {
    FrontOfPrefix(steps, i);
  }

  predicate StepAccounted(step: Step) {
    step.Tried? ==> Accounted(step.order, step.script, step.canceled)
  }

  lemma SuccessAccounted(step: Step)
    requires step.Tried? && IsSuccess(Result(step))
    ensures StepAccounted(step)
  {
    SuccessExactly(step.order, step.script, step.canceled);
  }

  /** An attempt whose call is not accounted leaves the run's usage unknown. */
  lemma UnaccountedLeavesUnknown(steps: seq<Step>, i: nat)
    requires i < |steps| && !StepAccounted(steps[i]) && Reported(steps[i])
    ensures !Complete(TotalsOf(steps[..i + 1])) && steps[i].order.MayWrite()
  {
    TotalsThrough(steps, i);
    UnaccountedStops(steps[i].order, steps[i].script, steps[i].canceled);
  }

  /**
   A call that is not accounted is the last thing a run does: after it neither planning nor a
   second try at a writing task may start, and nothing else may follow.
   */
  lemma UnaccountedIsLast(budget: Budget, steps: seq<Step>, i: nat)
    requires IsRun(budget, steps) && i < |steps| && !StepAccounted(steps[i])
    ensures i == |steps| - 1
  {
    if i < |steps| - 1 {
      assert GoesOn(budget, TotalsOf(steps[..i + 1]), steps[i], steps[i + 1]);
      assert Starts(budget, TotalsOf(steps[..i + 1]), steps[i + 1]);
      UnaccountedLeavesUnknown(steps, i);
      assert !IsSuccess(Result(steps[i])) by {
        if IsSuccess(Result(steps[i])) {
          SuccessAccounted(steps[i]);
        }
      }
      assert false;
    }
  }

  /** A step the run goes on from is charged exactly what it spends. */
  lemma StepCharge(budget: Budget, steps: seq<Step>, i: nat)
    requires IsRun(budget, steps) && i < |steps| - 1
    ensures UsedBy(steps[i]).latencyMs == SpentBy(steps[i])
  {
    assert GoesOn(budget, TotalsOf(steps[..i + 1]), steps[i], steps[i + 1]);
    if steps[i].Tried? {
      assert StepAccounted(steps[i]) by {
        if !StepAccounted(steps[i]) {
          UnaccountedIsLast(budget, steps, i);
        }
      }
      EvidenceUsage(steps[i].order, steps[i].script, steps[i].canceled);
      AccountedCharge(steps[i].order, steps[i].script, steps[i].canceled);
    }
  }

  /** Up to its last step, a run's total latency is exactly what it has spent. */
  lemma {:induction false} TotalsAreSpending(budget: Budget, steps: seq<Step>, i: nat)
    requires IsRun(budget, steps) && i < |steps|
    ensures TotalsOf(steps[..i]).latencyMs == Spent(steps[..i])
    decreases i
  {
    if i > 0 {
      TotalsAreSpending(budget, steps, i - 1);
      TotalsThrough(steps, i - 1);
      SpentThrough(steps, i - 1);
      StepCharge(budget, steps, i - 1);
    }
  }

  /** Nothing the last step spends is missing: what it reports accounts for its call, or there is nothing to report. */
  ghost predicate Covered(step: Step) {
    step.Tried? ==>
      if Reported(step)
      then StepAccounted(step) || CallMs(step.order, step.script, step.canceled) == 0
      else SpentBy(step) == 0
  }

  /** Exactly when the totals of a run cover all it has spent: when its last step is covered. */
  lemma {:induction false} TotalsCoverSpendingExactly(budget: Budget, steps: seq<Step>)
    requires IsRun(budget, steps) && steps != []
    ensures TotalsOf(steps).latencyMs >= Spent(steps) <==> Covered(steps[|steps| - 1])
  {
    var last := steps[|steps| - 1];
    TotalsAreSpending(budget, steps, |steps| - 1);
    if Reported(last) {
      EvidenceUsage(last.order, last.script, last.canceled);
      ChargeCoversExactly(last.order, last.script, last.canceled);
    }
  }

  lemma UsedIsReported(step: Step)
    requires Reported(step)
    ensures UsedBy(step) == Result(step).usage
  {
    EvidenceUsage(step.order, step.script, step.canceled);
  }

  lemma OneStep(step: Step)
    ensures TotalsOf([step]) == Add(NOTHING, UsedBy(step)) && Spent([step]) == SpentBy(step)
  {
    FrontOfPush([], step);
    assert [] + [step] == [step];
  }

  lemma OneStepRun(budget: Budget, step: Step)
    requires Starts(budget, NOTHING, step)
    ensures IsRun(budget, [step])
  {
    forall i | 0 <= i < |[step]| ensures Starts(budget, TotalsOf([step][..i]), [step][i]) {
      assert [step][..i] == [];
    }
  }

  /** A run whose last step is not covered: 900 ms are spent, and its totals stay empty. */
  lemma SpendingGoesUncharged(canceled: nat -> bool, recorded: bool)
    requires !canceled(0) && !canceled(1) && !canceled(2) && canceled(3)
    ensures var steps := [Tried(WRITE, ANSWERING, canceled, recorded)];
            IsRun(AMPLE, steps) && TotalsOf(steps).latencyMs == 0 && Spent(steps) == 900
  {
    DroppedAnswerIsFree(canceled);
    MayStart(ANSWERING, canceled, recorded);
    UnknownAddsNothing(Tried(WRITE, ANSWERING, canceled, recorded));
    FreeStep(AMPLE, Tried(WRITE, ANSWERING, canceled, recorded));
  }

  lemma MayStart(script: Script, canceled: nat -> bool, recorded: bool)
    ensures Starts(AMPLE, NOTHING, Tried(WRITE, script, canceled, recorded))
  {
  }

  lemma UnknownAddsNothing(step: Step)
    requires step.Tried? && Result(step).Evidence? && Result(step).usage == USAGE_UNKNOWN
    ensures UsedBy(step).latencyMs == 0
  {
    if Reported(step) {
      UsedIsReported(step);
    }
  }

  lemma FreeStep(budget: Budget, step: Step)
    requires Starts(budget, NOTHING, step) && UsedBy(step).latencyMs == 0
    ensures IsRun(budget, [step]) && TotalsOf([step]).latencyMs == 0 && Spent([step]) == SpentBy(step)
  {
    OneStep(step);
    OneStepRun(budget, step);
  }

  /**
   Whatever went before it, a success leaves what the whole run has really spent within the
   latency budget, with all of it in the totals; and a success that wrote leaves the run
   within every token and cost amount that is known.
   */
  lemma SuccessWithinRun(budget: Budget, steps: seq<Step>, i: nat)
    requires IsRun(budget, steps) && i < |steps| && Succeeded(steps[i])
    ensures Spent(steps[..i + 1]) == TotalsOf(steps[..i + 1]).latencyMs <= budget.latencyMs
    ensures steps[i].order.MayWrite() ==>
              && TotalsOf(steps[..i + 1]).inputTokens <= budget.inputTokens
              && TotalsOf(steps[..i + 1]).outputTokens <= budget.outputTokens
              && (TotalsOf(steps[..i]).costMicrousd <= budget.costMicrousd ==>
                    TotalsOf(steps[..i + 1]).costMicrousd <= budget.costMicrousd)
  {
    assert Starts(budget, TotalsOf(steps[..i]), steps[i]);
    TotalsThrough(steps, i);
    SpentThrough(steps, i);
    TotalsAreSpending(budget, steps, i);
    SuccessCharge(steps[i]);
    SuccessFits(budget, TotalsOf(steps[..i]), steps[i]);
  }

  lemma SuccessCharge(step: Step)
    requires Reported(step) && IsSuccess(Result(step))
    ensures UsedBy(step).latencyMs == SpentBy(step)
  {
    SuccessAccounted(step);
    UsedIsReported(step);
    AccountedCharge(step.order, step.script, step.canceled);
  }

  /** A success started on some totals leaves them within the budget. */
  lemma SuccessFits(budget: Budget, before: Totals, step: Step)
    requires Succeeded(step) && Starts(budget, before, step)
    ensures var after := Add(before, UsedBy(step));
            && after.latencyMs <= budget.latencyMs
            && (step.order.MayWrite() ==>
                  && after.inputTokens <= budget.inputTokens && after.outputTokens <= budget.outputTokens
                  && (before.costMicrousd <= budget.costMicrousd ==> after.costMicrousd <= budget.costMicrousd))
  {
    UsedIsReported(step);
    SuccessWithinBudgets(step.order, step.script, step.canceled);
  }

  /** Once the latency budget is spent no later attempt with checks is reported as a success. */
  lemma SpentRunNeverSucceeds(budget: Budget, steps: seq<Step>, i: nat, j: nat)
    requires IsRun(budget, steps) && i <= j < |steps|
    requires TotalsOf(steps[..i]).latencyMs >= budget.latencyMs
    ensures !Succeeded(steps[j])
  {
    LatencyGrows(steps, i, j);
    assert Starts(budget, TotalsOf(steps[..j]), steps[j]);
    if IsSuccess(if steps[j].Tried? then Result(steps[j]) else Raised) {
      SuccessWithinBudgets(steps[j].order, steps[j].script, steps[j].canceled);
    }
  }
}
