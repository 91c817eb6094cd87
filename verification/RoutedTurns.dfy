/** From the planner to the execution: what a turn on a planned request can and cannot run into. */
module RoutedTurns {
  import opened Wrappers
  import opened RunTraces
  import opened Orchestrator
  import opened TraceLaws
  import opened TaskLaws
  import P = Planning

  function RouteStepOf(step: P.Step): RouteStep {
    RouteStep(step.agent, Some(step.intent))
  }

  /** The planner's result as the orchestrator executes it. */
  function Routed(c: P.Compound): (plan: Plan)
    ensures |plan.steps| == |c.steps|
  {
    Plan(if c.shape.Parallel? then Parallel else Pipeline,
         seq(|c.steps|, i requires 0 <= i < |c.steps| => RouteStepOf(c.steps[i])))
  }

  lemma {:induction false} PlannedIsShort(plan: Option<P.Compound>, intent: string, read: string -> P.Reading)
    requires P.PlansRequest(plan, intent, read) && plan.Some?
    ensures 2 <= |plan.value.steps| <= P.COMPOUND_MAX_STEPS
  {
  }

  lemma {:induction false} ShortTurns(plan: Plan, message: string, answers: nat -> Answer)
    requires 0 < |plan.steps| <= MAX_RUN_STEPS
    ensures var n, turn := |plan.steps|, OrchestrateTurn(plan, message, None, answers);
            && |turn.trace.steps| <= n
            && (turn.trace.status == RunFailed <==>
                  if plan.shape.Parallel? then forall i: nat :: i < n ==> answers(i).Refused?
                  else !AllAnswered(answers, n) || CostOf(answers, n - 1) >= MAX_RUN_COST_TOKENS)
  {
    EveryTurnLeavesACompleteTrace(plan, message, None, answers);
  }

  lemma {:induction false} ShortPlansMeetNoStepCap(c: P.Compound, intent: string, answers: nat -> Answer)
    requires 2 <= |c.steps| <= P.COMPOUND_MAX_STEPS
    ensures var n := |c.steps|;
            && Routed(c).steps != []
            && var turn := OrchestrateTurn(Routed(c), intent, None, answers);
               && |turn.trace.steps| <= n
               && (turn.trace.status == RunFailed <==>
                     if c.shape.Parallel? then forall i: nat :: i < n ==> answers(i).Refused?
                     else !AllAnswered(answers, n) || CostOf(answers, n - 1) >= MAX_RUN_COST_TOKENS)
  {
    ShortTurns(Routed(c), intent, answers);
  }

  /** A turn on a planned request never reaches the step cap: it fails exactly when every branch fails, in
      parallel, and otherwise when a step fails or the cost cap is reached before the last one. */
  lemma {:induction false} PlannedTurnsMeetNoStepCap(
    plan: Option<P.Compound>, intent: string, read: string -> P.Reading, answers: nat -> Answer)
    requires P.PlansRequest(plan, intent, read) && plan.Some?
    ensures var n := |plan.value.steps|;
            && Routed(plan.value).steps != []
            && var turn := OrchestrateTurn(Routed(plan.value), intent, None, answers);
               && |turn.trace.steps| <= n <= P.COMPOUND_MAX_STEPS
               && (turn.trace.status == RunFailed <==>
                     if plan.value.shape.Parallel? then forall i: nat :: i < n ==> answers(i).Refused?
                     else !AllAnswered(answers, n) || CostOf(answers, n - 1) >= MAX_RUN_COST_TOKENS)
  {
    PlannedIsShort(plan, intent, read);
    ShortPlansMeetNoStepCap(plan.value, intent, answers);
  }

  /** Every dispatched step runs its own part of the request: task i goes to the agent of planned step i and
      asks for what that step asks. */
  lemma {:induction false} StepsRunTheirOwnIntent(
    c: P.Compound, message: string, context: Option<string>, answers: nat -> Answer, i: nat)
    requires c.steps != [] && Routed(c).steps != []
    requires i < |TasksOfTurn(Routed(c), message, context, answers)|
    ensures i < |c.steps|
    ensures var task := TasksOfTurn(Routed(c), message, context, answers)[i];
            && task.agent == c.steps[i].agent
            && (c.steps[i].intent != "" ==> task.intent == c.steps[i].intent)
  {
    EveryTaskCarriesItsText(Routed(c), message, context, answers);
    assert RightTask(TasksOfTurn(Routed(c), message, context, answers)[i], Routed(c), message, answers, i);
    assert Routed(c).steps[i] == RouteStepOf(c.steps[i]);
  }
}
