/** What every turn hands to its agents, and what the trace tells of it. */
module TaskLaws {
  import opened Wrappers
  import opened Text
  import opened RunTraces
  import opened Orchestrator
  import opened TraceLaws

  /** The text of a dispatch is the step's own intent, or the message when the step has none or an empty one. */
  ghost predicate Carries(text: string, step: RouteStep, message: string) {
    && (step.intent.Some? && step.intent.value != "" ==> text == step.intent.value)
    && (step.intent.None? || step.intent.value == "" ==> text == message)
  }

  /** `shown` is `text`, or its first 200 characters if it is longer. */
  ghost predicate Previews(shown: string, text: string) {
    shown <= text && |shown| == if |text| < 200 then |text| else 200
  }

  /** The hop by which the orchestrator hands over a task. */
  ghost predicate Announces(h: Hop, task: AgentTask) {
    h.source == "orchestrator" && h.target == Some(task.agent) && h.role.TaskHop? && Previews(h.preview, task.intent)
  }

  /** The hop by which an agent reports what became of its task. */
  ghost predicate Reports(h: Hop, agent: AgentKey, answer: Answer) {
    && h.source == agent && h.target.None?
    && match answer
       case Answered(reply) => h.role.ResultHop? && Previews(h.preview, reply.output)
       case Refused(error) => h.role.ErrorHop? && Previews(h.preview, error)
  }

  /** What the first `i` steps found, in order, each handed to the step after it if `handed`. */
  ghost predicate Findings(scratch: seq<Scratch>, steps: seq<RouteStep>, answers: nat -> Answer, i: nat, handed: bool) {
    && |scratch| == i < |steps|
    && forall j: nat :: j < i ==> Finding(scratch[j], steps, answers, j, handed)
  }

  ghost predicate Finding(s: Scratch, steps: seq<RouteStep>, answers: nat -> Answer, j: nat, handed: bool)
    requires j + 1 < |steps|
  {
    && s.agent == steps[j].agent && answers(j).Answered? && s.output == answers(j).reply.output
    && s.handoffTo == if handed then Some(steps[j + 1].agent) else None
  }

  /** Task `i` of an in-order pass. */
  ghost predicate TaskFits(
    task: AgentTask, steps: seq<RouteStep>, message: string, answers: nat -> Answer, i: nat, handed: bool)
    requires i < |steps|
  {
    task.agent == steps[i].agent && Carries(task.intent, steps[i], message)
    && Findings(task.scratch, steps, answers, i, handed)
  }

  /** What a pass that is still going holds for the steps to come; the last finding of all goes to nobody. */
  ghost predicate Holds(p: Progress, steps: seq<RouteStep>, answers: nat -> Answer, n: nat) {
    && |p.scratch| == |p.results| == n <= |steps|
    && forall j: nat :: j < n ==>
         && answers(j).Answered? && p.results[j] == (steps[j].agent, answers(j).reply)
         && p.scratch[j] == Scratch(steps[j].agent, answers(j).reply.output, Some(AgentAfter(steps, j)))
  }

  ghost predicate TasksFit(p: Progress, steps: seq<RouteStep>, message: string, answers: nat -> Answer, n: nat) {
    && |p.tasks| == |p.trace.steps| <= n <= |steps|
    && (forall i: nat :: i < |p.tasks| ==> TaskFits(p.tasks[i], steps, message, answers, i, true))
    && (p.verdict.Going? ==> |p.tasks| == n && Holds(p, steps, answers, n))
  }

  lemma {:induction false} NextTaskFits(
    p: Progress, steps: seq<RouteStep>, message: string, answers: nat -> Answer, n: nat)
    requires n < |steps| && TasksFit(p, steps, message, answers, n) && p.verdict.Going?
    ensures TasksFit(StepOnce(p, steps[n], AgentAfter(steps, n), message, answers(n)), steps, message, answers, n + 1)
  {
    var q := StepOnce(p, steps[n], AgentAfter(steps, n), message, answers(n));
    if Refusal(p.guard, 1).None? {
      var task := AgentTask(steps[n].agent, IntentOf(steps[n], message), p.scratch);
      assert q.tasks == p.tasks + [task];
      assert Findings(p.scratch, steps, answers, n, true);
      assert TaskFits(task, steps, message, answers, n, true);
    }
  }

  lemma {:induction false} PassFits(steps: seq<RouteStep>, message: string, answers: nat -> Answer)
    ensures TasksFit(InOrder(steps, message, answers), steps, message, answers, |steps|)
  {
    var inv := (q: Progress, i: nat) => TasksFit(q, steps, message, answers, i);
    var dispatch := Dispatcher(steps, message, answers);
    forall q: Progress, i: nat | i < |steps| && inv(q, i)
      ensures inv(if q.verdict.Stopped? then q else dispatch(q, i), i + 1)
    {
      if q.verdict.Going? {
        NextTaskFits(q, steps, message, answers, i);
      }
    }
    SweepKeeps(AtStart, |steps|, dispatch, inv);
  }

  /** The tasks of the head are those of the whole plan. */
  lemma {:induction false} HeadTaskFits(
    task: AgentTask, steps: seq<RouteStep>, message: string, answers: nat -> Answer, i: nat)
    requires i + 1 < |steps| && TaskFits(task, steps[..|steps| - 1], message, answers, i, true)
    ensures TaskFits(task, steps, message, answers, i, true)
  {
    var init := steps[..|steps| - 1];
    forall j: nat | j < i ensures Finding(task.scratch[j], steps, answers, j, true) {
      assert Finding(task.scratch[j], init, answers, j, true);
      assert init[j + 1] == steps[j + 1];
    }
  }

  lemma {:induction false} TerminalTaskFits(
    head: Progress, steps: seq<RouteStep>, message: string, answers: nat -> Answer)
    requires steps != [] && Holds(head, steps[..|steps| - 1], answers, |steps| - 1)
    ensures TaskFits(LastTask(steps, message, HeadScratch(head.results)),
                     steps, message, answers, |steps| - 1, false)
  {
    var scratch := HeadScratch(head.results);
    forall j: nat | j < |steps| - 1 ensures Finding(scratch[j], steps, answers, j, false) {
      assert steps[..|steps| - 1][j] == steps[j];
    }
  }

  ghost predicate InOrderTasks(
    tasks: seq<AgentTask>, steps: seq<RouteStep>, message: string, answers: nat -> Answer)
  {
    && |tasks| <= |steps|
    && forall i: nat :: i < |tasks| ==> TaskFits(tasks[i], steps, message, answers, i, i + 1 < |steps|)
  }

  lemma {:induction false} SplitTasksFit(steps: seq<RouteStep>, message: string, answers: nat -> Answer)
    requires steps != []
    ensures var p := HeadThenTerminal(steps, message, answers);
            InOrderTasks(p.tasks, steps, message, answers) && |p.tasks| == |p.trace.steps|
  {
    var last := |steps| - 1;
    var head := InOrder(steps[..last], message, answers);
    PassFits(steps[..last], message, answers);
    forall i: nat | i < |head.tasks| ensures TaskFits(head.tasks[i], steps, message, answers, i, true) {
      HeadTaskFits(head.tasks[i], steps, message, answers, i);
    }
    if head.verdict.Going? {
      TerminalTaskFits(head, steps, message, answers);
      var p := head.(scratch := HeadScratch(head.results));
      if Refusal(head.guard, 1).None? {
        DispatchAddsTask(p, steps[last], "", message, answers(last));
      }
    }
  }

  /** Task `i` of a turn: whose it is, what it asks, and what it is given of the earlier answers. In order
      that is everything found so far, and only the terminal step is not named as the one it is for. */
  ghost predicate RightTask(task: AgentTask, plan: Plan, message: string, answers: nat -> Answer, i: nat)
    requires i < |plan.steps|
  {
    && task.agent == plan.steps[i].agent && Carries(task.intent, plan.steps[i], message)
    && if plan.shape.Parallel? then task.scratch == []
       else Findings(task.scratch, plan.steps, answers, i, i + 1 < |plan.steps|)
  }

  /** Where the trace shows the task hop and the closing hop of dispatch `i` of `n`. */
  function TaskHopAt(plan: Plan, i: nat): nat {
    if plan.shape.Parallel? then i else 2 * i
  }

  function EndHopAt(plan: Plan, i: nat, n: nat): nat {
    if plan.shape.Parallel? then n + i else 2 * i + 1
  }

  /** Dispatch `i` in the trace: its row, the hop that hands it over, and the hop that reports on it. */
  ghost predicate ShowsTask(t: Trace, task: AgentTask, plan: Plan, answer: Answer, i: nat) {
    var (from, to) := (TaskHopAt(plan, i), EndHopAt(plan, i, |t.steps|));
    && i < |t.steps| && from < |t.hops| && to < |t.hops|
    && t.steps[i].agent == task.agent
    && Announces(t.hops[from], task) && Reports(t.hops[to], task.agent, answer)
  }

  lemma {:induction false} HopsTell(
    number: nat, step: RouteStep, message: string, answer: Answer, task: AgentTask)
    requires task.agent == step.agent && Carries(task.intent, step, message)
    ensures Announces(StartHop(number, step, message), task)
    ensures Reports(EndHop(number, step, answer), task.agent, answer)
  {
  }

  /** Where the hops of dispatch `i` are. */
  lemma {:induction false} HopsOfDispatch(t: Trace, plan: Plan, message: string, answers: nat -> Answer, i: nat)
    requires CompleteTrace(t, plan, message, answers) && i < |t.steps|
    ensures var (from, to) := (TaskHopAt(plan, i), EndHopAt(plan, i, |t.steps|));
            && i < |plan.steps| && from < |t.hops| && to < |t.hops|
            && t.hops[from] == StartHop(from + 1, plan.steps[i], message)
            && t.hops[to] == EndHop(to + 1, plan.steps[i], answers(i))
            && t.steps[i] == FinalRow(i + 1, plan.steps[i], answers(i))
  {
  }

  lemma {:induction false} TraceShows(
    t: Trace, task: AgentTask, plan: Plan, message: string, answers: nat -> Answer, i: nat)
    requires CompleteTrace(t, plan, message, answers) && i < |t.steps|
    requires i < |plan.steps| && task.agent == plan.steps[i].agent && Carries(task.intent, plan.steps[i], message)
    ensures ShowsTask(t, task, plan, answers(i), i)
  {
    var (from, to) := (TaskHopAt(plan, i), EndHopAt(plan, i, |t.steps|));
    HopsOfDispatch(t, plan, message, answers, i);
    HopsTell(from + 1, plan.steps[i], message, answers(i), task);
    HopsTell(to + 1, plan.steps[i], message, answers(i), task);
  }

  lemma {:induction false} BranchTaskAt(steps: seq<RouteStep>, message: string, n: nat)
    requires n <= |steps|
    ensures |BranchTasks(steps, message, n)| == n
    ensures forall i: nat :: i < n ==>
      BranchTasks(steps, message, n)[i] == AgentTask(steps[i].agent, IntentOf(steps[i], message), [])
  {
    if n > 0 {
      BranchTaskAt(steps, message, n - 1);
    }
  }

  lemma {:induction false} BranchesOpened(plan: Plan, message: string, answers: nat -> Answer)
    requires plan.steps != [] && plan.shape.Parallel?
    ensures |OrchestrateTurn(plan, message, None, answers).trace.steps|
         == if Refusal(Ledger(0, 0), |plan.steps|).Some? then 0 else |plan.steps|
  {
  }

  lemma {:induction false} FannedTasks(plan: Plan, message: string, answers: nat -> Answer)
    requires plan.steps != [] && plan.shape.Parallel?
    ensures var tasks := TasksOfTurn(plan, message, None, answers);
            && |tasks| == |OrchestrateTurn(plan, message, None, answers).trace.steps|
            && |tasks| <= |plan.steps|
            && forall i: nat :: i < |tasks| ==> RightTask(tasks[i], plan, message, answers, i)
  {
    BranchesOpened(plan, message, answers);
    BranchTaskAt(plan.steps, message, |plan.steps|);
  }

  lemma {:induction false} TurnTasks(plan: Plan, message: string, context: Option<string>, answers: nat -> Answer)
    requires plan.steps != []
    ensures var tasks := TasksOfTurn(plan, message, context, answers);
            && |tasks| == |OrchestrateTurn(plan, message, context, answers).trace.steps|
            && |tasks| <= |plan.steps|
            && forall i: nat :: i < |tasks| ==> RightTask(tasks[i], plan, message, answers, i)
  {
    if context.Some? {
    } else if plan.shape.Parallel? {
      FannedTasks(plan, message, answers);
    } else {
      SplitTasksFit(plan.steps, message, answers);
    }
  }

  /** In every turn each traced step is one dispatched task, in the order of the plan. It asks for the step's
      own intent, or for the message if the step has none; it is given exactly the earlier findings it is
      due; and its two hops quote what it was asked and what came of it. */
  lemma {:induction false} EveryTaskCarriesItsText(
    plan: Plan, message: string, context: Option<string>, answers: nat -> Answer)
    requires plan.steps != []
    ensures var tasks := TasksOfTurn(plan, message, context, answers);
            var trace := OrchestrateTurn(plan, message, context, answers).trace;
            && |tasks| == |trace.steps| <= |plan.steps|
            && forall i: nat :: i < |tasks| ==>
                 && RightTask(tasks[i], plan, message, answers, i)
                 && ShowsTask(trace, tasks[i], plan, answers(i), i)
  {
    var tasks := TasksOfTurn(plan, message, context, answers);
    var trace := OrchestrateTurn(plan, message, context, answers).trace;
    TurnTasks(plan, message, context, answers);
    EveryTurnLeavesACompleteTrace(plan, message, context, answers);
    forall i: nat | i < |tasks| ensures ShowsTask(trace, tasks[i], plan, answers(i), i) {
      assert RightTask(tasks[i], plan, message, answers, i);
      TraceShows(trace, tasks[i], plan, message, answers, i);
    }
  }

  /** A fan-out in which every branch fails: nothing but failures, one per branch, and an error that lists them. */
  lemma {:induction false} AllRefused(steps: seq<RouteStep>, message: string, answers: nat -> Answer)
    requires 0 < |steps| <= MAX_RUN_STEPS && forall j: nat :: j < |steps| ==> answers(j).Refused?
    ensures ParallelRun(steps, message, answers).1
         == Stopped(ALL_BRANCHES_FAILED + JoinFailures(FailuresOf(steps, answers, |steps|)))
    ensures |FailuresOf(steps, answers, |steps|)| == |steps|
  {
    var n := |steps|;
    FanOutLaunches(steps, message, n);
    GatherLeaves(FanOut(FreshTrace, steps, message, n), steps, message, answers);
    CountZeroIffAllRefused(answers, n);
    FilteringSplits(steps, answers, n);
  }

  /** When every branch fails, the error of the turn quotes the agent and the error of each of them. */
  lemma {:induction false} AllFailedSaysWhy(plan: Plan, message: string, answers: nat -> Answer, i: nat)
    requires plan.shape.Parallel? && i < |plan.steps| <= MAX_RUN_STEPS
    requires forall j: nat :: j < |plan.steps| ==> answers(j).Refused?
    ensures var raised := OrchestrateTurn(plan, message, None, answers).raised;
            && raised.Some? && "all parallel branches failed: " <= raised.value
            && Contains(raised.value, plan.steps[i].agent + ": " + answers(i).error)
  {
    AllRefused(plan.steps, message, answers);
    FailureQuoted(FailuresOf(plan.steps, answers, |plan.steps|), plan.steps, answers, i);
  }

  lemma {:induction false} FailureQuoted(
    failures: seq<AgentFailure>, steps: seq<RouteStep>, answers: nat -> Answer, i: nat)
    requires i < |steps| == |failures| && forall j: nat :: j < |steps| ==> answers(j).Refused?
    requires failures == FailuresOf(steps, answers, |steps|)
    ensures Contains(ALL_BRANCHES_FAILED + JoinFailures(failures), steps[i].agent + ": " + answers(i).error)
  {
    FilteringSplits(steps, answers, |steps|);
    CountZeroIffAllRefused(answers, |steps|);
    CountZeroIffAllRefused(answers, i);
    assert Placed(ResultsOf(steps, answers, |steps|), failures, steps, answers, i);
    var parts := seq(|failures|, j requires 0 <= j < |failures| => failures[j].0 + ": " + failures[j].1);
    var at := JoinContains("; ", parts, i);
    var text, part := ALL_BRANCHES_FAILED + JoinFailures(failures), parts[i];
    forall k | 0 <= k < |part| ensures part[k] == text[|ALL_BRANCHES_FAILED| + at + k] {
      assert part[k] == JoinFailures(failures)[at + k];
    }
    assert OccursAt(text, part, |ALL_BRANCHES_FAILED| + at);
  }

  /** The error of an in-order turn that dispatched its first `k` steps. */
  function ReasonAfter(answers: nat -> Answer, k: nat, n: nat): Option<string> {
    if k > 0 && answers(k - 1).Refused? then Some(answers(k - 1).error)
    else if k == n then None
    else if k == 8 then Some("run step cap reached (8)")
    else Some("run cost cap reached (60000 tokens)")
  }

  lemma {:induction false} PassStops(p: Progress, steps: seq<RouteStep>, message: string, answers: nat -> Answer)
    requires InOrderOutcome(p, steps, message, answers, |steps|)
    ensures var error := ReasonAfter(answers, |p.trace.steps|, |steps|);
            p.verdict == if error.Some? then Stopped(error.value) else Going
  {
  }

  /** What a failed turn says: the error of the context, of the step that failed, or of the cap that was met. */
  lemma {:induction false} FailuresSayWhy(
    plan: Plan, message: string, context: Option<string>, answers: nat -> Answer)
    requires plan.steps != []
    ensures var turn := OrchestrateTurn(plan, message, context, answers);
            && (context.Some? ==> turn.raised == context)
            && (context.None? && plan.shape.Parallel? && |plan.steps| > 8 ==>
                  turn.raised == Some("run step cap reached (8)"))
            && (context.None? && !plan.shape.Parallel? ==>
                  turn.raised == ReasonAfter(answers, |turn.trace.steps|, |plan.steps|))
  {
    if context.None? && !plan.shape.Parallel? {
      InOrderLeaves(plan.steps, message, answers);
      HeadThenTerminalIsOnePass(plan.steps, message, answers);
      PassStops(InOrder(plan.steps, message, answers), plan.steps, message, answers);
    }
  }
}
