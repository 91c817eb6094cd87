/** Executing a routed plan: single steps and pipelines in order, parallel plans as one fan-out. */
module Orchestrator {
  import opened Wrappers
  import opened RunTraces
  import opened Text

  const MAX_RUN_STEPS: nat := 8
  const MAX_RUN_COST_TOKENS: nat := 60_000
  const STEP_CAP_REACHED: string := "run step cap reached (8)"
  const COST_CAP_REACHED: string := "run cost cap reached (60000 tokens)"
  const ALL_BRANCHES_FAILED: string := "all parallel branches failed: "

  datatype RouteStep = RouteStep(agent: AgentKey, intent: Option<string>)

  datatype Shape = Single | Pipeline | Parallel

  datatype Plan = Plan(shape: Shape, steps: seq<RouteStep>)

  /** What an earlier step leaves for a later one; a hand-off names the step it is meant for. */
  datatype Scratch = Scratch(agent: AgentKey, output: string, handoffTo: Option<AgentKey>)

  datatype AgentTask = AgentTask(agent: AgentKey, intent: string, scratch: seq<Scratch>)

  datatype Ledger = Ledger(steps: nat, cost: nat)

  datatype Verdict = Going | Stopped(error: string)

  type AgentResult = (AgentKey, Reply)
  type AgentFailure = (AgentKey, string)

  datatype Progress = Progress(
    trace: Trace,
    guard: Ledger,
    results: seq<AgentResult>,
    scratch: seq<Scratch>,
    tasks: seq<AgentTask>,
    verdict: Verdict)

  /** Why the guard refuses `branches` more dispatches, if it does. */
  function Refusal(g: Ledger, branches: nat): Option<string> {
    if g.steps + branches > MAX_RUN_STEPS then Some(STEP_CAP_REACHED)
    else if g.cost >= MAX_RUN_COST_TOKENS then Some(COST_CAP_REACHED)
    else None
  }

  function Recorded(g: Ledger, reply: Reply): Ledger {
    Ledger(g.steps + 1, g.cost + reply.cost)
  }

  /** An absent or empty step intent falls back to the whole message. */
  function IntentOf(step: RouteStep, message: string): string {
    if step.intent.Some? && step.intent.value != "" then step.intent.value else message
  }

  class RunGuard {
    var steps: nat
    var cost: nat

    ghost function Value(): Ledger
      reads this
    {
      Ledger(steps, cost)
    }

    constructor ()
      ensures Value() == Ledger(0, 0)
    {
      steps, cost := 0, 0;
    }

    method CheckBeforeDispatch(branches: nat) returns (refusal: Option<string>)
      ensures refusal == Refusal(Value(), branches)
    {
      if steps + branches > MAX_RUN_STEPS {
        return Some(STEP_CAP_REACHED);
      }
      if cost >= MAX_RUN_COST_TOKENS {
        return Some(COST_CAP_REACHED);
      }
      return None;
    }

    method Record(reply: Reply)
      modifies this
      ensures Value() == Recorded(old(Value()), reply)
    {
      steps := steps + 1;
      cost := cost + reply.cost;
    }
  }

  // ---- One dispatch in order ----

  function StepOnce(p: Progress, step: RouteStep, next: AgentKey, message: string, answer: Answer): Progress {
    var refusal := Refusal(p.guard, 1);
    if refusal.Some? then p.(verdict := Stopped(refusal.value))
    else
      var intent := IntentOf(step, message);
      var closed := Closed(Opened(p.trace, step.agent, intent), |p.trace.steps|, answer);
      var tasks := p.tasks + [AgentTask(step.agent, intent, p.scratch)];
      match answer
      case Refused(error) => p.(trace := closed, tasks := tasks, verdict := Stopped(error))
      case Answered(reply) =>
        Progress(closed, Recorded(p.guard, reply), p.results + [(step.agent, reply)],
                 p.scratch + [Scratch(step.agent, reply.output, Some(next))], tasks, Going)
  }

  function AgentAfter(steps: seq<RouteStep>, i: nat): AgentKey {
    if i + 1 < |steps| then steps[i + 1].agent else ""
  }

  /** `n` dispatches in order, stopping at the first refusal or failure. */
  function Sweep(p: Progress, n: nat, dispatch: (Progress, nat) -> Progress): Progress {
    if n == 0 then p
    else
      var q := Sweep(p, n - 1, dispatch);
      if q.verdict.Stopped? then q else dispatch(q, n - 1)
  }

  function Dispatcher(steps: seq<RouteStep>, message: string, answers: nat -> Answer): (Progress, nat) -> Progress {
    (q: Progress, i: nat) =>
      if i < |steps| then StepOnce(q, steps[i], AgentAfter(steps, i), message, answers(i)) else q
  }

  /** A list of steps run in order from a fresh run. */
  function InOrder(steps: seq<RouteStep>, message: string, answers: nat -> Answer): Progress {
    Sweep(AtStart, |steps|, Dispatcher(steps, message, answers))
  }

  /** One more dispatch of a pass, unfolded. */
  lemma {:induction false} SweepStep(steps: seq<RouteStep>, message: string, answers: nat -> Answer, n: nat)
    requires 0 < n <= |steps|
    ensures var q := Sweep(AtStart, n - 1, Dispatcher(steps, message, answers));
            Sweep(AtStart, n, Dispatcher(steps, message, answers)) ==
              if q.verdict.Stopped? then q
              else StepOnce(q, steps[n - 1], AgentAfter(steps, n - 1), message, answers(n - 1))
  {
  }

  lemma {:induction false} StoppedStays(p: Progress, n: nat, m: nat, dispatch: (Progress, nat) -> Progress)
    requires n <= m && Sweep(p, n, dispatch).verdict.Stopped?
    ensures Sweep(p, m, dispatch) == Sweep(p, n, dispatch)
    decreases m
  {
    if n < m {
      StoppedStays(p, n, m - 1, dispatch);
    }
  }

  const AtStart: Progress := Progress(FreshTrace, Ledger(0, 0), [], [], [], Going)

  /** The findings of the head steps as the terminal step receives them: agent and output only. */
  function HeadScratch(results: seq<AgentResult>): seq<Scratch> {
    seq(|results|, i requires 0 <= i < |results| => Scratch(results[i].0, results[i].1.output, None))
  }

  /** A plan run as head steps first and the terminal step separately. */
  function HeadThenTerminal(steps: seq<RouteStep>, message: string, answers: nat -> Answer): Progress
    requires steps != []
  {
    var last := |steps| - 1;
    var head := InOrder(steps[..last], message, answers);
    if head.verdict.Stopped? then head
    else StepOnce(head.(scratch := HeadScratch(head.results)), steps[last], "", message, answers(last))
  }

  // ---- The fan-out ----

  function FanOut(t: Trace, steps: seq<RouteStep>, message: string, n: nat): (o: Trace)
    requires n <= |steps|
    ensures |o.steps| == |t.steps| + n
  {
    if n == 0 then t
    else Opened(FanOut(t, steps, message, n - 1), steps[n - 1].agent, IntentOf(steps[n - 1], message))
  }

  datatype Gathered = Gathered(trace: Trace, guard: Ledger, results: seq<AgentResult>, failures: seq<AgentFailure>)

  function GatherOne(g: Gathered, i: nat, agent: AgentKey, answer: Answer): Gathered
    requires i < |g.trace.steps|
  {
    match answer
    case Refused(error) => Gathered(Closed(g.trace, i, answer), g.guard, g.results, g.failures + [(agent, error)])
    case Answered(reply) =>
      Gathered(Closed(g.trace, i, answer), Recorded(g.guard, reply), g.results + [(agent, reply)], g.failures)
  }

  function Gather(t: Trace, g: Ledger, steps: seq<RouteStep>, answers: nat -> Answer, n: nat): (r: Gathered)
    requires n <= |steps| && |t.steps| == |steps|
    ensures |r.trace.steps| == |steps|
  {
    if n == 0 then Gathered(t, g, [], [])
    else GatherOne(Gather(t, g, steps, answers, n - 1), n - 1, steps[n - 1].agent, answers(n - 1))
  }

  /** Why each failing branch failed, in dispatch order. */
  function JoinFailures(failures: seq<AgentFailure>): string {
    Join("; ", seq(|failures|, i requires 0 <= i < |failures| => failures[i].0 + ": " + failures[i].1))
  }

  /** The tasks of a fan-out: nothing is handed from one branch to another. */
  function BranchTasks(steps: seq<RouteStep>, message: string, n: nat): seq<AgentTask>
    requires n <= |steps|
  {
    if n == 0 then []
    else BranchTasks(steps, message, n - 1) + [AgentTask(steps[n - 1].agent, IntentOf(steps[n - 1], message), [])]
  }

  function ParallelRun(steps: seq<RouteStep>, message: string, answers: nat -> Answer): (Gathered, Verdict) {
    var refusal := Refusal(Ledger(0, 0), |steps|);
    if refusal.Some? then (Gathered(FreshTrace, Ledger(0, 0), [], []), Stopped(refusal.value))
    else
      var g := Gather(FanOut(FreshTrace, steps, message, |steps|), Ledger(0, 0), steps, answers, |steps|);
      (g, if g.results == [] then Stopped(ALL_BRANCHES_FAILED + JoinFailures(g.failures)) else Going)
  }

  // ---- The whole turn ----

  datatype Turn = Turn(trace: Trace, guard: Ledger, results: seq<AgentResult>, failures: seq<AgentFailure>, raised: Option<string>)

  function Finish(t: Trace, guard: Ledger, results: seq<AgentResult>, failures: seq<AgentFailure>, v: Verdict): Turn {
    var raised := if v.Stopped? then Some(v.error) else None;
    Turn(Ended(t, raised), guard, results, failures, raised)
  }

  /** `context` is the error of building the context pack, if that fails. */
  function OrchestrateTurn(plan: Plan, message: string, context: Option<string>, answers: nat -> Answer): Turn
    requires plan.steps != []
  {
    if context.Some? then Finish(FreshTrace, Ledger(0, 0), [], [], Stopped(context.value))
    else if plan.shape.Parallel? then
      var (g, v) := ParallelRun(plan.steps, message, answers);
      Finish(g.trace, g.guard, g.results, g.failures, v)
    else
      var p := HeadThenTerminal(plan.steps, message, answers);
      Finish(p.trace, p.guard, p.results, [], p.verdict)
  }

  /** The tasks that a turn dispatches, in order. */
  function TasksOfTurn(plan: Plan, message: string, context: Option<string>, answers: nat -> Answer): seq<AgentTask>
    requires plan.steps != []
  {
    if context.Some? then []
    else if plan.shape.Parallel? then
      if Refusal(Ledger(0, 0), |plan.steps|).Some? then [] else BranchTasks(plan.steps, message, |plan.steps|)
    else HeadThenTerminal(plan.steps, message, answers).tasks
  }

  function TotalCost(results: seq<AgentResult>): nat {
    if results == [] then 0 else TotalCost(results[..|results| - 1]) + results[|results| - 1].1.cost
  }

  /** What a pass has collected: results, findings for the next step, and the tasks it dispatched. */
  datatype Pass = Pass(results: seq<AgentResult>, scratch: seq<Scratch>, tasks: seq<AgentTask>)

  ghost predicate Collected(sofar: Pass, p: Progress) {
    sofar.results == p.results && sofar.scratch == p.scratch && sofar.tasks == p.tasks
  }

  /** One in-order dispatch: the body of the sequential loop. */
  method RunStep(run: RunRecorder, guard: RunGuard, step: RouteStep, next: AgentKey, message: string, answer: Answer,
                 before: Pass, ghost p: Progress)
    returns (after: Pass, verdict: Verdict)
    requires run.Snapshot() == p.trace && guard.Value() == p.guard && p.verdict == Going && Collected(before, p)
    modifies run, guard
    ensures var q := StepOnce(p, step, next, message, answer);
            && run.Snapshot() == q.trace && guard.Value() == q.guard && verdict == q.verdict && Collected(after, q)
  {
    after := before;
    var refusal := guard.CheckBeforeDispatch(1);
    if refusal.Some? {
      return after, Stopped(refusal.value);
    }
    var intent := IntentOf(step, message);
    var row := run.OpenStep(step.agent, intent);
    after := after.(tasks := after.tasks + [AgentTask(step.agent, intent, after.scratch)]);
    match answer {
      case Refused(error) =>
        run.CloseStepFailure(row, error);
        return after, Stopped(error);
      case Answered(reply) =>
        guard.Record(reply);
        run.CloseStepSuccess(row, reply);
        after := after.(results := after.results + [(step.agent, reply)],
                        scratch := after.scratch + [Scratch(step.agent, reply.output, Some(next))]);
        return after, Going;
    }
  }

  /** Step `i` of the loop. */
  method RunNext(run: RunRecorder, guard: RunGuard, steps: seq<RouteStep>, message: string, answers: nat -> Answer,
                 i: nat, before: Pass, ghost p: Progress)
    returns (after: Pass, verdict: Verdict, ghost q: Progress)
    requires i < |steps| && p == Sweep(AtStart, i, Dispatcher(steps, message, answers)) && p.verdict == Going
    requires run.Snapshot() == p.trace && guard.Value() == p.guard && Collected(before, p)
    modifies run, guard
    ensures q == Sweep(AtStart, i + 1, Dispatcher(steps, message, answers))
    ensures run.Snapshot() == q.trace && guard.Value() == q.guard && verdict == q.verdict && Collected(after, q)
  {
    after, verdict := RunStep(run, guard, steps[i], AgentAfter(steps, i), message, answers(i), before, p);
    q := StepOnce(p, steps[i], AgentAfter(steps, i), message, answers(i));
    SweepStep(steps, message, answers, i + 1);
  }

  /** In-order execution of every step of `steps`. */
  method RunSequential(run: RunRecorder, guard: RunGuard, steps: seq<RouteStep>, message: string, answers: nat -> Answer)
    returns (all: Pass, verdict: Verdict)
    requires run.Snapshot() == FreshTrace && guard.Value() == Ledger(0, 0)
    modifies run, guard
    ensures var p := InOrder(steps, message, answers);
            && run.Snapshot() == p.trace && guard.Value() == p.guard && verdict == p.verdict && Collected(all, p)
  {
    all, verdict := Pass([], [], []), Going;
    ghost var p := AtStart;
    for i := 0 to |steps|
      invariant p == Sweep(AtStart, i, Dispatcher(steps, message, answers)) && p.verdict == Going == verdict
      invariant run.Snapshot() == p.trace && guard.Value() == p.guard && Collected(all, p)
    {
      all, verdict, p := RunNext(run, guard, steps, message, answers, i, all, p);
      if verdict.Stopped? {
        StoppedStays(AtStart, i + 1, |steps|, Dispatcher(steps, message, answers));
        return;
      }
    }
  }

  /** The terminal step, whose output may be streamed; the trace it leaves is that of any other step. */
  method RunTerminal(run: RunRecorder, guard: RunGuard, step: RouteStep, message: string, answer: Answer,
                     before: Pass, ghost p: Progress)
    returns (after: Pass, verdict: Verdict)
    requires run.Snapshot() == p.trace && guard.Value() == p.guard && p.verdict == Going && Collected(before, p)
    modifies run, guard
    ensures var q := StepOnce(p, step, "", message, answer);
            && run.Snapshot() == q.trace && guard.Value() == q.guard && verdict == q.verdict && Collected(after, q)
  {
    after, verdict := RunStep(run, guard, step, "", message, answer, before, p);
  }

  /** Every branch opened, in order, and its task made. */
  method LaunchBranches(run: RunRecorder, steps: seq<RouteStep>, message: string) returns (tasks: seq<AgentTask>)
    requires run.Snapshot() == FreshTrace
    modifies run
    ensures run.Snapshot() == FanOut(FreshTrace, steps, message, |steps|)
    ensures tasks == BranchTasks(steps, message, |steps|)
  {
    tasks := [];
    for i := 0 to |steps|
      invariant run.Snapshot() == FanOut(FreshTrace, steps, message, i)
      invariant tasks == BranchTasks(steps, message, i)
    {
      var intent := IntentOf(steps[i], message);
      var _ := run.OpenStep(steps[i].agent, intent);
      tasks := tasks + [AgentTask(steps[i].agent, intent, [])];
    }
  }

  /** One branch closed with its answer. */
  method GatherBranch(run: RunRecorder, guard: RunGuard, i: nat, agent: AgentKey, answer: Answer,
                      before: seq<AgentResult>, failed: seq<AgentFailure>)
    returns (results: seq<AgentResult>, failures: seq<AgentFailure>)
    requires i < |run.Snapshot().steps|
    modifies run, guard
    ensures Gathered(run.Snapshot(), guard.Value(), results, failures)
         == GatherOne(Gathered(old(run.Snapshot()), old(guard.Value()), before, failed), i, agent, answer)
  {
    results, failures := before, failed;
    match answer {
      case Refused(error) =>
        run.CloseStepFailure(i, error);
        failures := failures + [(agent, error)];
      case Answered(reply) =>
        guard.Record(reply);
        run.CloseStepSuccess(i, reply);
        results := results + [(agent, reply)];
    }
  }

  /** Every branch closed, in dispatch order; a failing branch stops no other. */
  method GatherBranches(run: RunRecorder, guard: RunGuard, steps: seq<RouteStep>, answers: nat -> Answer)
    returns (results: seq<AgentResult>, failures: seq<AgentFailure>)
    requires |run.Snapshot().steps| == |steps|
    modifies run, guard
    ensures Gathered(run.Snapshot(), guard.Value(), results, failures)
         == Gather(old(run.Snapshot()), old(guard.Value()), steps, answers, |steps|)
  {
    results, failures := [], [];
    ghost var launched, ledger := run.Snapshot(), guard.Value();
    for i := 0 to |steps|
      invariant Gathered(run.Snapshot(), guard.Value(), results, failures) == Gather(launched, ledger, steps, answers, i)
    {
      results, failures := GatherBranch(run, guard, i, steps[i].agent, answers(i), results, failures);
    }
  }

  /** The fan-out: every branch opened, then every branch closed in dispatch order. */
  method RunParallel(run: RunRecorder, guard: RunGuard, steps: seq<RouteStep>, message: string, answers: nat -> Answer)
    returns (results: seq<AgentResult>, failures: seq<AgentFailure>, tasks: seq<AgentTask>, verdict: Verdict)
    requires run.Snapshot() == FreshTrace && guard.Value() == Ledger(0, 0)
    modifies run, guard
    ensures var (g, v) := ParallelRun(steps, message, answers);
            && run.Snapshot() == g.trace && guard.Value() == g.guard
            && results == g.results && failures == g.failures && verdict == v
    ensures tasks == if Refusal(Ledger(0, 0), |steps|).Some? then [] else BranchTasks(steps, message, |steps|)
  {
    results, failures, tasks := [], [], [];
    var refusal := guard.CheckBeforeDispatch(|steps|);
    if refusal.Some? {
      return results, failures, tasks, Stopped(refusal.value);
    }
    tasks := LaunchBranches(run, steps, message);
    results, failures := GatherBranches(run, guard, steps, answers);
    verdict := if results == [] then Stopped(ALL_BRANCHES_FAILED + JoinFailures(failures)) else Going;
  }

  /** One orchestrated turn on a new run; an error is recorded on the run and raised again. */
  method Orchestrate(plan: Plan, message: string, context: Option<string>, answers: nat -> Answer)
    returns (run: RunRecorder, results: seq<AgentResult>, failures: seq<AgentFailure>, tasks: seq<AgentTask>,
             raised: Option<string>)
    requires plan.steps != []
    ensures fresh(run)
    ensures var turn := OrchestrateTurn(plan, message, context, answers);
            && run.Snapshot() == turn.trace && raised == turn.raised
            && (raised.None? ==> results == turn.results && failures == turn.failures)
    ensures tasks == TasksOfTurn(plan, message, context, answers)
  {
    run := new RunRecorder();
    var guard := new RunGuard();
    results, failures, tasks := [], [], [];
    if context.Some? {
      run.CloseRun(context);
      return run, results, failures, tasks, context;
    }
    var verdict: Verdict;
    if plan.shape.Parallel? {
      results, failures, tasks, verdict := RunParallel(run, guard, plan.steps, message, answers);
    } else {
      var last := |plan.steps| - 1;
      ghost var head := InOrder(plan.steps[..last], message, answers);
      var pass: Pass;
      pass, verdict := RunSequential(run, guard, plan.steps[..last], message, answers);
      if verdict.Going? {
        pass := pass.(scratch := HeadScratch(pass.results));
        ghost var p := head.(scratch := HeadScratch(head.results));
        pass, verdict := RunTerminal(run, guard, plan.steps[last], message, answers(last), pass, p);
      }
      results, tasks := pass.results, pass.tasks;
    }
    if verdict.Stopped? {
      run.CloseRun(Some(verdict.error));
      return run, results, failures, tasks, Some(verdict.error);
    }
    run.CloseRun(None);
    raised := None;
  }
}
