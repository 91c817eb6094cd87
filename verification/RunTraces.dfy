/** The durable trace of one orchestrated run: its steps, its agent hops and the run row itself. */
module RunTraces {
  import opened Wrappers
  import opened Ordinals

  type AgentKey = string

  const ORCHESTRATOR_ACTOR: AgentKey := "orchestrator"
  const TRACE_PREVIEW_CHARS: nat := 200

  datatype Reply = Reply(output: string, cost: nat)

  /** How one dispatch to a handler ends. */
  datatype Answer = Answered(reply: Reply) | Refused(error: string)

  datatype StepStatus = StepRunning | StepSucceeded | StepFailed

  datatype StepRow = StepRow(
    number: nat, agent: AgentKey, status: StepStatus, output: Option<string>, error: Option<string>, cost: nat)

  datatype Role = TaskHop | ResultHop | ErrorHop

  datatype Hop = Hop(number: nat, source: AgentKey, target: Option<AgentKey>, role: Role, preview: string)

  datatype RunStatus = RunRunning | RunSucceeded | RunFailed

  /** `closings` lists the numbers of the steps in the order they were closed, `endings` counts how
      often the run was given a final status. */
  datatype Trace = Trace(
    steps: seq<StepRow>,
    hops: seq<Hop>,
    status: RunStatus,
    error: Option<string>,
    cost: nat,
    closings: seq<nat>,
    endings: nat)

  const FreshTrace: Trace := Trace([], [], RunRunning, None, 0, [], 0)

  function Preview(s: string): string {
    if |s| <= TRACE_PREVIEW_CHARS then s else s[..TRACE_PREVIEW_CHARS]
  }

  function StepNumbers(steps: seq<StepRow>): seq<nat> {
    seq(|steps|, i requires 0 <= i < |steps| => steps[i].number)
  }

  function HopNumbers(hops: seq<Hop>): seq<nat> {
    seq(|hops|, i requires 0 <= i < |hops| => hops[i].number)
  }

  function WithHop(t: Trace, source: AgentKey, target: Option<AgentKey>, role: Role, text: string): Trace {
    t.(hops := t.hops + [Hop(NextOrdinal(HopNumbers(t.hops)), source, target, role, Preview(text))])
  }

  /** A running step appended, and its task hop. */
  function Opened(t: Trace, agent: AgentKey, intent: string): Trace {
    var row := StepRow(NextOrdinal(StepNumbers(t.steps)), agent, StepRunning, None, None, 0);
    WithHop(t.(steps := t.steps + [row]), ORCHESTRATOR_ACTOR, Some(agent), TaskHop, intent)
  }

  /** Step `i` closed with its answer, and the matching result or error hop. */
  function Closed(t: Trace, i: nat, answer: Answer): Trace
    requires i < |t.steps|
  {
    var row := t.steps[i];
    match answer
    case Answered(reply) =>
      var done := row.(status := StepSucceeded, output := Some(reply.output), error := None, cost := reply.cost);
      var t' := t.(steps := t.steps[i := done], cost := t.cost + reply.cost, closings := t.closings + [row.number]);
      WithHop(t', row.agent, None, ResultHop, reply.output)
    case Refused(error) =>
      var done := row.(status := StepFailed, output := None, error := Some(error), cost := 0);
      var t' := t.(steps := t.steps[i := done], closings := t.closings + [row.number]);
      WithHop(t', row.agent, None, ErrorHop, error)
  }

  function Ended(t: Trace, error: Option<string>): Trace {
    t.(status := if error.Some? then RunFailed else RunSucceeded, error := error, endings := t.endings + 1)
  }

  /** The rows behind one run, as the recorder and the repositories update them. */
  class RunRecorder {
    var steps: seq<StepRow>
    var hops: seq<Hop>
    var status: RunStatus
    var error: Option<string>
    var cost: nat
    ghost var closings: seq<nat>
    ghost var endings: nat

    ghost function Snapshot(): Trace
      reads this
    {
      Trace(steps, hops, status, error, cost, closings, endings)
    }

    constructor ()
      ensures Snapshot() == FreshTrace
    {
      steps, hops, status, error, cost := [], [], RunRunning, None, 0;
      closings, endings := [], 0;
    }

    method AppendHop(source: AgentKey, target: Option<AgentKey>, role: Role, text: string)
      modifies this`hops
      ensures Snapshot() == WithHop(old(Snapshot()), source, target, role, text)
    {
      hops := hops + [Hop(NextOrdinal(HopNumbers(hops)), source, target, role, Preview(text))];
    }

    method OpenStep(agent: AgentKey, intent: string) returns (i: nat)
      modifies this
      ensures i == old(|steps|) < |steps|
      ensures Snapshot() == Opened(old(Snapshot()), agent, intent)
    {
      i := |steps|;
      steps := steps + [StepRow(NextOrdinal(StepNumbers(steps)), agent, StepRunning, None, None, 0)];
      AppendHop(ORCHESTRATOR_ACTOR, Some(agent), TaskHop, intent);
    }

    method CloseStepSuccess(i: nat, reply: Reply)
      requires i < |steps|
      modifies this
      ensures Snapshot() == Closed(old(Snapshot()), i, Answered(reply))
    {
      var row := steps[i];
      steps := steps[i := row.(status := StepSucceeded, output := Some(reply.output), error := None, cost := reply.cost)];
      closings := closings + [row.number];
      cost := cost + reply.cost;
      AppendHop(row.agent, None, ResultHop, reply.output);
    }

    method CloseStepFailure(i: nat, failure: string)
      requires i < |steps|
      modifies this
      ensures Snapshot() == Closed(old(Snapshot()), i, Refused(failure))
    {
      var row := steps[i];
      steps := steps[i := row.(status := StepFailed, output := None, error := Some(failure), cost := 0)];
      closings := closings + [row.number];
      AppendHop(row.agent, None, ErrorHop, failure);
    }

    method CloseRun(failure: Option<string>)
      modifies this
      ensures Snapshot() == Ended(old(Snapshot()), failure)
    {
      status := if failure.Some? then RunFailed else RunSucceeded;
      error := failure;
      endings := endings + 1;
    }
  }
}
