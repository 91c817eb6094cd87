/** What every plan and every pattern of answers leaves in the trace. */
module TraceLaws {
  import opened Wrappers
  import opened Ordinals
  import opened RunTraces
  import opened Orchestrator

  // ---- The finished trace, said without running anything ----

  function FinalRow(number: nat, step: RouteStep, answer: Answer): StepRow {
    match answer
    case Answered(reply) => StepRow(number, step.agent, StepSucceeded, Some(reply.output), None, reply.cost)
    case Refused(error) => StepRow(number, step.agent, StepFailed, None, Some(error), 0)
  }

  function StartHop(number: nat, step: RouteStep, message: string): Hop {
    Hop(number, ORCHESTRATOR_ACTOR, Some(step.agent), TaskHop, Preview(IntentOf(step, message)))
  }

  function EndHop(number: nat, step: RouteStep, answer: Answer): Hop {
    match answer
    case Answered(reply) => Hop(number, step.agent, None, ResultHop, Preview(reply.output))
    case Refused(error) => Hop(number, step.agent, None, ErrorHop, Preview(error))
  }

  function CostOf(answers: nat -> Answer, k: nat): nat {
    if k == 0 then 0
    else CostOf(answers, k - 1) + if answers(k - 1).Answered? then answers(k - 1).reply.cost else 0
  }

  function SuccessCount(answers: nat -> Answer, k: nat): (c: nat)
    ensures c <= k
  {
    if k == 0 then 0 else SuccessCount(answers, k - 1) + if answers(k - 1).Answered? then 1 else 0
  }

  function ResultsOf(steps: seq<RouteStep>, answers: nat -> Answer, k: nat): seq<AgentResult>
    requires k <= |steps|
  {
    if k == 0 then []
    else ResultsOf(steps, answers, k - 1) +
         if answers(k - 1).Answered? then [(steps[k - 1].agent, answers(k - 1).reply)] else []
  }

  function FailuresOf(steps: seq<RouteStep>, answers: nat -> Answer, k: nat): seq<AgentFailure>
    requires k <= |steps|
  {
    if k == 0 then []
    else FailuresOf(steps, answers, k - 1) +
         if answers(k - 1).Refused? then [(steps[k - 1].agent, answers(k - 1).error)] else []
  }

  ghost predicate AllAnswered(answers: nat -> Answer, k: nat) {
    forall i: nat :: i < k ==> answers(i).Answered?
  }

  /** Steps and hops are numbered from 1 without gaps, and every step was closed once, in order. */
  ghost predicate Numbered(t: Trace, closed: nat) {
    && CountsFromOne(StepNumbers(t.steps))
    && CountsFromOne(HopNumbers(t.hops))
    && |t.closings| == closed && CountsFromOne(t.closings)
  }

  ghost predicate FinalRows(t: Trace, steps: seq<RouteStep>, answers: nat -> Answer, k: nat) {
    k <= |steps| && k <= |t.steps| && forall i: nat :: i < k ==> t.steps[i] == FinalRow(i + 1, steps[i], answers(i))
  }

  /** Branch `i` appears on its own side, at the rank it has there. */
  ghost predicate Placed(
    results: seq<AgentResult>, failures: seq<AgentFailure>, steps: seq<RouteStep>, answers: nat -> Answer, i: nat)
    requires i < |steps|
  {
    var rank := SuccessCount(answers, i);
    match answers(i)
    case Answered(reply) => rank < |results| && results[rank] == (steps[i].agent, reply)
    case Refused(error) => i - rank < |failures| && failures[i - rank] == (steps[i].agent, error)
  }

  /** Results and failures split the first `k` branches, each side in dispatch order. */
  ghost predicate SplitInOrder(
    results: seq<AgentResult>, failures: seq<AgentFailure>, steps: seq<RouteStep>, answers: nat -> Answer, k: nat)
  {
    && k <= |steps|
    && |results| == SuccessCount(answers, k) && |failures| == k - SuccessCount(answers, k)
    && forall i: nat :: i < k ==> Placed(results, failures, steps, answers, i)
  }

  /** Filtering in dispatch order gives the split. */
  lemma {:induction false} FilteringSplits(steps: seq<RouteStep>, answers: nat -> Answer, k: nat)
    requires k <= |steps|
    ensures SplitInOrder(ResultsOf(steps, answers, k), FailuresOf(steps, answers, k), steps, answers, k)
  {
    if k > 0 {
      FilteringSplits(steps, answers, k - 1);
      forall i: nat | i < k
        ensures Placed(ResultsOf(steps, answers, k), FailuresOf(steps, answers, k), steps, answers, i)
      {
        assert i < k - 1 ==> Placed(ResultsOf(steps, answers, k - 1), FailuresOf(steps, answers, k - 1), steps, answers, i);
      }
    }
  }

  lemma {:induction false} ResultCost(steps: seq<RouteStep>, answers: nat -> Answer, k: nat)
    requires k <= |steps|
    ensures TotalCost(ResultsOf(steps, answers, k)) == CostOf(answers, k)
  {
    if k > 0 {
      ResultCost(steps, answers, k - 1);
      var before, after := ResultsOf(steps, answers, k - 1), ResultsOf(steps, answers, k);
      if answers(k - 1).Answered? {
        assert after[..|after| - 1] == before;
      } else {
        assert after == before;
      }
    }
  }

  // ---- In-order execution ----

  /** Task and end hop of step i stand next to each other. */
  ghost predicate PairedHops(t: Trace, steps: seq<RouteStep>, message: string, answers: nat -> Answer, k: nat) {
    && k <= |steps| && |t.hops| == 2 * k
    && forall i: nat :: i < k ==>
         t.hops[2 * i] == StartHop(2 * i + 1, steps[i], message) &&
         t.hops[2 * i + 1] == EndHop(2 * i + 2, steps[i], answers(i))
  }

  ghost predicate InOrderTrace(t: Trace, steps: seq<RouteStep>, message: string, answers: nat -> Answer, k: nat) {
    && |t.steps| == k && FinalRows(t, steps, answers, k)
    && PairedHops(t, steps, message, answers, k)
    && Numbered(t, k)
    && t.cost == CostOf(answers, k)
    && t.status == RunRunning && t.endings == 0
  }

  /** Where an in-order pass over the first `n` steps stands, and why it stopped if it did. */
  ghost predicate InOrderOutcome(p: Progress, steps: seq<RouteStep>, message: string, answers: nat -> Answer, n: nat) {
    var k := |p.trace.steps|;
    && k <= n <= |steps|
    && InOrderTrace(p.trace, steps, message, answers, k)
    && p.guard == Ledger(SuccessCount(answers, k), CostOf(answers, k))
    && k <= MAX_RUN_STEPS && (k > 0 ==> CostOf(answers, k - 1) < MAX_RUN_COST_TOKENS)
    && (k > 0 ==> AllAnswered(answers, k - 1))
    && p.results == ResultsOf(steps, answers, k)
    && match p.verdict
       case Going => k == n && AllAnswered(answers, n)
       case Stopped(error) =>
         if k > 0 && answers(k - 1).Refused? then error == answers(k - 1).error
         else
           && k < n && AllAnswered(answers, k)
           && (k == MAX_RUN_STEPS || CostOf(answers, k) >= MAX_RUN_COST_TOKENS)
           && error == if k == MAX_RUN_STEPS then STEP_CAP_REACHED else COST_CAP_REACHED
  }

  lemma {:induction false} OpenedEffect(t: Trace, agent: AgentKey, intent: string)
    requires CountsFromOne(StepNumbers(t.steps)) && CountsFromOne(HopNumbers(t.hops))
    ensures var o := Opened(t, agent, intent);
            && CountsFromOne(StepNumbers(o.steps)) && CountsFromOne(HopNumbers(o.hops))
            && o.steps == t.steps + [StepRow(|t.steps| + 1, agent, StepRunning, None, None, 0)]
            && o.hops == t.hops + [Hop(|t.hops| + 1, ORCHESTRATOR_ACTOR, Some(agent), TaskHop, Preview(intent))]
            && o == t.(steps := o.steps, hops := o.hops)
  {
    NextOrdinalKeepsCount(StepNumbers(t.steps));
    NextOrdinalKeepsCount(HopNumbers(t.hops));
    var o := Opened(t, agent, intent);
    assert StepNumbers(o.steps) == StepNumbers(t.steps) + [|t.steps| + 1];
    assert HopNumbers(o.hops) == HopNumbers(t.hops) + [|t.hops| + 1];
  }

  lemma {:induction false} ClosedEffect(t: Trace, i: nat, step: RouteStep, answer: Answer)
    requires i < |t.steps| && i == |t.closings| && CountsFromOne(t.closings)
    requires CountsFromOne(StepNumbers(t.steps)) && CountsFromOne(HopNumbers(t.hops))
    requires t.steps[i] == StepRow(i + 1, step.agent, StepRunning, None, None, 0)
    ensures var c := Closed(t, i, answer);
            && Numbered(c, i + 1)
            && c.steps == t.steps[i := FinalRow(i + 1, step, answer)]
            && c.hops == t.hops + [EndHop(|t.hops| + 1, step, answer)]
            && c.cost == t.cost + (if answer.Answered? then answer.reply.cost else 0)
            && c.status == t.status && c.endings == t.endings && c.error == t.error
  {
    NextOrdinalKeepsCount(HopNumbers(t.hops));
    var c := Closed(t, i, answer);
    assert StepNumbers(c.steps) == StepNumbers(t.steps);
    assert HopNumbers(c.hops) == HopNumbers(t.hops) + [|t.hops| + 1];
  }

  function Dispatched(t: Trace, step: RouteStep, message: string, answer: Answer): Trace {
    Closed(Opened(t, step.agent, IntentOf(step, message)), |t.steps|, answer)
  }

  /** `c` is `t` with one more step, closed by `answer`, and its two hops. */
  ghost predicate OneMoreStep(t: Trace, c: Trace, step: RouteStep, message: string, answer: Answer) {
    && Numbered(c, |t.steps| + 1)
    && c.steps == t.steps + [FinalRow(|t.steps| + 1, step, answer)]
    && c.hops == t.hops + [StartHop(|t.hops| + 1, step, message), EndHop(|t.hops| + 2, step, answer)]
    && c.cost == t.cost + (if answer.Answered? then answer.reply.cost else 0)
    && c.status == t.status && c.endings == t.endings
  }

  lemma {:induction false} DispatchEffect(t: Trace, step: RouteStep, message: string, answer: Answer)
    requires Numbered(t, |t.steps|)
    ensures OneMoreStep(t, Dispatched(t, step, message, answer), step, message, answer)
  {
    OpenedEffect(t, step.agent, IntentOf(step, message));
    ClosedEffect(Opened(t, step.agent, IntentOf(step, message)), |t.steps|, step, answer);
  }

  lemma {:induction false} HopsExtend(
    t: Trace, c: Trace, steps: seq<RouteStep>, message: string, answers: nat -> Answer, k: nat)
    requires k < |steps| && PairedHops(t, steps, message, answers, k)
    requires c.hops == t.hops + [StartHop(2 * k + 1, steps[k], message), EndHop(2 * k + 2, steps[k], answers(k))]
    ensures PairedHops(c, steps, message, answers, k + 1)
  {
    forall i: nat | i < k
      ensures c.hops[2 * i] == t.hops[2 * i] && c.hops[2 * i + 1] == t.hops[2 * i + 1]
    {
    }
  }

  lemma {:induction false} RowsExtend(t: Trace, c: Trace, steps: seq<RouteStep>, answers: nat -> Answer, k: nat)
    requires k < |steps| && |t.steps| == k && FinalRows(t, steps, answers, k)
    requires c.steps == t.steps + [FinalRow(k + 1, steps[k], answers(k))]
    ensures FinalRows(c, steps, answers, k + 1)
  {
  }

  /** One more closed step, with its two hops, extends an in-order trace. */
  lemma {:induction false} PairsExtend(
    t: Trace, c: Trace, steps: seq<RouteStep>, message: string, answers: nat -> Answer, k: nat)
    requires k < |steps| && InOrderTrace(t, steps, message, answers, k)
    requires OneMoreStep(t, c, steps[k], message, answers(k))
    ensures InOrderTrace(c, steps, message, answers, k + 1)
  {
    HopsExtend(t, c, steps, message, answers, k);
    RowsExtend(t, c, steps, answers, k);
  }

  lemma {:induction false} AnsweredCount(answers: nat -> Answer, k: nat)
    requires AllAnswered(answers, k)
    ensures SuccessCount(answers, k) == k
  {
    if k > 0 {
      AnsweredCount(answers, k - 1);
    }
  }

  lemma {:induction false} AnsweredOutcome(
    p: Progress, q: Progress, steps: seq<RouteStep>, message: string, answers: nat -> Answer, n: nat)
    requires n < |steps| && InOrderOutcome(p, steps, message, answers, n) && p.verdict.Going?
    requires Refusal(p.guard, 1).None? && InOrderTrace(q.trace, steps, message, answers, n + 1)
    requires answers(n).Answered? && q.verdict.Going?
    requires q.guard == Recorded(p.guard, answers(n).reply)
    requires q.results == p.results + [(steps[n].agent, answers(n).reply)]
    ensures InOrderOutcome(q, steps, message, answers, n + 1)
  {
    AnsweredCount(answers, n);
  }

  lemma {:induction false} RefusedOutcome(
    p: Progress, q: Progress, steps: seq<RouteStep>, message: string, answers: nat -> Answer, n: nat)
    requires n < |steps| && InOrderOutcome(p, steps, message, answers, n) && p.verdict.Going?
    requires Refusal(p.guard, 1).None? && InOrderTrace(q.trace, steps, message, answers, n + 1)
    requires answers(n).Refused? && q.verdict == Stopped(answers(n).error)
    requires q.guard == p.guard && q.results == p.results
    ensures InOrderOutcome(q, steps, message, answers, n + 1)
  {
    AnsweredCount(answers, n);
  }

  lemma {:induction false} CapOutcome(
    p: Progress, steps: seq<RouteStep>, message: string, answers: nat -> Answer, n: nat)
    requires n < |steps| && InOrderOutcome(p, steps, message, answers, n) && p.verdict.Going?
    requires Refusal(p.guard, 1).Some?
    ensures InOrderOutcome(p.(verdict := Stopped(Refusal(p.guard, 1).value)), steps, message, answers, n + 1)
  {
    AnsweredCount(answers, n);
  }

  lemma {:induction false} StepOnceAnswered(
    p: Progress, step: RouteStep, next: AgentKey, message: string, answer: Answer)
    requires Refusal(p.guard, 1).None? && answer.Answered?
    ensures var q := StepOnce(p, step, next, message, answer);
            && q.trace == Dispatched(p.trace, step, message, answer) && q.verdict == Going
            && q.guard == Recorded(p.guard, answer.reply) && q.results == p.results + [(step.agent, answer.reply)]
  {
  }

  lemma {:induction false} StepOnceRefused(
    p: Progress, step: RouteStep, next: AgentKey, message: string, answer: Answer)
    requires Refusal(p.guard, 1).None? && answer.Refused?
    ensures var q := StepOnce(p, step, next, message, answer);
            && q.trace == Dispatched(p.trace, step, message, answer) && q.verdict == Stopped(answer.error)
            && q.guard == p.guard && q.results == p.results
  {
  }

  lemma {:induction false} DispatchExtends(
    t: Trace, steps: seq<RouteStep>, message: string, answers: nat -> Answer, k: nat)
    requires k < |steps| && InOrderTrace(t, steps, message, answers, k)
    ensures InOrderTrace(Dispatched(t, steps[k], message, answers(k)), steps, message, answers, k + 1)
  {
    DispatchEffect(t, steps[k], message, answers(k));
    PairsExtend(t, Dispatched(t, steps[k], message, answers(k)), steps, message, answers, k);
  }

  lemma {:induction false} StepOutcome(
    p: Progress, steps: seq<RouteStep>, message: string, answers: nat -> Answer, n: nat, next: AgentKey)
    requires n < |steps| && InOrderOutcome(p, steps, message, answers, n) && p.verdict.Going?
    ensures InOrderOutcome(StepOnce(p, steps[n], next, message, answers(n)), steps, message, answers, n + 1)
  {
    if Refusal(p.guard, 1).Some? {
      CapOutcome(p, steps, message, answers, n);
    } else {
      DispatchExtends(p.trace, steps, message, answers, n);
      var q := StepOnce(p, steps[n], next, message, answers(n));
      if answers(n).Answered? {
        StepOnceAnswered(p, steps[n], next, message, answers(n));
        AnsweredOutcome(p, q, steps, message, answers, n);
      } else {
        StepOnceRefused(p, steps[n], next, message, answers(n));
        RefusedOutcome(p, q, steps, message, answers, n);
      }
    }
  }

  /** Whatever each dispatch keeps, and stopping keeps, holds of every pass. */
  lemma {:induction false} SweepKeeps(
    p: Progress, n: nat, dispatch: (Progress, nat) -> Progress, inv: (Progress, nat) -> bool)
    requires inv(p, 0)
    requires forall q: Progress, i: nat :: i < n && inv(q, i) ==> inv(if q.verdict.Stopped? then q else dispatch(q, i), i + 1)
    ensures inv(Sweep(p, n, dispatch), n)
  {
    if n > 0 {
      SweepKeeps(p, n - 1, dispatch, inv);
    }
  }

  /** Every in-order pass leaves one closed step, one task hop and one end hop per dispatch, and stops
      exactly at the first failing answer or the first refused dispatch. */
  lemma {:induction false} InOrderLeaves(steps: seq<RouteStep>, message: string, answers: nat -> Answer)
    ensures InOrderOutcome(InOrder(steps, message, answers), steps, message, answers, |steps|)
  {
    var inv := (q: Progress, i: nat) => InOrderOutcome(q, steps, message, answers, i);
    var dispatch := Dispatcher(steps, message, answers);
    forall q: Progress, i: nat | i < |steps| && inv(q, i)
      ensures inv(if q.verdict.Stopped? then q else dispatch(q, i), i + 1)
    {
      if q.verdict.Going? {
        StepOutcome(q, steps, message, answers, i, AgentAfter(steps, i));
      }
    }
    SweepKeeps(AtStart, |steps|, dispatch, inv);
  }

  // ---- Head steps and a separate terminal step ----

  ghost predicate SameRecord(p: Progress, q: Progress) {
    p.trace == q.trace && p.guard == q.guard && p.results == q.results && p.verdict == q.verdict
  }

  /** The same record, the same tasks, and, if `handed`, the same scratch for the next step. */
  ghost predicate SamePass(p: Progress, q: Progress, handed: bool) {
    SameRecord(p, q) && p.tasks == q.tasks && (handed ==> p.scratch == q.scratch)
  }

  lemma {:induction false} SameStep(p: Progress, q: Progress, p': Progress, q': Progress, step: RouteStep,
                                    next: AgentKey, next': AgentKey, message: string, answer: Answer)
    requires SamePass(p, q, true)
    requires p' == if p.verdict.Stopped? then p else StepOnce(p, step, next, message, answer)
    requires q' == if q.verdict.Stopped? then q else StepOnce(q, step, next', message, answer)
    ensures SamePass(p', q', next == next')
  {
  }

  /** Whatever two passes keep between them at each dispatch holds at the end of both. */
  lemma {:induction false} SweepsKeep(p: Progress, n: nat, d: (Progress, nat) -> Progress, e: (Progress, nat) -> Progress,
                                      rel: (Progress, Progress, nat) -> bool)
    requires rel(p, p, 0)
    requires forall q: Progress, r: Progress, i: nat :: i < n && rel(q, r, i) ==>
      rel(if q.verdict.Stopped? then q else d(q, i), if r.verdict.Stopped? then r else e(r, i), i + 1)
    ensures rel(Sweep(p, n, d), Sweep(p, n, e), n)
  {
    if n > 0 {
      SweepsKeep(p, n - 1, d, e, rel);
    }
  }

  lemma {:induction false} SameNext(
    steps: seq<RouteStep>, message: string, answers: nat -> Answer, q: Progress, r: Progress, i: nat)
    requires i < |steps| - 1 && SamePass(q, r, true)
    ensures var init := steps[..|steps| - 1];
            SamePass(if q.verdict.Stopped? then q else Dispatcher(init, message, answers)(q, i),
                     if r.verdict.Stopped? then r else Dispatcher(steps, message, answers)(r, i), i + 1 < |steps| - 1)
  {
    var init := steps[..|steps| - 1];
    assert init[i] == steps[i];
    assert i + 1 < |steps| - 1 ==> AgentAfter(init, i) == AgentAfter(steps, i);
    SameStep(q, r, if q.verdict.Stopped? then q else Dispatcher(init, message, answers)(q, i),
             if r.verdict.Stopped? then r else Dispatcher(steps, message, answers)(r, i),
             steps[i], AgentAfter(init, i), AgentAfter(steps, i), message, answers(i));
  }

  /** A pass over the head alone matches the same prefix of a pass over the whole plan; only the
      hand-off after the last head step is addressed differently. */
  lemma {:induction false} HeadMatchesPrefix(steps: seq<RouteStep>, message: string, answers: nat -> Answer, n: nat)
    requires n < |steps|
    ensures SamePass(Sweep(AtStart, n, Dispatcher(steps[..|steps| - 1], message, answers)),
                     Sweep(AtStart, n, Dispatcher(steps, message, answers)), n < |steps| - 1)
  {
    var rel := (q: Progress, r: Progress, i: nat) => SamePass(q, r, i < |steps| - 1);
    var d, e := Dispatcher(steps[..|steps| - 1], message, answers), Dispatcher(steps, message, answers);
    forall q: Progress, r: Progress, i: nat | i < n && rel(q, r, i)
      ensures rel(if q.verdict.Stopped? then q else d(q, i), if r.verdict.Stopped? then r else e(r, i), i + 1)
    {
      SameNext(steps, message, answers, q, r, i);
    }
    assert SamePass(AtStart, AtStart, 0 < |steps| - 1);
    assert rel(AtStart, AtStart, 0);
    SweepsKeep(AtStart, n, d, e, rel);
  }

  lemma {:induction false} StepIgnoresScratch(
    p: Progress, q: Progress, step: RouteStep, next: AgentKey, next': AgentKey, message: string, answer: Answer)
    requires SameRecord(p, q)
    ensures SameRecord(StepOnce(p, step, next, message, answer), StepOnce(q, step, next', message, answer))
  {
  }

  /** Splitting off the terminal step changes nothing that is recorded: agents, order, numbers,
      statuses, costs, results and budget stops are those of one in-order pass over the whole plan. */
  lemma {:induction false} HeadThenTerminalIsOnePass(steps: seq<RouteStep>, message: string, answers: nat -> Answer)
    requires steps != []
    ensures SameRecord(HeadThenTerminal(steps, message, answers), InOrder(steps, message, answers))
  {
    var last := |steps| - 1;
    HeadMatchesPrefix(steps, message, answers, last);
    var head := InOrder(steps[..last], message, answers);
    var whole := Sweep(AtStart, last, Dispatcher(steps, message, answers));
    StepIgnoresScratch(head.(scratch := HeadScratch(head.results)), whole, steps[last], "", "", message, answers(last));
  }

  ghost predicate ScratchFits(p: Progress, steps: seq<RouteStep>, n: nat) {
    && n <= |steps| && |p.scratch| == |p.results| == |p.tasks| == n
    && forall i: nat :: i < n ==>
         && p.results[i].0 == steps[i].agent
         && p.scratch[i] == Scratch(steps[i].agent, p.results[i].1.output, Some(AgentAfter(steps, i)))
  }

  /** What one answered dispatch adds to the results, to the scratch and to the list of dispatched tasks. */
  lemma {:induction false} StepOnceHandsOn(
    p: Progress, step: RouteStep, next: AgentKey, message: string, answer: Answer)
    requires StepOnce(p, step, next, message, answer).verdict.Going?
    ensures answer.Answered?
    ensures var q := StepOnce(p, step, next, message, answer);
            && q.results == p.results + [(step.agent, answer.reply)]
            && q.scratch == p.scratch + [Scratch(step.agent, answer.reply.output, Some(next))]
            && q.tasks == p.tasks + [AgentTask(step.agent, IntentOf(step, message), p.scratch)]
  {
  }

  lemma {:induction false} ScratchGrows(
    p: Progress, q: Progress, steps: seq<RouteStep>, n: nat, reply: Reply, task: AgentTask)
    requires n < |steps| && ScratchFits(p, steps, n)
    requires q.results == p.results + [(steps[n].agent, reply)] && q.tasks == p.tasks + [task]
    requires q.scratch == p.scratch + [Scratch(steps[n].agent, reply.output, Some(AgentAfter(steps, n)))]
    ensures ScratchFits(q, steps, n + 1)
  {
  }

  lemma {:induction false} ScratchStep(
    p: Progress, q: Progress, steps: seq<RouteStep>, message: string, answer: Answer, n: nat)
    requires n < |steps| && ScratchFits(p, steps, n) && q.verdict.Going?
    requires q == StepOnce(p, steps[n], AgentAfter(steps, n), message, answer)
    ensures ScratchFits(q, steps, n + 1)
  {
    StepOnceHandsOn(p, steps[n], AgentAfter(steps, n), message, answer);
    ScratchGrows(p, q, steps, n, answer.reply, AgentTask(steps[n].agent, IntentOf(steps[n], message), p.scratch));
  }

  lemma {:induction false} ScratchNext(
    steps: seq<RouteStep>, message: string, answers: nat -> Answer, q: Progress, i: nat)
    requires i < |steps| && q.verdict.Going? && ScratchFits(q, steps, i)
    ensures var r := Dispatcher(steps, message, answers)(q, i);
            r.verdict.Going? ==> ScratchFits(r, steps, i + 1)
  {
    var r := Dispatcher(steps, message, answers)(q, i);
    if r.verdict.Going? {
      ScratchStep(q, r, steps, message, answers(i), i);
    }
  }

  lemma {:induction false} ScratchOfPass(steps: seq<RouteStep>, message: string, answers: nat -> Answer, n: nat)
    requires n <= |steps| && Sweep(AtStart, n, Dispatcher(steps, message, answers)).verdict.Going?
    ensures ScratchFits(Sweep(AtStart, n, Dispatcher(steps, message, answers)), steps, n)
  {
    var inv := (q: Progress, i: nat) => q.verdict.Going? ==> ScratchFits(q, steps, i);
    var dispatch := Dispatcher(steps, message, answers);
    forall q: Progress, i: nat | i < n && inv(q, i)
      ensures inv(if q.verdict.Stopped? then q else dispatch(q, i), i + 1)
    {
      if q.verdict.Going? {
        ScratchNext(steps, message, answers, q, i);
      }
    }
    assert ScratchFits(AtStart, steps, 0);
    SweepKeeps(AtStart, n, dispatch, inv);
  }

  /** The head went through and the guard lets the last step be dispatched. */
  predicate TerminalDispatched(steps: seq<RouteStep>, message: string, answers: nat -> Answer)
    requires steps != []
  {
    var head := InOrder(steps[..|steps| - 1], message, answers);
    head.verdict.Going? && Refusal(head.guard, 1).None?
  }

  /** The same outputs in both, addressed to the next step in `handed` and to nobody in `bare`. */
  ghost predicate OnlyHandoffsDiffer(bare: seq<Scratch>, handed: seq<Scratch>, steps: seq<RouteStep>) {
    && |bare| == |handed| < |steps|
    && forall i: nat :: i < |bare| ==>
         && bare[i].handoffTo == None && handed[i].handoffTo == Some(steps[i + 1].agent)
         && bare[i].agent == handed[i].agent && bare[i].output == handed[i].output
  }

  lemma {:induction false} HeadScratchIsBare(p: Progress, steps: seq<RouteStep>)
    requires steps != [] && ScratchFits(p, steps, |steps| - 1)
    ensures OnlyHandoffsDiffer(HeadScratch(p.results), p.scratch, steps)
  {
  }

  lemma {:induction false} DispatchAddsTask(
    p: Progress, step: RouteStep, next: AgentKey, message: string, answer: Answer)
    requires Refusal(p.guard, 1).None?
    ensures StepOnce(p, step, next, message, answer).tasks
         == p.tasks + [AgentTask(step.agent, IntentOf(step, message), p.scratch)]
  {
  }

  /** The task of the last step, given what the steps before it left. */
  function LastTask(steps: seq<RouteStep>, message: string, scratch: seq<Scratch>): AgentTask
    requires steps != []
  {
    AgentTask(steps[|steps| - 1].agent, IntentOf(steps[|steps| - 1], message), scratch)
  }

  lemma {:induction false} SplitTasks(steps: seq<RouteStep>, message: string, answers: nat -> Answer, head: Progress)
    requires steps != [] && TerminalDispatched(steps, message, answers)
    requires head == InOrder(steps[..|steps| - 1], message, answers)
    ensures HeadThenTerminal(steps, message, answers).tasks
         == head.tasks + [LastTask(steps, message, HeadScratch(head.results))]
  {
    var p := head.(scratch := HeadScratch(head.results));
    DispatchAddsTask(p, steps[|steps| - 1], "", message, answers(|steps| - 1));
  }

  lemma {:induction false} WholeTasks(steps: seq<RouteStep>, message: string, answers: nat -> Answer, whole: Progress)
    requires steps != [] && whole == Sweep(AtStart, |steps| - 1, Dispatcher(steps, message, answers))
    requires whole.verdict.Going? && Refusal(whole.guard, 1).None?
    ensures InOrder(steps, message, answers).tasks == whole.tasks + [LastTask(steps, message, whole.scratch)]
  {
    var last := |steps| - 1;
    SweepStep(steps, message, answers, |steps|);
    DispatchAddsTask(whole, steps[last], AgentAfter(steps, last), message, answers(last));
  }

  /** What the two ways of running a plan dispatch, when the last step is dispatched. */
  lemma {:induction false} TasksOfBothWays(
    steps: seq<RouteStep>, message: string, answers: nat -> Answer, head: Progress, whole: Progress)
    requires steps != [] && TerminalDispatched(steps, message, answers)
    requires head == InOrder(steps[..|steps| - 1], message, answers)
    requires whole == Sweep(AtStart, |steps| - 1, Dispatcher(steps, message, answers))
    ensures && head.tasks == whole.tasks && |whole.tasks| == |steps| - 1
            && HeadThenTerminal(steps, message, answers).tasks
                 == head.tasks + [LastTask(steps, message, HeadScratch(head.results))]
            && InOrder(steps, message, answers).tasks == whole.tasks + [LastTask(steps, message, whole.scratch)]
            && OnlyHandoffsDiffer(HeadScratch(head.results), whole.scratch, steps)
  {
    var last := |steps| - 1;
    HeadMatchesPrefix(steps, message, answers, last);
    ScratchOfPass(steps, message, answers, last);
    HeadScratchIsBare(whole, steps);
    SplitTasks(steps, message, answers, head);
    WholeTasks(steps, message, answers, whole);
  }

  lemma {:induction false} NothingDispatched(steps: seq<RouteStep>, message: string, answers: nat -> Answer)
    requires steps != [] && !TerminalDispatched(steps, message, answers)
    ensures HeadThenTerminal(steps, message, answers).tasks == InOrder(steps, message, answers).tasks
  {
    var last := |steps| - 1;
    HeadMatchesPrefix(steps, message, answers, last);
    SweepStep(steps, message, answers, |steps|);
  }

  /** What the split does change, in every turn: a terminal task that is dispatched carries the earlier
      outputs but no hand-off, where one pass would hand each of them on, whether or not the step then
      succeeds. The dispatched tasks agree exactly when there is nothing to hand on: the plan has one step,
      or its last step is not dispatched. */
  lemma {:induction false} TerminalTaskLosesHandoffs(steps: seq<RouteStep>, message: string, answers: nat -> Answer)
    requires steps != []
    ensures var split, whole := HeadThenTerminal(steps, message, answers).tasks, InOrder(steps, message, answers).tasks;
            var last := |steps| - 1;
            && (TerminalDispatched(steps, message, answers) ==>
                  && |split| == |whole| == |steps| && split[..last] == whole[..last]
                  && OnlyHandoffsDiffer(split[last].scratch, whole[last].scratch, steps)
                  && |split[last].scratch| == last)
            && (split == whole <==> |steps| == 1 || !TerminalDispatched(steps, message, answers))
  {
    var last := |steps| - 1;
    if TerminalDispatched(steps, message, answers) {
      var head := InOrder(steps[..last], message, answers);
      var whole := Sweep(AtStart, last, Dispatcher(steps, message, answers));
      TasksOfBothWays(steps, message, answers, head, whole);
      ScratchOfPass(steps, message, answers, last);
      HandoffsTell(HeadScratch(head.results), whole.scratch, steps);
    } else {
      NothingDispatched(steps, message, answers);
    }
  }

  lemma {:induction false} HandoffsTell(bare: seq<Scratch>, handed: seq<Scratch>, steps: seq<RouteStep>)
    requires OnlyHandoffsDiffer(bare, handed, steps) && |bare| == |steps| - 1
    ensures bare == handed <==> |steps| == 1
  {
    if |steps| > 1 {
      assert bare[0].handoffTo != handed[0].handoffTo;
    }
  }

  // ---- The fan-out ----

  ghost predicate Launched(t: Trace, steps: seq<RouteStep>, message: string, n: nat) {
    && n <= |steps| && |t.steps| == |t.hops| == n && t.closings == []
    && CountsFromOne(StepNumbers(t.steps)) && CountsFromOne(HopNumbers(t.hops))
    && (forall i: nat :: i < n ==> t.steps[i] == StepRow(i + 1, steps[i].agent, StepRunning, None, None, 0))
    && (forall i: nat :: i < n ==> t.hops[i] == StartHop(i + 1, steps[i], message))
    && t.cost == 0 && t.status == RunRunning && t.endings == 0
  }

  lemma {:induction false} LaunchExtends(t: Trace, o: Trace, steps: seq<RouteStep>, message: string, n: nat)
    requires n < |steps| && Launched(t, steps, message, n)
    requires CountsFromOne(StepNumbers(o.steps)) && CountsFromOne(HopNumbers(o.hops))
    requires o.steps == t.steps + [StepRow(n + 1, steps[n].agent, StepRunning, None, None, 0)]
    requires o.hops == t.hops + [StartHop(n + 1, steps[n], message)]
    requires o == t.(steps := o.steps, hops := o.hops)
    ensures Launched(o, steps, message, n + 1)
  {
  }

  lemma {:induction false} LaunchStep(t: Trace, steps: seq<RouteStep>, message: string, n: nat)
    requires n < |steps| && Launched(t, steps, message, n)
    ensures Launched(Opened(t, steps[n].agent, IntentOf(steps[n], message)), steps, message, n + 1)
  {
    OpenedEffect(t, steps[n].agent, IntentOf(steps[n], message));
    LaunchExtends(t, Opened(t, steps[n].agent, IntentOf(steps[n], message)), steps, message, n);
  }

  lemma {:induction false} FanOutLaunches(steps: seq<RouteStep>, message: string, n: nat)
    requires n <= |steps|
    ensures Launched(FanOut(FreshTrace, steps, message, n), steps, message, n)
  {
    if n > 0 {
      FanOutLaunches(steps, message, n - 1);
      LaunchStep(FanOut(FreshTrace, steps, message, n - 1), steps, message, n - 1);
    }
  }

  /** All task hops come first, then one end hop per branch in the same order. */
  ghost predicate FannedHops(t: Trace, steps: seq<RouteStep>, message: string, answers: nat -> Answer, k: nat) {
    && k <= |steps| && |t.hops| == |steps| + k
    && (forall i: nat :: i < |steps| ==> t.hops[i] == StartHop(i + 1, steps[i], message))
    && (forall i: nat :: i < k ==> t.hops[|steps| + i] == EndHop(|steps| + i + 1, steps[i], answers(i)))
  }

  /** After the first `k` branches are gathered: their rows are final, the other rows open, and the hops in place. */
  ghost predicate GatheredRows(t: Trace, steps: seq<RouteStep>, message: string, answers: nat -> Answer, k: nat) {
    && k <= |steps| == |t.steps|
    && FinalRows(t, steps, answers, k) && OpenRows(t, steps, k)
    && FannedHops(t, steps, message, answers, k)
    && Numbered(t, k)
    && t.status == RunRunning && t.endings == 0
  }

  ghost predicate GatheredSums(g: Gathered, steps: seq<RouteStep>, answers: nat -> Answer, k: nat) {
    && k <= |steps|
    && g.trace.cost == CostOf(answers, k)
    && g.guard == Ledger(SuccessCount(answers, k), CostOf(answers, k))
    && g.results == ResultsOf(steps, answers, k) && g.failures == FailuresOf(steps, answers, k)
  }

  ghost predicate GatheredTrace(g: Gathered, steps: seq<RouteStep>, message: string, answers: nat -> Answer, k: nat) {
    GatheredRows(g.trace, steps, message, answers, k) && GatheredSums(g, steps, answers, k)
  }

  /** The branches from `k` on are still open. */
  ghost predicate OpenRows(t: Trace, steps: seq<RouteStep>, k: nat) {
    && |t.steps| == |steps|
    && forall i: nat :: k <= i < |steps| ==> t.steps[i] == StepRow(i + 1, steps[i].agent, StepRunning, None, None, 0)
  }

  lemma {:induction false} BranchRows(t: Trace, c: Trace, steps: seq<RouteStep>, answers: nat -> Answer, k: nat)
    requires k < |steps| && OpenRows(t, steps, k) && FinalRows(t, steps, answers, k)
    requires c.steps == t.steps[k := FinalRow(k + 1, steps[k], answers(k))]
    ensures OpenRows(c, steps, k + 1) && FinalRows(c, steps, answers, k + 1)
  {
  }

  lemma {:induction false} BranchHops(
    t: Trace, c: Trace, steps: seq<RouteStep>, message: string, answers: nat -> Answer, k: nat)
    requires k < |steps| && FannedHops(t, steps, message, answers, k)
    requires c.hops == t.hops + [EndHop(|t.hops| + 1, steps[k], answers(k))]
    ensures FannedHops(c, steps, message, answers, k + 1)
  {
  }

  lemma {:induction false} RowsOfBranch(
    t: Trace, c: Trace, steps: seq<RouteStep>, message: string, answers: nat -> Answer, k: nat)
    requires k < |steps| && GatheredRows(t, steps, message, answers, k) && Numbered(c, k + 1)
    requires c.steps == t.steps[k := FinalRow(k + 1, steps[k], answers(k))]
    requires c.hops == t.hops + [EndHop(|t.hops| + 1, steps[k], answers(k))]
    requires c.status == t.status && c.endings == t.endings
    ensures GatheredRows(c, steps, message, answers, k + 1)
  {
    BranchRows(t, c, steps, answers, k);
    BranchHops(t, c, steps, message, answers, k);
  }

  lemma {:induction false} SumsOfBranch(g: Gathered, steps: seq<RouteStep>, answers: nat -> Answer, k: nat, cost: nat)
    requires k < |steps| && GatheredSums(g, steps, answers, k) && k < |g.trace.steps|
    requires cost == g.trace.cost + (if answers(k).Answered? then answers(k).reply.cost else 0)
    requires Closed(g.trace, k, answers(k)).cost == cost
    ensures GatheredSums(GatherOne(g, k, steps[k].agent, answers(k)), steps, answers, k + 1)
  {
  }

  lemma {:induction false} GatherExtends(
    g: Gathered, steps: seq<RouteStep>, message: string, answers: nat -> Answer, k: nat)
    requires k < |steps| && GatheredTrace(g, steps, message, answers, k)
    ensures GatheredTrace(GatherOne(g, k, steps[k].agent, answers(k)), steps, message, answers, k + 1)
  {
    var c := Closed(g.trace, k, answers(k));
    ClosedEffect(g.trace, k, steps[k], answers(k));
    RowsOfBranch(g.trace, c, steps, message, answers, k);
    SumsOfBranch(g, steps, answers, k, c.cost);
  }

  lemma {:induction false} LaunchedIsGathered(t: Trace, steps: seq<RouteStep>, message: string, answers: nat -> Answer)
    requires Launched(t, steps, message, |steps|)
    ensures GatheredTrace(Gathered(t, Ledger(0, 0), [], []), steps, message, answers, 0)
  {
  }

  lemma {:induction false} GatherKeeps(
    t: Trace, steps: seq<RouteStep>, answers: nat -> Answer, k: nat, inv: (Gathered, nat) -> bool)
    requires k <= |steps| == |t.steps|
    requires inv(Gathered(t, Ledger(0, 0), [], []), 0)
    requires forall g: Gathered, i: nat :: i < k && |g.trace.steps| == |steps| && inv(g, i) ==>
      inv(GatherOne(g, i, steps[i].agent, answers(i)), i + 1)
    ensures inv(Gather(t, Ledger(0, 0), steps, answers, k), k)
    decreases k
  {
    if k > 0 {
      GatherKeeps(t, steps, answers, k - 1, inv);
    }
  }

  /** What holds of the gathering after `i` branches, as a function of where it stands. */
  ghost function StandsAt(steps: seq<RouteStep>, message: string, answers: nat -> Answer): (Gathered, nat) -> bool {
    (g: Gathered, i: nat) => GatheredTrace(g, steps, message, answers, i)
  }

  lemma {:induction false} GatherExtendsStand(steps: seq<RouteStep>, message: string, answers: nat -> Answer)
    ensures forall g: Gathered, i: nat ::
      i < |steps| && |g.trace.steps| == |steps| && StandsAt(steps, message, answers)(g, i) ==>
        StandsAt(steps, message, answers)(GatherOne(g, i, steps[i].agent, answers(i)), i + 1)
  {
    forall g: Gathered, i: nat
      | i < |steps| && |g.trace.steps| == |steps| && StandsAt(steps, message, answers)(g, i)
      ensures StandsAt(steps, message, answers)(GatherOne(g, i, steps[i].agent, answers(i)), i + 1)
    {
      GatherExtends(g, steps, message, answers, i);
    }
  }

  /** Gathering leaves every branch closed once, with results and failures partitioning the branches. */
  lemma {:induction false} GatherLeaves(t: Trace, steps: seq<RouteStep>, message: string, answers: nat -> Answer)
    requires Launched(t, steps, message, |steps|)
    ensures GatheredTrace(Gather(t, Ledger(0, 0), steps, answers, |steps|), steps, message, answers, |steps|)
  {
    LaunchedIsGathered(t, steps, message, answers);
    GatherExtendsStand(steps, message, answers);
    GatherKeeps(t, steps, answers, |steps|, StandsAt(steps, message, answers));
  }

  lemma {:induction false} CountZeroIffAllRefused(answers: nat -> Answer, k: nat)
    ensures SuccessCount(answers, k) == 0 <==> forall i: nat :: i < k ==> answers(i).Refused?
  {
    if k > 0 {
      CountZeroIffAllRefused(answers, k - 1);
    }
  }

  // ---- Every turn ----

  /** The k dispatched steps of a finished run: each closed once, with its own task hop before its end hop. */
  ghost predicate CompleteTrace(t: Trace, plan: Plan, message: string, answers: nat -> Answer) {
    var k := |t.steps|;
    && k <= |plan.steps| && k <= MAX_RUN_STEPS
    && FinalRows(t, plan.steps, answers, k)
    && Numbered(t, k)
    && (if plan.shape.Parallel? then k == 0 || (k == |plan.steps| && FannedHops(t, plan.steps, message, answers, k))
        else PairedHops(t, plan.steps, message, answers, k))
    && |t.hops| == 2 * k
    && t.cost == CostOf(answers, k)
    && t.endings == 1
  }

  /** When a turn must fail: the context cannot be built; in order, some dispatched step fails or a
      cap stops the pass early; in parallel, the fan-out is too wide or every branch fails. */
  ghost predicate MustFail(plan: Plan, context: Option<string>, answers: nat -> Answer)
    requires plan.steps != []
  {
    var n := |plan.steps|;
    || context.Some?
    || (if plan.shape.Parallel? then n > MAX_RUN_STEPS || forall i: nat :: i < n ==> answers(i).Refused?
        else FailsInOrder(answers, n))
  }

  /** For every plan, message, context outcome and pattern of answers: the trace is complete, the run
      ends exactly once, it is FAILED exactly when the turn must fail, and the token ledgers agree. */
  lemma {:induction false} EveryTurnLeavesACompleteTrace(
    plan: Plan, message: string, context: Option<string>, answers: nat -> Answer)
    requires plan.steps != []
    ensures var turn := OrchestrateTurn(plan, message, context, answers);
            && CompleteTrace(turn.trace, plan, message, answers)
            && (turn.trace.status == RunFailed <==> MustFail(plan, context, answers))
            && (turn.trace.status == RunSucceeded <==> turn.raised.None?)
            && turn.trace.error == turn.raised
            && turn.guard.cost == turn.trace.cost == TotalCost(turn.results)
            && (turn.raised.None? ==> (
                  && |turn.trace.steps| == |plan.steps|
                  && SplitInOrder(turn.results, turn.failures, plan.steps, answers, |plan.steps|)))
            && (!plan.shape.Parallel? && turn.trace.steps != [] ==>
                  CostOf(answers, |turn.trace.steps| - 1) < MAX_RUN_COST_TOKENS)
  {
    var turn := OrchestrateTurn(plan, message, context, answers);
    var n := |plan.steps|;
    if context.Some? {
    } else if plan.shape.Parallel? {
      ParallelTurn(plan, message, answers);
    } else {
      InOrderTurn(plan, message, answers);
    }
  }

  lemma {:induction false} FinishedFanOut(g: Gathered, plan: Plan, message: string, answers: nat -> Answer, v: Verdict)
    requires plan.steps != [] && plan.shape.Parallel? && |plan.steps| <= MAX_RUN_STEPS
    requires GatheredTrace(g, plan.steps, message, answers, |plan.steps|)
    requires v.Stopped? <==> g.results == []
    ensures var turn := Finish(g.trace, g.guard, g.results, g.failures, v);
            && CompleteTrace(turn.trace, plan, message, answers)
            && (turn.trace.status == RunFailed <==> MustFail(plan, None, answers))
            && turn.guard.cost == turn.trace.cost == TotalCost(turn.results)
            && |turn.trace.steps| == |plan.steps|
            && SplitInOrder(turn.results, turn.failures, plan.steps, answers, |plan.steps|)
  {
    FannedIsComplete(g, plan, message, answers, v);
    FilteringSplits(plan.steps, answers, |plan.steps|);
    CountZeroIffAllRefused(answers, |plan.steps|);
    ResultCost(plan.steps, answers, |plan.steps|);
  }

  /** Ending a run changes nothing that was recorded of its steps and hops. */
  lemma {:induction false} EndedKeeps(
    t: Trace, error: Option<string>, steps: seq<RouteStep>, message: string, answers: nat -> Answer, k: nat)
    ensures var e := Ended(t, error);
            && (FinalRows(t, steps, answers, k) ==> FinalRows(e, steps, answers, k))
            && (FannedHops(t, steps, message, answers, k) ==> FannedHops(e, steps, message, answers, k))
            && (PairedHops(t, steps, message, answers, k) ==> PairedHops(e, steps, message, answers, k))
            && (Numbered(t, k) ==> Numbered(e, k))
  {
  }

  lemma {:induction false} FannedIsComplete(
    g: Gathered, plan: Plan, message: string, answers: nat -> Answer, v: Verdict)
    requires plan.steps != [] && plan.shape.Parallel? && |plan.steps| <= MAX_RUN_STEPS
    requires GatheredTrace(g, plan.steps, message, answers, |plan.steps|)
    ensures CompleteTrace(Finish(g.trace, g.guard, g.results, g.failures, v).trace, plan, message, answers)
  {
    EndedKeeps(g.trace, if v.Stopped? then Some(v.error) else None, plan.steps, message, answers, |plan.steps|);
  }

  lemma {:induction false} ParallelTurn(plan: Plan, message: string, answers: nat -> Answer)
    requires plan.steps != [] && plan.shape.Parallel?
    ensures var turn := OrchestrateTurn(plan, message, None, answers);
            && CompleteTrace(turn.trace, plan, message, answers)
            && (turn.trace.status == RunFailed <==> MustFail(plan, None, answers))
            && turn.guard.cost == turn.trace.cost == TotalCost(turn.results)
            && (turn.raised.None? ==> (
                  && |turn.trace.steps| == |plan.steps|
                  && SplitInOrder(turn.results, turn.failures, plan.steps, answers, |plan.steps|)))
  {
    var n := |plan.steps|;
    if n <= MAX_RUN_STEPS {
      FanOutLaunches(plan.steps, message, n);
      GatherLeaves(FanOut(FreshTrace, plan.steps, message, n), plan.steps, message, answers);
      var (g, v) := ParallelRun(plan.steps, message, answers);
      FinishedFanOut(g, plan, message, answers, v);
    }
  }

  lemma {:induction false} CostMonotone(answers: nat -> Answer, j: nat, k: nat)
    requires j <= k
    ensures CostOf(answers, j) <= CostOf(answers, k)
    decreases k
  {
    if j < k {
      CostMonotone(answers, j, k - 1);
    }
  }

  lemma {:induction false} NoFailures(steps: seq<RouteStep>, answers: nat -> Answer, k: nat)
    requires k <= |steps|
    ensures AllAnswered(answers, k) ==> FailuresOf(steps, answers, k) == []
  {
    if k > 0 {
      NoFailures(steps, answers, k - 1);
    }
  }

  lemma {:induction false} FinishedIsComplete(p: Progress, plan: Plan, message: string, answers: nat -> Answer)
    requires plan.steps != [] && !plan.shape.Parallel?
    requires InOrderOutcome(p, plan.steps, message, answers, |plan.steps|)
    ensures CompleteTrace(Finish(p.trace, p.guard, p.results, [], p.verdict).trace, plan, message, answers)
  {
    EndedKeeps(p.trace, if p.verdict.Stopped? then Some(p.verdict.error) else None,
               plan.steps, message, answers, |p.trace.steps|);
  }

  lemma {:induction false} StoppedMustFail(p: Progress, plan: Plan, message: string, answers: nat -> Answer)
    requires plan.steps != [] && !plan.shape.Parallel?
    requires InOrderOutcome(p, plan.steps, message, answers, |plan.steps|)
    ensures p.verdict.Stopped? <==> MustFail(plan, None, answers)
    ensures p.verdict.Going? ==> |p.trace.steps| == |plan.steps|
  {
    var n, k := |plan.steps|, |p.trace.steps|;
    if p.verdict.Stopped? {
      StopMeansFailure(answers, n, k);
    }
  }

  /** Why an in-order turn over `n` steps must fail. */
  ghost predicate FailsInOrder(answers: nat -> Answer, n: nat)
    requires n > 0
  {
    !AllAnswered(answers, n) || n > MAX_RUN_STEPS || CostOf(answers, n - 1) >= MAX_RUN_COST_TOKENS
  }

  lemma {:induction false} StopMeansFailure(answers: nat -> Answer, n: nat, k: nat)
    requires 0 < n && k <= n
    requires (0 < k && answers(k - 1).Refused?) ||
             (k < n && (k == MAX_RUN_STEPS || CostOf(answers, k) >= MAX_RUN_COST_TOKENS))
    ensures FailsInOrder(answers, n)
  {
    if 0 < k && answers(k - 1).Refused? {
      assert !AllAnswered(answers, n);
    } else {
      CostMonotone(answers, k, n - 1);
    }
  }

  lemma {:induction false} FinishedInOrder(p: Progress, plan: Plan, message: string, answers: nat -> Answer)
    requires plan.steps != [] && !plan.shape.Parallel?
    requires InOrderOutcome(p, plan.steps, message, answers, |plan.steps|)
    ensures var turn := Finish(p.trace, p.guard, p.results, [], p.verdict);
            && turn.guard.cost == turn.trace.cost == TotalCost(turn.results)
            && (turn.raised.None? ==> SplitInOrder(turn.results, turn.failures, plan.steps, answers, |plan.steps|))
            && (turn.trace.steps != [] ==> CostOf(answers, |turn.trace.steps| - 1) < MAX_RUN_COST_TOKENS)
  {
    var n, k := |plan.steps|, |p.trace.steps|;
    ResultCost(plan.steps, answers, k);
    if p.verdict.Going? {
      FilteringSplits(plan.steps, answers, n);
      NoFailures(plan.steps, answers, n);
    }
  }

  ghost predicate InOrderLaws(turn: Turn, plan: Plan, message: string, answers: nat -> Answer)
    requires plan.steps != []
  {
    && CompleteTrace(turn.trace, plan, message, answers)
    && (turn.trace.status == RunFailed <==> MustFail(plan, None, answers))
    && turn.guard.cost == turn.trace.cost == TotalCost(turn.results)
    && (turn.raised.None? ==> (
          && |turn.trace.steps| == |plan.steps|
          && SplitInOrder(turn.results, turn.failures, plan.steps, answers, |plan.steps|)))
    && (turn.trace.steps != [] ==> CostOf(answers, |turn.trace.steps| - 1) < MAX_RUN_COST_TOKENS)
  }

  lemma {:induction false} FinishedKeepsLaws(p: Progress, plan: Plan, message: string, answers: nat -> Answer)
    requires plan.steps != [] && !plan.shape.Parallel?
    requires InOrderOutcome(p, plan.steps, message, answers, |plan.steps|)
    ensures InOrderLaws(Finish(p.trace, p.guard, p.results, [], p.verdict), plan, message, answers)
  {
    FinishedIsComplete(p, plan, message, answers);
    StoppedMustFail(p, plan, message, answers);
    FinishedInOrder(p, plan, message, answers);
  }

  lemma {:induction false} InOrderTurn(plan: Plan, message: string, answers: nat -> Answer)
    requires plan.steps != [] && !plan.shape.Parallel?
    ensures InOrderLaws(OrchestrateTurn(plan, message, None, answers), plan, message, answers)
  {
    InOrderLeaves(plan.steps, message, answers);
    HeadThenTerminalIsOnePass(plan.steps, message, answers);
    FinishedKeepsLaws(InOrder(plan.steps, message, answers), plan, message, answers);
  }

  /** Two histories of answers that end the same way everywhere and cost the same in the first `k` steps. */
  ghost predicate AlikeUpTo(answers: nat -> Answer, others: nat -> Answer, k: nat, n: nat) {
    && (forall i: nat :: i < n ==> (answers(i).Answered? <==> others(i).Answered?))
    && forall i: nat :: i < k && i < n && answers(i).Answered? ==> answers(i).reply.cost == others(i).reply.cost
  }

  lemma {:induction false} AlikeCost(answers: nat -> Answer, others: nat -> Answer, k: nat, n: nat)
    requires AlikeUpTo(answers, others, k, n) && k <= n
    ensures CostOf(answers, k) == CostOf(others, k)
  {
    if k > 0 {
      AlikeCost(answers, others, k - 1, n);
    }
  }

  /** The cost cap stops the next dispatch, not the current one. In order, whatever the last step costs, the
      turn ends in the same status; in a fan-out no cost matters at all. So no bound on the total follows. */
  lemma {:induction false} CostCapIsCheckedBeforeDispatch(
    plan: Plan, message: string, answers: nat -> Answer, others: nat -> Answer)
    requires plan.steps != []
    requires AlikeUpTo(answers, others, if plan.shape.Parallel? then 0 else |plan.steps| - 1, |plan.steps|)
    ensures OrchestrateTurn(plan, message, None, answers).trace.status
         == OrchestrateTurn(plan, message, None, others).trace.status
  {
    var n := |plan.steps|;
    StatusOfTurn(plan, message, answers);
    StatusOfTurn(plan, message, others);
    AlikeCost(answers, others, if plan.shape.Parallel? then 0 else n - 1, n);
    AlikeFail(plan, answers, others);
  }

  lemma {:induction false} StatusOfTurn(plan: Plan, message: string, answers: nat -> Answer)
    requires plan.steps != []
    ensures OrchestrateTurn(plan, message, None, answers).trace.status
         == if MustFail(plan, None, answers) then RunFailed else RunSucceeded
  {
    EveryTurnLeavesACompleteTrace(plan, message, None, answers);
  }

  lemma {:induction false} AlikeFail(plan: Plan, answers: nat -> Answer, others: nat -> Answer)
    requires plan.steps != []
    requires AlikeUpTo(answers, others, 0, |plan.steps|)
    requires plan.shape.Parallel? || CostOf(answers, |plan.steps| - 1) == CostOf(others, |plan.steps| - 1)
    ensures MustFail(plan, None, answers) <==> MustFail(plan, None, others)
  {
    var n := |plan.steps|;
    if plan.shape.Parallel? {
      assert forall i: nat :: i < n ==> (answers(i).Refused? <==> others(i).Refused?);
    } else {
      assert AllAnswered(answers, n) <==> AllAnswered(others, n);
    }
  }
}
