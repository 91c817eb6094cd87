/** Turning the clauses of a request into a plan of several agents. */
module Planning {
  import opened Wrappers
  import opened Text
  import opened Splitting
  import Scoring

  type AgentKey = Scoring.AgentKey

  const COMPOUND_MAX_STEPS: nat := 3

  const SEQUENCING_JOINS: set<string> := {"and then", "then also", "and after that", "after that", "then"}

  /** What the scorer and the back-reference pattern say of a clause text. */
  datatype Reading = Reading(specialist: Option<AgentKey>, matched: set<string>, refersBack: bool)

  datatype Step = Step(agent: AgentKey, intent: string, matched: set<string>, dependent: bool)

  datatype Shape = Pipeline | Parallel

  datatype Compound = Compound(shape: Shape, steps: seq<Step>, matched: set<string>)

  predicate DependsOnEarlier(c: Clause, read: string -> Reading) {
    c.join in SEQUENCING_JOINS || read(c.text).refersBack
  }

  // ---- Blocks of clauses, from what each clause names ----

  /** Whom clause `i` names, if anybody. */
  type Naming = nat -> Option<AgentKey>

  /** Where the blocks of the first `n` clauses start: at the first clause that names a specialist, and
      then at each one that names another specialist than the block it would join. */
  function Starts(names: Naming, n: nat): seq<nat> {
    if n == 0 then []
    else
      var before := Starts(names, n - 1);
      if names(n - 1).None? || (before != [] && names(before[|before| - 1]) == names(n - 1)) then before
      else before + [n - 1]
  }

  function BlockEnd(starts: seq<nat>, j: nat, n: nat): nat
    requires j < |starts|
  {
    if j + 1 < |starts| then starts[j + 1] else n
  }

  /** Neighbouring blocks start in order and with different agents. */
  ghost predicate Neighbours(names: Naming, starts: seq<nat>, j: nat)
    requires j + 1 < |starts|
  {
    starts[j] < starts[j + 1] && names(starts[j]) != names(starts[j + 1])
  }

  ghost predicate StartLaws(names: Naming, starts: seq<nat>, n: nat) {
    && (forall j :: 0 <= j < |starts| ==> starts[j] < n && names(starts[j]).Some?)
    && (forall j: nat :: j + 1 < |starts| ==> Neighbours(names, starts, j))
  }

  lemma {:induction false} StartsIncrease(names: Naming, starts: seq<nat>, n: nat, j: nat, k: nat)
    requires StartLaws(names, starts, n)
    ensures j <= k < |starts| ==> starts[j] <= starts[k]
    decreases k
  {
    if j < k < |starts| {
      assert Neighbours(names, starts, k - 1);
      StartsIncrease(names, starts, n, j, k - 1);
    }
  }

  /** Every clause of the block names nobody or the agent the block opens with. */
  ghost predicate OneAgent(names: Naming, from: nat, to: nat) {
    forall i: nat :: from <= i < to ==> names(i).None? || names(i) == names(from)
  }

  ghost predicate OneAgentBlock(names: Naming, starts: seq<nat>, j: nat, n: nat)
    requires j < |starts|
  {
    OneAgent(names, starts[j], BlockEnd(starts, j, n))
  }

  /** Clauses before the first start name nobody; every block has one agent. */
  ghost predicate MemberLaws(names: Naming, starts: seq<nat>, n: nat) {
    && (forall i: nat :: i < (if starts == [] then n else starts[0]) ==> names(i).None?)
    && (forall j: nat :: j < |starts| ==> OneAgentBlock(names, starts, j, n))
  }

  ghost predicate BlockLaws(names: Naming, starts: seq<nat>, n: nat) {
    StartLaws(names, starts, n) && MemberLaws(names, starts, n)
  }

  /** The last of `n` clauses joins the block before it. */
  lemma {:induction false} ClauseJoins(names: Naming, starts: seq<nat>, n: nat)
    requires n > 0 && BlockLaws(names, starts, n - 1)
    requires names(n - 1).None? || (starts != [] && names(starts[|starts| - 1]) == names(n - 1))
    ensures BlockLaws(names, starts, n)
  {
    StartsStay(names, starts, n - 1, n);
    forall j: nat | j < |starts| ensures OneAgentBlock(names, starts, j, n) {
      assert OneAgentBlock(names, starts, j, n - 1);
    }
  }

  lemma {:induction false} StartsStay(names: Naming, starts: seq<nat>, m: nat, n: nat)
    requires StartLaws(names, starts, m) && m <= n
    ensures StartLaws(names, starts, n)
  {
  }

  lemma {:induction false} StartsOpen(names: Naming, before: seq<nat>, n: nat)
    requires n > 0 && StartLaws(names, before, n - 1)
    requires names(n - 1).Some? && (before == [] || names(before[|before| - 1]) != names(n - 1))
    ensures StartLaws(names, before + [n - 1], n)
  {
    var starts := before + [n - 1];
    forall j: nat | j + 1 < |starts| ensures Neighbours(names, starts, j) {
      assert j + 1 < |before| ==> Neighbours(names, before, j);
    }
  }

  /** The last of `n` clauses opens a block. */
  lemma {:induction false} ClauseOpens(names: Naming, before: seq<nat>, n: nat)
    requires n > 0 && BlockLaws(names, before, n - 1)
    requires names(n - 1).Some? && (before == [] || names(before[|before| - 1]) != names(n - 1))
    ensures BlockLaws(names, before + [n - 1], n)
  {
    var starts := before + [n - 1];
    StartsOpen(names, before, n);
    forall j: nat | j < |starts| ensures OneAgentBlock(names, starts, j, n) {
      if j < |before| {
        assert OneAgentBlock(names, before, j, n - 1);
      }
    }
  }

  lemma {:induction false} OneMoreClause(names: Naming, n: nat)
    requires n > 0 && BlockLaws(names, Starts(names, n - 1), n - 1)
    ensures BlockLaws(names, Starts(names, n), n)
  {
    var before := Starts(names, n - 1);
    if names(n - 1).None? || (before != [] && names(before[|before| - 1]) == names(n - 1)) {
      ClauseJoins(names, before, n);
    } else {
      ClauseOpens(names, before, n);
    }
  }

  lemma {:induction false} StartsAreBlocks(names: Naming, n: nat)
    ensures BlockLaws(names, Starts(names, n), n)
  {
    if n > 0 {
      StartsAreBlocks(names, n - 1);
      OneMoreClause(names, n);
    }
  }

  /** Blocks do not overlap. */
  lemma {:induction false} BlocksApart(names: Naming, starts: seq<nat>, n: nat, j: nat, k: nat, i: nat)
    requires StartLaws(names, starts, n) && j < |starts| && k < |starts|
    requires starts[j] <= i < BlockEnd(starts, j, n) && starts[k] <= i < BlockEnd(starts, k, n)
    ensures j == k
  {
    StartsIncrease(names, starts, n, j + 1, k);
    StartsIncrease(names, starts, n, k + 1, j);
  }

  /** Every clause from the first named one on lies in exactly one block. */
  lemma {:induction false} OwnerOf(names: Naming, starts: seq<nat>, n: nat, i: nat) returns (j: nat)
    requires BlockLaws(names, starts, n) && i < n
    requires names(i).Some? || (starts != [] && starts[0] <= i)
    ensures j < |starts| && starts[j] <= i < BlockEnd(starts, j, n)
    ensures forall k: nat :: k < |starts| && starts[k] <= i < BlockEnd(starts, k, n) ==> k == j
    ensures names(i).Some? ==> names(i) == names(starts[j])
  {
    j := BlockAround(starts, n, i);
    assert OneAgentBlock(names, starts, j, n);
    forall k: nat | k < |starts| && starts[k] <= i < BlockEnd(starts, k, n) ensures k == j {
      BlocksApart(names, starts, n, j, k, i);
    }
  }

  lemma {:induction false} BlockAround(starts: seq<nat>, n: nat, i: nat) returns (j: nat)
    requires starts != [] && starts[0] <= i < n
    ensures j < |starts| && starts[j] <= i < BlockEnd(starts, j, n)
  {
    j := |starts| - 1;
    while starts[j] > i
      invariant 0 <= j < |starts| && i < BlockEnd(starts, j, n)
      decreases j
    {
      j := j - 1;
    }
  }

  /** The distinct specialists that the clauses name. */
  function Specialists(names: Naming, n: nat): set<AgentKey> {
    set i: nat | i < n && names(i).Some? :: names(i).value
  }

  lemma {:induction false} SubsetCount<T>(a: set<T>, b: set<T>)
    requires a <= b
    ensures |a| <= |b|
  {
    if a != {} {
      var x :| x in a;
      SubsetCount(a - {x}, b - {x});
    }
  }

  /** Fewer than two specialists are named exactly when there are fewer than two blocks. */
  lemma {:induction false} SpecialistCount(names: Naming, n: nat)
    ensures |Specialists(names, n)| < 2 <==> |Starts(names, n)| < 2
  {
    StartsAreBlocks(names, n);
    var starts, all := Starts(names, n), Specialists(names, n);
    if |starts| >= 2 {
      assert Neighbours(names, starts, 0);
      var two := {names(starts[0]).value, names(starts[1]).value};
      assert two <= all;
      SubsetCount(two, all);
    } else if |starts| == 1 {
      var one := {names(starts[0]).value};
      assert OneAgentBlock(names, starts, 0, n);
      forall i: nat | i < n && names(i).Some? ensures names(i).value in one {
      }
      assert all <= one;
      SubsetCount(all, one);
    } else {
      assert all == {};
    }
  }

  // ---- Steps, one per block ----

  function Texts(clauses: seq<Clause>): seq<string> {
    seq(|clauses|, i requires 0 <= i < |clauses| => clauses[i].text)
  }

  function MatchedIn(clauses: seq<Clause>, read: string -> Reading): set<string> {
    if clauses == [] then {}
    else
      var last := read(clauses[|clauses| - 1].text);
      MatchedIn(clauses[..|clauses| - 1], read) + if last.specialist.Some? then last.matched else {}
  }

  /** The step of the clauses `from`, ..., `to - 1`: the opening clause gives the agent and the dependence. */
  function StepOf(clauses: seq<Clause>, read: string -> Reading, from: nat, to: nat): Step
    requires from < to <= |clauses| && read(clauses[from].text).specialist.Some?
  {
    Step(read(clauses[from].text).specialist.value,
         Join(". ", Texts(clauses[from..to])),
         MatchedIn(clauses[from..to], read),
         DependsOnEarlier(clauses[from], read))
  }

  function Names(clauses: seq<Clause>, read: string -> Reading): Naming {
    (i: nat) => if i < |clauses| then read(clauses[i].text).specialist else None
  }

  function StepTable(clauses: seq<Clause>, read: string -> Reading): (nat, nat) -> Step {
    (from: nat, to: nat) =>
      if from < to <= |clauses| && read(clauses[from].text).specialist.Some? then StepOf(clauses, read, from, to)
      else Step("", "", {}, false)
  }

  function OpensDependent(clauses: seq<Clause>, read: string -> Reading): nat -> bool {
    (i: nat) => i < |clauses| && DependsOnEarlier(clauses[i], read)
  }

  ghost predicate StepsFor(steps: seq<Step>, names: Naming, stepOf: (nat, nat) -> Step, n: nat) {
    var starts := Starts(names, n);
    |steps| == |starts| && forall j: nat :: j < |steps| ==> steps[j] == stepOf(starts[j], BlockEnd(starts, j, n))
  }

  /** A clause that opens no block extends the last step, if there is one. */
  lemma {:induction false} LastStepGrows(steps: seq<Step>, names: Naming, stepOf: (nat, nat) -> Step, n: nat)
    requires StepsFor(steps, names, stepOf, n) && Starts(names, n + 1) == Starts(names, n)
    ensures var starts := Starts(names, n);
            if steps == [] then StepsFor([], names, stepOf, n + 1)
            else StepsFor(steps[|steps| - 1 := stepOf(starts[|starts| - 1], n + 1)], names, stepOf, n + 1)
  {
  }

  /** A clause that opens a block closes the one before and adds a step. */
  lemma {:induction false} NewStepOpens(steps: seq<Step>, names: Naming, stepOf: (nat, nat) -> Step, n: nat)
    requires StepsFor(steps, names, stepOf, n) && Starts(names, n + 1) == Starts(names, n) + [n]
    ensures StepsFor(steps + [stepOf(n, n + 1)], names, stepOf, n + 1)
  {
    var before, starts := Starts(names, n), Starts(names, n + 1);
    forall j: nat | j < |before| ensures BlockEnd(starts, j, n + 1) == BlockEnd(before, j, n) {
    }
  }

  lemma {:induction false} BlockGrows(clauses: seq<Clause>, read: string -> Reading, from: nat, n: nat)
    requires from < n < |clauses| && read(clauses[from].text).specialist.Some?
    ensures var last := read(clauses[n].text);
            var step := StepOf(clauses, read, from, n);
            StepOf(clauses, read, from, n + 1) ==
              step.(intent := step.intent + ". " + clauses[n].text,
                    matched := step.matched + if last.specialist.Some? then last.matched else {})
  {
    var shorter, longer := clauses[from..n], clauses[from..n + 1];
    assert longer[..|longer| - 1] == shorter;
    assert Texts(longer)[..|longer| - 1] == Texts(shorter);
  }

  lemma {:induction false} BlockOpens(clauses: seq<Clause>, read: string -> Reading, n: nat)
    requires n < |clauses| && read(clauses[n].text).specialist.Some?
    ensures var c, r := clauses[n], read(clauses[n].text);
            StepOf(clauses, read, n, n + 1) == Step(r.specialist.value, c.text, r.matched, DependsOnEarlier(c, read))
  {
    var one := clauses[n..n + 1];
    assert one == [clauses[n]] && one[..0] == [];
    assert MatchedIn(one[..0], read) == {};
    assert MatchedIn(one, read) == read(clauses[n].text).matched;
    assert Texts(one) == [clauses[n].text];
  }

  /** Joining clause `i` to the last step makes the last block one clause longer. */
  lemma {:induction false} JoinedStep(resolved: seq<Step>, clauses: seq<Clause>, read: string -> Reading, i: nat)
    requires i < |clauses| && StepsFor(resolved, Names(clauses, read), StepTable(clauses, read), i)
    requires resolved != [] && Starts(Names(clauses, read), i + 1) == Starts(Names(clauses, read), i)
    ensures var last, reading := resolved[|resolved| - 1], read(clauses[i].text);
            var longer := last.(intent := last.intent + ". " + clauses[i].text,
                                matched := last.matched + if reading.specialist.Some? then reading.matched else {});
            StepsFor(resolved[|resolved| - 1 := longer], Names(clauses, read), StepTable(clauses, read), i + 1)
  {
    var names, stepOf := Names(clauses, read), StepTable(clauses, read);
    StartsAreBlocks(names, i);
    var starts := Starts(names, i);
    var from := starts[|starts| - 1];
    LastStepGrows(resolved, names, stepOf, i);
    BlockGrows(clauses, read, from, i);
    assert resolved[|resolved| - 1] == stepOf(from, i) == StepOf(clauses, read, from, i);
    assert stepOf(from, i + 1) == StepOf(clauses, read, from, i + 1);
  }

  /** The last step has the agent that its block opens with. */
  lemma {:induction false} LastAgent(resolved: seq<Step>, clauses: seq<Clause>, read: string -> Reading, i: nat)
    requires i < |clauses| && StepsFor(resolved, Names(clauses, read), StepTable(clauses, read), i)
    ensures var starts := Starts(Names(clauses, read), i);
            |starts| == |resolved|
            && (resolved != [] ==> Names(clauses, read)(starts[|starts| - 1]) == Some(resolved[|resolved| - 1].agent))
  {
    StartsAreBlocks(Names(clauses, read), i);
    if resolved != [] {
      var from := Starts(Names(clauses, read), i)[|resolved| - 1];
      assert resolved[|resolved| - 1] == StepTable(clauses, read)(from, i) == StepOf(clauses, read, from, i);
    }
  }

  /** One clause: joined to the last step, skipped, or opening a new step. */
  method ResolveOne(resolved: seq<Step>, clauses: seq<Clause>, read: string -> Reading, i: nat) returns (more: seq<Step>)
    requires i < |clauses| && StepsFor(resolved, Names(clauses, read), StepTable(clauses, read), i)
    ensures StepsFor(more, Names(clauses, read), StepTable(clauses, read), i + 1)
  {
    ghost var names, stepOf := Names(clauses, read), StepTable(clauses, read);
    LastAgent(resolved, clauses, read, i);
    var clause := clauses[i];
    var reading := read(clause.text);
    var dependent := DependsOnEarlier(clause, read);
    if reading.specialist.None? {
      if resolved == [] {
        LastStepGrows(resolved, names, stepOf, i);
        return [];
      }
      JoinedStep(resolved, clauses, read, i);
      var last := resolved[|resolved| - 1];
      assert last.matched + {} == last.matched;
      return resolved[|resolved| - 1 := last.(intent := last.intent + ". " + clause.text)];
    }
    if resolved != [] && resolved[|resolved| - 1].agent == reading.specialist.value {
      JoinedStep(resolved, clauses, read, i);
      var last := resolved[|resolved| - 1];
      return resolved[|resolved| - 1 :=
        last.(intent := last.intent + ". " + clause.text, matched := last.matched + reading.matched)];
    }
    BlockOpens(clauses, read, i);
    NewStepOpens(resolved, names, stepOf, i);
    return resolved + [Step(reading.specialist.value, clause.text, reading.matched, dependent)];
  }

  /** The clauses fold into steps one by one: a clause of the same agent, or of none, joins the last
      step; a clause of another agent opens a step; leading clauses of none are skipped. */
  method Resolve(clauses: seq<Clause>, read: string -> Reading) returns (resolved: seq<Step>)
    ensures StepsFor(resolved, Names(clauses, read), StepTable(clauses, read), |clauses|)
  {
    resolved := [];
    for i := 0 to |clauses|
      invariant StepsFor(resolved, Names(clauses, read), StepTable(clauses, read), i)
    {
      resolved := ResolveOne(resolved, clauses, read, i);
    }
  }

  function AgentsOf(steps: seq<Step>): set<AgentKey> {
    set j | 0 <= j < |steps| :: steps[j].agent
  }

  function MatchedOf(steps: seq<Step>): set<string> {
    set j, m | 0 <= j < |steps| && m in steps[j].matched :: m
  }

  /** A plan of several agents, or none when fewer than two distinct specialists are named. */
  method PlanCompound(clauses: seq<Clause>, read: string -> Reading) returns (plan: Option<Compound>)
    ensures plan.None? <==> |Specialists(Names(clauses, read), |clauses|)| < 2
    ensures plan.Some? ==> IsPlan(plan.value, clauses, read)
  {
    ghost var names := Names(clauses, read);
    SpecialistCount(names, |clauses|);
    if |clauses| < 2 {
      assert |clauses| == 1 ==> |Starts(names, 1)| <= |Starts(names, 0)| + 1;
      return None;
    }
    var resolved := Resolve(clauses, read);
    var agents := AgentsOf(resolved);
    TablesAgree(clauses, read);
    AgentsAreSpecialists(resolved, names, StepTable(clauses, read), OpensDependent(clauses, read), |clauses|);
    if |agents| < 2 {
      return None;
    }
    var kept := Kept(resolved);
    var dependent := LaterDepends(kept);
    KeptStepsMakeAPlan(resolved, names, StepTable(clauses, read), OpensDependent(clauses, read), |clauses|);
    plan := Some(Compound(if dependent then Pipeline else Parallel, kept, MatchedOf(kept)));
  }

  // ---- From the request itself ----

  function KeywordSet(matched: seq<string>): set<string> {
    set k | k in matched
  }

  /** Phrases that point at an earlier result: a head and a tail, beginning at a word boundary, and ending at
      one when closed. */
  datatype Marker = Marker(heads: seq<string>, tails: seq<string>, closed: bool)

  const BACK_REFERENCES: seq<Marker> := [
    Marker(["based on"], [""], true),
    Marker(["using "], ["the results", "those", "that", "what"], true),
    Marker(["from "], ["what", "the results", "those"], true),
    Marker(["once you"], [""], true),
    Marker(["after "], ["you", "research", "find", "check"], false),
    Marker(["with "], ["those", "that", "the results"], true),
    Marker(["for the ", "for my ", "for that "], ["biggest", "main", "top", "largest", "weakest"], true),
    Marker(["the "], ["biggest", "main", "top", "largest", "weakest", "best", "first"], true),
    Marker(["the "], ["company", "companies", "role", "roles", "job", "jobs", "listing", "listings", "result", "results",
                      "option", "options", "gap", "gaps", "one", "ones"], true),
    Marker(["those", "them", "these"], [""], true),
    Marker(["each "], ["one", "of them"], true),
    Marker(["that "], ["gap", "role", "company", "topic", "one", "result"], true)]

  predicate PhraseAt(text: string, phrase: string, closed: bool, p: nat) {
    && p + |phrase| <= |text| && MatchesAt(text, p, phrase)
    && Scoring.WordBoundary(text, p) && (closed ==> Scoring.WordBoundary(text, p + |phrase|))
  }

  predicate HasMarker(text: string, m: Marker) {
    exists head, tail, p: nat :: head in m.heads && tail in m.tails && p <= |text| && PhraseAt(text, head + tail, m.closed, p)
  }

  /** Whether the clause refers back to an earlier one by its wording. */
  predicate RefersBack(text: string) {
    exists m :: m in BACK_REFERENCES && HasMarker(text, m)
  }

  /** What the scorer makes of a clause, and whether a pattern finds that it refers back. */
  function ReadingOf(keys: seq<AgentKey>, registry: Scoring.Registry, refersBack: string -> bool): string -> Reading {
    (text: string) =>
      var ranked := Scoring.Ranking(registry, LowerAll(text));
      var at := Scoring.BestAt(keys, ranked, |keys|);
      if at.None? then Reading(None, {}, refersBack(text))
      else Reading(Some(keys[at.value]), KeywordSet(ranked(keys[at.value]).value.2), refersBack(text))
  }

  /** The loop over the specialists gives exactly this reading. */
  lemma {:induction false} ScorerGivesReading(text: string, keys: seq<AgentKey>, registry: Scoring.Registry, refersBack: string -> bool,
                           best: Option<AgentKey>, score: nat, matched: seq<string>)
    requires Scoring.Picks(keys, Scoring.Ranking(registry, LowerAll(text)), best, score, matched)
    ensures ReadingOf(keys, registry, refersBack)(text) == Reading(best, KeywordSet(matched), refersBack(text))
  {
    var ranked := Scoring.Ranking(registry, LowerAll(text));
    var at :| Scoring.IsBest(keys, ranked, at) && Scoring.IsPick(keys, ranked, at, best, score, matched);
    Scoring.BestAtIsBest(keys, ranked, |keys|);
    assert keys[..|keys|] == keys;
    Scoring.BestIsUnique(keys, ranked, at, Scoring.BestAt(keys, ranked, |keys|));
    assert at.None? ==> KeywordSet(matched) == {};
  }

  ghost predicate PlansClauses(plan: Option<Compound>, clauses: seq<Clause>, read: string -> Reading) {
    && (plan.None? <==> |Specialists(Names(clauses, read), |clauses|)| < 2)
    && (plan.Some? ==> IsPlan(plan.value, clauses, read))
  }

  ghost predicate PlansRequest(plan: Option<Compound>, intent: string, read: string -> Reading) {
    exists clauses :: AreClauses(SplitRequest(intent), clauses) && PlansClauses(plan, clauses, read)
  }

  /** The planner on a request and a registry: the clauses of its one leftmost-longest split, each read by
      the scorer, folded into a plan. */
  method PlanRequest(intent: string, keys: seq<AgentKey>, registry: Scoring.Registry) returns (plan: Option<Compound>)
    ensures PlansRequest(plan, intent, ReadingOf(keys, registry, RefersBack))
  {
    var clauses := Segments(SplitRequest(intent));
    plan := PlanCompound(clauses, ReadingOf(keys, registry, RefersBack));
    assert PlansClauses(plan, clauses, ReadingOf(keys, registry, RefersBack));
  }

  /** The clauses of a request are determined by it, so this is about them and no others. */
  lemma {:induction false} PlansItsClauses(
    plan: Option<Compound>, intent: string, read: string -> Reading, clauses: seq<Clause>)
    requires AreClauses(SplitRequest(intent), clauses)
    ensures PlansRequest(plan, intent, read) <==> PlansClauses(plan, clauses, read)
  {
    if PlansRequest(plan, intent, read) {
      var others :| AreClauses(SplitRequest(intent), others) && PlansClauses(plan, others, read);
      ClausesAreUnique(SplitRequest(intent), clauses, others);
    }
  }

  // ---- What a plan is ----

  /** Clauses of the kept steps end here: at the end, or where the fourth block starts. */
  function Cut(names: Naming, n: nat): nat {
    var starts := Starts(names, n);
    if |starts| <= COMPOUND_MAX_STEPS then n else starts[COMPOUND_MAX_STEPS]
  }

  /** What a returned plan is: two or three steps, neighbours with different agents, each step one block
      of consecutive clauses, the blocks covering every clause from the first named one to the cut, and
      PARALLEL exactly when no later kept block opens with a dependent clause. */
  ghost predicate PlanLaws(plan: Compound, names: Naming, stepOf: (nat, nat) -> Step, opens: nat -> bool, n: nat) {
    var starts := Starts(names, n);
    && BlockLaws(names, starts, n)
    && 2 <= |plan.steps| <= COMPOUND_MAX_STEPS && |plan.steps| <= |starts|
    && (forall j: nat :: j < |plan.steps| ==> plan.steps[j] == stepOf(starts[j], BlockEnd(starts, j, n)))
    && BlockEnd(starts, |plan.steps| - 1, n) == Cut(names, n)
    && (forall j :: 0 <= j < |plan.steps| - 1 ==> plan.steps[j].agent != plan.steps[j + 1].agent)
    && (plan.shape == Parallel <==> forall j :: 1 <= j < |plan.steps| ==> !opens(starts[j]))
    && plan.matched == MatchedOf(plan.steps)
  }

  ghost predicate IsPlan(plan: Compound, clauses: seq<Clause>, read: string -> Reading) {
    PlanLaws(plan, Names(clauses, read), StepTable(clauses, read), OpensDependent(clauses, read), |clauses|)
  }

  /** A step has the agent its block opens with, and depends when its opening clause does. */
  ghost predicate Agree(names: Naming, stepOf: (nat, nat) -> Step, opens: nat -> bool, n: nat) {
    forall from: nat, to: nat :: from < to <= n && names(from).Some? ==>
      stepOf(from, to).agent == names(from).value && stepOf(from, to).dependent == opens(from)
  }

  lemma {:induction false} TablesAgree(clauses: seq<Clause>, read: string -> Reading)
    ensures Agree(Names(clauses, read), StepTable(clauses, read), OpensDependent(clauses, read), |clauses|)
  {
    var names, stepOf, opens := Names(clauses, read), StepTable(clauses, read), OpensDependent(clauses, read);
    forall from: nat, to: nat | from < to <= |clauses| && names(from).Some?
      ensures stepOf(from, to).agent == names(from).value && stepOf(from, to).dependent == opens(from)
    {
      assert stepOf(from, to) == StepOf(clauses, read, from, to);
    }
  }

  lemma {:induction false} EndsAfterStart(names: Naming, starts: seq<nat>, n: nat, j: nat)
    requires BlockLaws(names, starts, n) && j < |starts|
    ensures starts[j] < BlockEnd(starts, j, n) <= n
  {
    if j + 1 < |starts| {
      assert Neighbours(names, starts, j);
    }
  }

  lemma {:induction false} StepsOfBlocks(
    steps: seq<Step>, names: Naming, stepOf: (nat, nat) -> Step, opens: nat -> bool, n: nat, j: nat)
    requires StepsFor(steps, names, stepOf, n) && Agree(names, stepOf, opens, n) && j < |steps|
    ensures var starts := Starts(names, n);
            && j < |starts| && names(starts[j]).Some?
            && steps[j].agent == names(starts[j]).value && steps[j].dependent == opens(starts[j])
  {
    StartsAreBlocks(names, n);
    EndsAfterStart(names, Starts(names, n), n, j);
  }

  lemma {:induction false} AgentsAreSpecialists(
    steps: seq<Step>, names: Naming, stepOf: (nat, nat) -> Step, opens: nat -> bool, n: nat)
    requires StepsFor(steps, names, stepOf, n) && Agree(names, stepOf, opens, n)
    ensures AgentsOf(steps) == Specialists(names, n)
  {
    StartsAreBlocks(names, n);
    var starts := Starts(names, n);
    forall a | a in Specialists(names, n) ensures a in AgentsOf(steps) {
      var i: nat :| i < n && names(i).Some? && names(i).value == a;
      var j := OwnerOf(names, starts, n, i);
      StepsOfBlocks(steps, names, stepOf, opens, n, j);
      assert steps[j].agent == a;
    }
    forall a | a in AgentsOf(steps) ensures a in Specialists(names, n) {
      var j: nat :| j < |steps| && steps[j].agent == a;
      StepsOfBlocks(steps, names, stepOf, opens, n, j);
      assert starts[j] < n;
    }
  }

  function Kept(steps: seq<Step>): seq<Step> {
    if |steps| <= COMPOUND_MAX_STEPS then steps else steps[..COMPOUND_MAX_STEPS]
  }

  predicate LaterDepends(steps: seq<Step>) {
    exists j :: 1 <= j < |steps| && steps[j].dependent
  }

  lemma {:induction false} KeptStepsMakeAPlan(
    steps: seq<Step>, names: Naming, stepOf: (nat, nat) -> Step, opens: nat -> bool, n: nat)
    requires StepsFor(steps, names, stepOf, n) && Agree(names, stepOf, opens, n) && |Starts(names, n)| >= 2
    ensures var kept := Kept(steps);
            PlanLaws(Compound(if LaterDepends(kept) then Pipeline else Parallel, kept, MatchedOf(kept)),
                     names, stepOf, opens, n)
  {
    StartsAreBlocks(names, n);
    var starts, kept := Starts(names, n), Kept(steps);
    forall j: nat | j < |kept|
      ensures kept[j] == steps[j] && kept[j].dependent == opens(starts[j]) && kept[j].agent == names(starts[j]).value
    {
      StepsOfBlocks(steps, names, stepOf, opens, n, j);
    }
    forall j | 0 <= j < |kept| - 1 ensures kept[j].agent != kept[j + 1].agent {
      assert Neighbours(names, starts, j);
    }
    assert LaterDepends(kept) <==> exists j :: 1 <= j < |kept| && opens(starts[j]);
    KeptEndsAtCut(kept, names, n);
  }

  lemma {:induction false} KeptEndsAtCut(kept: seq<Step>, names: Naming, n: nat)
    requires var starts := Starts(names, n);
             |starts| >= 2 && |kept| == if |starts| <= COMPOUND_MAX_STEPS then |starts| else COMPOUND_MAX_STEPS
    ensures BlockEnd(Starts(names, n), |kept| - 1, n) == Cut(names, n)
  {
  }

  ghost predicate Worded(plan: Compound, text: string) {
    exists j :: 0 <= j < |plan.steps| && Contains(plan.steps[j].intent, text)
  }

  lemma {:induction false} BlockHoldsText(clauses: seq<Clause>, read: string -> Reading, from: nat, to: nat, i: nat)
    requires from <= i < to <= |clauses| && read(clauses[from].text).specialist.Some?
    ensures Contains(StepOf(clauses, read, from, to).intent, clauses[i].text)
  {
    var texts := Texts(clauses[from..to]);
    var at := JoinContains(". ", texts, i - from);
    assert texts[i - from] == clauses[i].text;
    assert OccursAt(Join(". ", texts), clauses[i].text, at);
  }

  lemma {:induction false} StepHoldsText(
    step: Step, clauses: seq<Clause>, read: string -> Reading, from: nat, to: nat, i: nat)
    requires from <= i < to <= |clauses| && Names(clauses, read)(from).Some?
    requires step == StepTable(clauses, read)(from, to)
    ensures Contains(step.intent, clauses[i].text)
  {
    BlockHoldsText(clauses, read, from, to, i);
  }

  /** The owner of a clause before the cut is a kept block. */
  lemma {:induction false} OwnerIsKept(
    plan: Compound, names: Naming, stepOf: (nat, nat) -> Step, opens: nat -> bool, n: nat, i: nat)
    returns (j: nat)
    requires PlanLaws(plan, names, stepOf, opens, n) && Starts(names, n)[0] <= i < Cut(names, n) <= n
    ensures var starts := Starts(names, n);
            && j < |plan.steps| <= |starts| && starts[j] <= i < BlockEnd(starts, j, n) <= n && names(starts[j]).Some?
            && plan.steps[j] == stepOf(starts[j], BlockEnd(starts, j, n))
  {
    var starts, last := Starts(names, n), |plan.steps| - 1;
    j := OwnerOf(names, starts, n, i);
    EndsAfterStart(names, starts, n, j);
    StartsIncrease(names, starts, n, last + 1, j);
  }

  /** The wording of every clause from the first named one up to the cut reaches an agent. */
  lemma {:induction false} WordingReachesAnAgent(plan: Compound, clauses: seq<Clause>, read: string -> Reading, i: nat)
    requires IsPlan(plan, clauses, read)
    requires Starts(Names(clauses, read), |clauses|)[0] <= i < Cut(Names(clauses, read), |clauses|)
    ensures i < |clauses| && Worded(plan, clauses[i].text)
  {
    var names, n := Names(clauses, read), |clauses|;
    var starts := Starts(names, n);
    assert Cut(names, n) <= n;
    var j := OwnerIsKept(plan, names, StepTable(clauses, read), OpensDependent(clauses, read), n, i);
    StepHoldsText(plan.steps[j], clauses, read, starts[j], BlockEnd(starts, j, n), i);
  }

  /** Clause `i` lies in the block of some kept step. */
  ghost predicate TakesUp(plan: Compound, names: Naming, n: nat, i: nat) {
    var starts := Starts(names, n);
    exists j: nat :: j < |plan.steps| && j < |starts| && starts[j] <= i < BlockEnd(starts, j, n)
  }

  ghost predicate TakesUpAll(plan: Compound, names: Naming, n: nat) {
    forall i: nat :: i < n ==> TakesUp(plan, names, n, i)
  }

  lemma {:induction false} TakesUpFromStartToCut(
    plan: Compound, names: Naming, stepOf: (nat, nat) -> Step, opens: nat -> bool, n: nat, i: nat)
    requires PlanLaws(plan, names, stepOf, opens, n) && i < n
    ensures TakesUp(plan, names, n, i) <==> Starts(names, n)[0] <= i < Cut(names, n)
  {
    if Starts(names, n)[0] <= i < Cut(names, n) {
      var j := OwnerIsKept(plan, names, stepOf, opens, n, i);
    }
    if TakesUp(plan, names, n, i) {
      KeptBlockIsBeforeCut(Starts(names, n), names, n, |plan.steps|, i);
    }
  }

  /** A clause in one of the first `kept` blocks lies between the first start and the end of those blocks. */
  lemma {:induction false} KeptBlockIsBeforeCut(starts: seq<nat>, names: Naming, n: nat, kept: nat, i: nat)
    requires StartLaws(names, starts, n) && 0 < kept <= |starts|
    requires exists j: nat :: j < kept && starts[j] <= i < BlockEnd(starts, j, n)
    ensures starts[0] <= i < BlockEnd(starts, kept - 1, n)
  {
    var j: nat :| j < kept && starts[j] <= i < BlockEnd(starts, j, n);
    StartsIncrease(names, starts, n, 0, j);
    StartsIncrease(names, starts, n, j + 1, kept);
  }

  /** Exactly when the steps of the plan take up every clause: the first clause must name a specialist, and
      there must be no fourth block. Leading clauses that name nobody are in no step. */
  lemma {:induction false} EveryClauseIsTakenUpIff(plan: Compound, clauses: seq<Clause>, read: string -> Reading)
    requires IsPlan(plan, clauses, read)
    ensures var names, n := Names(clauses, read), |clauses|;
            TakesUpAll(plan, names, n) <==> names(0).Some? && |Starts(names, n)| <= COMPOUND_MAX_STEPS
  {
    PlanTakesUpAllIff(plan, Names(clauses, read), StepTable(clauses, read), OpensDependent(clauses, read), |clauses|);
  }

  lemma {:induction false} PlanTakesUpAllIff(
    plan: Compound, names: Naming, stepOf: (nat, nat) -> Step, opens: nat -> bool, n: nat)
    requires PlanLaws(plan, names, stepOf, opens, n)
    ensures TakesUpAll(plan, names, n) <==> names(0).Some? && |Starts(names, n)| <= COMPOUND_MAX_STEPS
  {
    var starts := Starts(names, n);
    forall i: nat | i < n ensures TakesUp(plan, names, n, i) <==> starts[0] <= i < Cut(names, n) {
      TakesUpFromStartToCut(plan, names, stepOf, opens, n, i);
    }
    assert starts[0] < n && Cut(names, n) <= n;
    assert TakesUpAll(plan, names, n) ==> TakesUp(plan, names, n, 0) && TakesUp(plan, names, n, n - 1);
    assert starts[0] != 0 ==> names(0).None?;
  }
}
