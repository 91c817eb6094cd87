/** When the tasks of a request run one after another, and what each step of its plan is made of. */
module OrderedRequests {
  import opened Wrappers
  import opened Text
  import opened Splitting
  import opened Planning
  import opened LeadingClauses
  import Scoring

  // ---- What a clause is, in the request ----

  predicate AroundClause(c: char) {
    c == ' ' || c == ',' || c == '.' || c == ';'
  }

  predicate AroundConnective(c: char) {
    c == ' ' || c == ','
  }

  /** The connectives that put one task after another. */
  predicate MeansThen(w: string) {
    w == "and then" || w == "then also" || w == "and after that" || w == "after that" || w == "then"
  }

  /** The same text, capitals aside: `w` has none where `s` does. */
  predicate ReadsAs(s: string, w: string) {
    |s| == |w| && forall k :: 0 <= k < |s| ==> SameLetter(s[k], w[k])
  }

  predicate SameLetter(c: char, small: char) {
    if 'A' <= c <= 'Z' then small as int == c as int + 32 else small == c
  }

  ghost predicate SaysThen(connective: string) {
    exists t, w :: IsTrim(connective, AroundConnective, t) && ReadsAs(t, w) && MeansThen(w)
  }

  /** Part `i` is a clause: it stands between connectives and has at least eight characters once trimmed. */
  ghost predicate LongEnough(parts: seq<string>, i: nat)
    requires i < |parts|
  {
    i % 2 == 0 && exists t :: IsTrim(parts[i], AroundClause, t) && |t| >= 8
  }

  /** The clauses stand at the positions `at` of the split, in order, each trimmed, and none is left out. */
  ghost predicate ClausesStand(parts: seq<string>, clauses: seq<Clause>, at: seq<nat>) {
    && |clauses| == |at| && Increasing(at)
    && (forall k :: 0 <= k < |at| ==>
          at[k] < |parts| && LongEnough(parts, at[k]) && IsTrim(parts[at[k]], AroundClause, clauses[k].text))
    && (forall i: nat :: i < |parts| && LongEnough(parts, i) ==> i in at)
  }

  lemma {:induction false} SameEdges()
    ensures forall c: char :: AroundClause(c) <==> IsClauseEdge(c)
    ensures forall c: char :: AroundConnective(c) <==> IsJoinEdge(c)
  {
    assert CLAUSE_EDGES[..] == [' ', ',', '.', ';'];
    assert JOIN_EDGES[..] == [' ', ','];
    forall c: char ensures AroundClause(c) <==> IsClauseEdge(c) {
      assert CLAUSE_EDGES[0] == ' ' && CLAUSE_EDGES[1] == ',' && CLAUSE_EDGES[2] == '.' && CLAUSE_EDGES[3] == ';';
    }
    forall c: char ensures AroundConnective(c) <==> IsJoinEdge(c) {
      assert JOIN_EDGES[0] == ' ' && JOIN_EDGES[1] == ',';
    }
  }

  lemma {:induction false} ClauseIsTrimmed(parts: seq<string>, i: nat)
    requires i < |parts|
    ensures IsTrim(parts[i], AroundClause, ClauseAt(parts, i).text)
    ensures KeptAt(ClauseTable(parts), i) <==> LongEnough(parts, i)
  {
    SameEdges();
    StripByIsTrim(parts[i], IsClauseEdge, AroundClause);
    var text := ClauseAt(parts, i).text;
    forall t | IsTrim(parts[i], AroundClause, t) ensures t == text {
      TrimIsUnique(parts[i], AroundClause, t, text);
    }
  }

  lemma {:induction false} ReadsAsLowered(s: string, w: string)
    ensures ReadsAs(s, w) <==> LowerAll(s) == w
  {
    forall k | 0 <= k < |s| && k < |w| ensures SameLetter(s[k], w[k]) <==> Lower(s[k]) == w[k] {
      if 'A' <= s[k] <= 'Z' {
        assert Lower(s[k]) as int == s[k] as int + 32;
      }
    }
    if ReadsAs(s, w) {
      assert forall k :: 0 <= k < |s| ==> LowerAll(s)[k] == w[k];
    } else if |s| == |w| {
      var k :| 0 <= k < |s| && !SameLetter(s[k], w[k]);
      assert LowerAll(s)[k] != w[k];
    }
  }

  lemma {:induction false} JoinSaysThen(parts: seq<string>, i: nat)
    requires 0 < i < |parts|
    ensures ClauseAt(parts, i).join in SEQUENCING_JOINS <==> SaysThen(parts[i - 1])
  {
    var connective := parts[i - 1];
    var trimmed := StripBy(connective, IsJoinEdge);
    SameEdges();
    StripByIsTrim(connective, IsJoinEdge, AroundConnective);
    ReadsAsLowered(trimmed, LowerAll(trimmed));
    assert MeansThen(LowerAll(trimmed)) ==> SaysThen(connective);
    if SaysThen(connective) {
      var t, w :| IsTrim(connective, AroundConnective, t) && ReadsAs(t, w) && MeansThen(w);
      TrimIsUnique(connective, AroundConnective, t, trimmed);
      ReadsAsLowered(t, w);
    }
  }

  // ---- When a plan is a pipeline ----

  /** The clause at position `i` of the split is meant to come after the one before it. */
  ghost predicate ComesAfter(parts: seq<string>, i: nat, text: string, read: string -> Reading) {
    (0 < i <= |parts| && SaysThen(parts[i - 1])) || read(text).refersBack
  }

  lemma {:induction false} DependsIff(parts: seq<string>, i: nat, read: string -> Reading)
    requires 0 < i < |parts|
    ensures DependsOnEarlier(ClauseAt(parts, i), read) <==> ComesAfter(parts, i, ClauseAt(parts, i).text, read)
  {
    JoinSaysThen(parts, i);
  }

  lemma {:induction false} KeptClausesStand(parts: seq<string>, clauses: seq<Clause>, at: seq<nat>)
    requires KeepsUpTo(ClauseTable(parts), clauses, at, |parts|)
    ensures ClausesStand(parts, clauses, at)
    ensures forall k :: 0 <= k < |at| ==> at[k] < |parts| && clauses[k] == ClauseAt(parts, at[k])
  {
    forall i: nat | i < |parts|
      ensures IsTrim(parts[i], AroundClause, ClauseAt(parts, i).text)
      ensures KeptAt(ClauseTable(parts), i) <==> LongEnough(parts, i)
    {
      ClauseIsTrimmed(parts, i);
    }
  }

  /** Some kept step but the first opens with a clause that comes after the one before it. */
  ghost predicate SomeComesAfter(
    parts: seq<string>, clauses: seq<Clause>, at: seq<nat>, starts: seq<nat>, steps: nat, read: string -> Reading)
  {
    exists j :: 1 <= j < steps && j < |starts| && starts[j] < |clauses| && starts[j] < |at| &&
      ComesAfter(parts, at[starts[j]], clauses[starts[j]].text, read)
  }

  lemma {:induction false} LaterStart(names: Naming, starts: seq<nat>, n: nat, j: nat)
    requires StartLaws(names, starts, n) && 1 <= j < |starts|
    ensures 0 < starts[j] < n
  {
    assert Neighbours(names, starts, j - 1);
  }

  lemma {:induction false} OpensAfter(
    parts: seq<string>, clauses: seq<Clause>, at: seq<nat>, i: nat, read: string -> Reading)
    requires KeepsUpTo(ClauseTable(parts), clauses, at, |parts|) && 0 < i < |clauses|
    ensures OpensDependent(clauses, read)(i) <==> ComesAfter(parts, at[i], clauses[i].text, read)
  {
    assert at[0] < at[i];
    DependsIff(parts, at[i], read);
    assert clauses[i] == ClauseTable(parts)(at[i]) == ClauseAt(parts, at[i]);
  }

  lemma {:induction false} PipelineOfClauses(
    plan: Compound, parts: seq<string>, clauses: seq<Clause>, at: seq<nat>, read: string -> Reading)
    requires KeepsUpTo(ClauseTable(parts), clauses, at, |parts|) && IsPlan(plan, clauses, read)
    ensures plan.shape == Pipeline <==>
      SomeComesAfter(parts, clauses, at, Starts(Names(clauses, read), |clauses|), |plan.steps|, read)
  {
    var names, starts := Names(clauses, read), Starts(Names(clauses, read), |clauses|);
    forall j: nat | 1 <= j < |plan.steps|
      ensures starts[j] < |clauses|
      ensures OpensDependent(clauses, read)(starts[j]) <==>
        ComesAfter(parts, at[starts[j]], clauses[starts[j]].text, read)
    {
      LaterStart(names, starts, |clauses|, j);
      OpensAfter(parts, clauses, at, starts[j], read);
    }
  }

  /** The shape of the plan, if there is one, by the clauses of the request as they stand in it. */
  ghost predicate ShapedBy(
    plan: Option<Compound>, parts: seq<string>, clauses: seq<Clause>, at: seq<nat>, read: string -> Reading)
  {
    plan.Some? ==>
      var starts := Starts(Names(clauses, read), |clauses|);
      plan.value.shape ==
        if SomeComesAfter(parts, clauses, at, starts, |plan.value.steps|, read) then Pipeline else Parallel
  }

  lemma {:induction false} ShapeOfClauses(
    plan: Option<Compound>, parts: seq<string>, clauses: seq<Clause>, at: seq<nat>, read: string -> Reading)
    requires KeepsUpTo(ClauseTable(parts), clauses, at, |parts|) && PlansClauses(plan, clauses, read)
    ensures ShapedBy(plan, parts, clauses, at, read)
  {
    if plan.Some? {
      PipelineOfClauses(plan.value, parts, clauses, at, read);
    }
  }

  lemma {:induction false} PositionsOf(parts: seq<string>, clauses: seq<Clause>) returns (at: seq<nat>)
    requires AreClauses(parts, clauses)
    ensures KeepsUpTo(ClauseTable(parts), clauses, at, |parts|)
  {
    at :| KeepsUpTo(ClauseTable(parts), clauses, at, |parts|);
  }

  lemma {:induction false} ClausesPlanned(plan: Option<Compound>, intent: string, read: string -> Reading)
    returns (clauses: seq<Clause>)
    requires PlansRequest(plan, intent, read)
    ensures AreClauses(SplitRequest(intent), clauses) && PlansClauses(plan, clauses, read)
  {
    clauses :| AreClauses(SplitRequest(intent), clauses) && PlansClauses(plan, clauses, read);
  }

  /** What decides whether the tasks of a request run one after another: its one split, the clauses that stand
      in it, and, for some later kept block, the connective right before its first clause or that clause's
      own reference to what came before. */
  lemma {:induction false} PipelineIff(plan: Option<Compound>, intent: string, read: string -> Reading)
    returns (parts: seq<string>, clauses: seq<Clause>, at: seq<nat>)
    requires PlansRequest(plan, intent, read)
    ensures IsSplit(intent, Stands(intent, CONNECTIVES), 0, parts) && ClausesStand(parts, clauses, at)
    ensures PlansClauses(plan, clauses, read) && ShapedBy(plan, parts, clauses, at, read)
  {
    parts := SplitRequest(intent);
    RequestsSplitLosslessly(intent);
    clauses := ClausesPlanned(plan, intent, read);
    at := PositionsOf(parts, clauses);
    KeptClausesStand(parts, clauses, at);
    ShapeOfClauses(plan, parts, clauses, at, read);
  }

  // ---- What a step is made of ----

  /** A keyword that clause `i` of the block matched for the specialist it names. */
  ghost predicate MatchedAt(clauses: seq<Clause>, read: string -> Reading, i: nat, keyword: string) {
    i < |clauses| && read(clauses[i].text).specialist.Some? && keyword in read(clauses[i].text).matched
  }

  lemma {:induction false} MatchedInIff(clauses: seq<Clause>, read: string -> Reading, keyword: string)
    ensures keyword in MatchedIn(clauses, read) <==> exists i: nat :: MatchedAt(clauses, read, i, keyword)
    decreases |clauses|
  {
    if clauses != [] {
      var init := clauses[..|clauses| - 1];
      MatchedInIff(init, read, keyword);
      if i: nat :| MatchedAt(init, read, i, keyword) {
        assert MatchedAt(clauses, read, i, keyword);
      }
      if i: nat :| MatchedAt(clauses, read, i, keyword) {
        assert i < |init| ==> MatchedAt(init, read, i, keyword);
        assert i == |init| ==> keyword in MatchedIn(clauses, read);
      }
      assert keyword in MatchedIn(clauses, read) && keyword !in MatchedIn(init, read) ==>
        MatchedAt(clauses, read, |init|, keyword);
    }
  }

  /** A step made of the clauses `from`, ..., `to - 1`: the agent that the first of them names, their texts in
      order with ". " between them, and the keywords that any of them matched. */
  ghost predicate MadeOf(step: Step, clauses: seq<Clause>, read: string -> Reading, from: nat, to: nat) {
    && from < to <= |clauses|
    && read(clauses[from].text).specialist == Some(step.agent)
    && step.intent == Join(". ", seq(to - from, i requires 0 <= i < to - from => clauses[from + i].text))
    && forall k :: k in step.matched <==> exists i: nat :: from <= i < to && MatchedAt(clauses, read, i, k)
  }

  lemma {:induction false} BlockMakesStep(clauses: seq<Clause>, read: string -> Reading, from: nat, to: nat)
    requires from < to <= |clauses| && read(clauses[from].text).specialist.Some?
    ensures MadeOf(StepOf(clauses, read, from, to), clauses, read, from, to)
  {
    var block, step := clauses[from..to], StepOf(clauses, read, from, to);
    assert Texts(block) == seq(to - from, i requires 0 <= i < to - from => clauses[from + i].text);
    forall k ensures k in step.matched <==> exists i: nat :: from <= i < to && MatchedAt(clauses, read, i, k) {
      MatchedInIff(block, read, k);
      if i: nat :| MatchedAt(block, read, i, k) {
        assert MatchedAt(clauses, read, from + i, k);
      }
      if i: nat :| from <= i < to && MatchedAt(clauses, read, i, k) {
        var m: nat := i - from;
        assert MatchedAt(block, read, m, k);
      }
    }
  }

  /** Step j of a plan is made of exactly the clauses of block j. */
  lemma {:induction false} StepsAreMadeOfBlocks(plan: Compound, clauses: seq<Clause>, read: string -> Reading, j: nat)
    requires IsPlan(plan, clauses, read) && j < |plan.steps|
    ensures var starts := Starts(Names(clauses, read), |clauses|);
            j < |starts| && MadeOf(plan.steps[j], clauses, read, starts[j], BlockEnd(starts, j, |clauses|))
  {
    var names := Names(clauses, read);
    var starts := Starts(names, |clauses|);
    EndsAfterStart(names, starts, |clauses|, j);
    BlockMakesStep(clauses, read, starts[j], BlockEnd(starts, j, |clauses|));
    assert plan.steps[j] == StepTable(clauses, read)(starts[j], BlockEnd(starts, j, |clauses|));
  }

  /** The keywords of a plan are those of its steps. */
  lemma {:induction false} PlanMatchesItsSteps(
    plan: Compound, clauses: seq<Clause>, read: string -> Reading, keyword: string)
    requires IsPlan(plan, clauses, read)
    ensures keyword in plan.matched <==> exists j :: 0 <= j < |plan.steps| && keyword in plan.steps[j].matched
  {
  }

  // ---- Two tasks and one connective ----

  /** No listed connective longer than `n` can stand where `n` characters of connective do. */
  ghost predicate LongestHere(text: string, at: nat, n: nat) {
    forall j :: 0 <= j < |CONNECTIVES| && MatchesAt(text, at, CONNECTIVES[j]) ==> |CONNECTIVES[j]| <= n
  }

  lemma {:induction false} ConnectiveStands(text: string, at: nat, connective: string)
    requires at + |connective| <= |text| && text[at..at + |connective|] == connective
    requires connective in CONNECTIVES && LowerAll(connective) == connective && LongestHere(text, at, |connective|)
    ensures LongestAt(Stands(text, CONNECTIVES), at, |connective|)
  {
    var j :| 0 <= j < |CONNECTIVES| && CONNECTIVES[j] == connective;
    forall k | 0 <= k < |connective| ensures Lower(text[at + k]) == connective[k] {
      assert text[at..at + |connective|][k] == connective[k] == LowerAll(connective)[k];
    }
    assert MatchesAt(text, at, CONNECTIVES[j]);
  }

  lemma {:induction false} SplitBetween(text: string, at: nat, end: nat)
    requires at < end <= |text| && Quiet(text[..at]) && Quiet(text[end..])
    requires LongestAt(Stands(text, CONNECTIVES), at, end - at)
    ensures SplitRequest(text) == [text[0..at], text[at..end]] + [text[end..]]
  {
    var stands := Stands(text, CONNECTIVES);
    QuietHoldsNone(text, 0, text[..at]);
    QuietHoldsNone(text, end, text[end..]);
    LastPiece(text, stands, end);
    SplitCons(text, stands, 0, at, end, [text[end..]]);
    RequestsSplitLosslessly(text);
  }

  lemma {:induction false} TwoPieces(text: string, a: string, connective: string, b: string)
    requires text == a + connective + b && Quiet(a) && Quiet(b)
    requires connective != "" && connective in CONNECTIVES && LowerAll(connective) == connective
    requires LongestHere(text, |a|, |connective|)
    ensures SplitRequest(text) == [a, connective, b]
  {
    var at, end := |a|, |a| + |connective|;
    assert text[..at] == text[0..at] == a && text[at..end] == connective && text[end..] == b;
    ConnectiveStands(text, at, connective);
    SplitBetween(text, at, end);
  }

  lemma {:induction false} TwoAreKept(table: nat -> Clause)
    requires KeptAt(table, 0) && KeptAt(table, 2)
    ensures KeepsUpTo(table, [table(0), table(2)], [0, 2], 3)
  {
    forall i: nat | i < 3 && KeptAt(table, i) ensures i in [0, 2] {
      assert i % 2 == 0;
    }
  }

  function ClausesOfTwo(a: string, connective: string, b: string): seq<Clause> {
    [ClauseAt([a, connective, b], 0), ClauseAt([a, connective, b], 2)]
  }

  lemma {:induction false} TextsOfTwo(a: string, connective: string, b: string)
    requires Task(a) && Task(b)
    ensures ClausesOfTwo(a, connective, b)[0].text == a && ClausesOfTwo(a, connective, b)[1].text == b
  {
    TaskStrips(a, a);
    TaskStrips(b, b);
  }

  lemma {:induction false} TwoClauses(a: string, connective: string, b: string)
    requires Task(a) && Task(b)
    ensures AreClauses([a, connective, b], ClausesOfTwo(a, connective, b))
  {
    TextsOfTwo(a, connective, b);
    TwoAreKept(ClauseTable([a, connective, b]));
    assert KeepsUpTo(ClauseTable([a, connective, b]), ClausesOfTwo(a, connective, b), [0, 2], |[a, connective, b]|);
  }

  /** Two clauses that name two agents are planned as two steps, in parallel unless the second depends. */
  lemma {:induction false} TwoSteps(plan: Option<Compound>, clauses: seq<Clause>, read: string -> Reading)
    requires |clauses| == 2 && PlansClauses(plan, clauses, read)
    requires read(clauses[0].text).specialist.Some? && read(clauses[1].text).specialist.Some?
    requires read(clauses[0].text).specialist != read(clauses[1].text).specialist
    ensures plan.Some? && |plan.value.steps| == 2
    ensures Some(plan.value.steps[0].agent) == read(clauses[0].text).specialist
    ensures Some(plan.value.steps[1].agent) == read(clauses[1].text).specialist
    ensures plan.value.steps[0].intent == clauses[0].text && plan.value.steps[1].intent == clauses[1].text
    ensures plan.value.shape == if DependsOnEarlier(clauses[1], read) then Pipeline else Parallel
  {
    var names := Names(clauses, read);
    assert Starts(names, 1) == [0];
    assert Starts(names, 2) == [0, 1];
    SpecialistCount(names, 2);
    BlockOpens(clauses, read, 0);
    BlockOpens(clauses, read, 1);
  }

  /** A task for the career agent and one for the learning agent, around a connective. */
  ghost predicate JobsThenLearning(a: string, b: string) {
    && Task(a) && Task(b) && Quiet(a) && Quiet(b)
    && Scoring.KeywordMatches("jobs", a) && !Scoring.KeywordMatches("learn", a)
    && !Scoring.KeywordMatches("jobs", b) && Scoring.KeywordMatches("learn", b)
  }

  lemma {:induction false} TwoNamed(a: string, connective: string, b: string, refersBack: string -> bool)
    requires JobsThenLearning(a, b)
    ensures var clauses, read := ClausesOfTwo(a, connective, b), ReadingOf(CATALOGUE, REGISTRY, refersBack);
            && read(clauses[0].text).specialist == Some("career")
            && read(clauses[1].text).specialist == Some("learning")
            && read(clauses[1].text).refersBack == refersBack(b)
  {
    TextsOfTwo(a, connective, b);
    NamedBy(a, refersBack);
    NamedBy(b, refersBack);
  }

  lemma {:induction false} SecondDepends(a: string, connective: string, b: string, read: string -> Reading)
    ensures DependsOnEarlier(ClausesOfTwo(a, connective, b)[1], read)
       <==> SaysThen(connective) || read(ClausesOfTwo(a, connective, b)[1].text).refersBack
  {
    DependsIff([a, connective, b], 2, read);
  }

  /** A connective of the list between two quiet tasks, where no longer one stands. */
  ghost predicate Between(a: string, connective: string, b: string) {
    connective != "" && connective in CONNECTIVES && LowerAll(connective) == connective
    && LongestHere(a + connective + b, |a|, |connective|)
  }

  lemma {:induction false} TwoAreTheClauses(a: string, connective: string, b: string)
    requires JobsThenLearning(a, b) && Between(a, connective, b)
    ensures AreClauses(SplitRequest(a + connective + b), ClausesOfTwo(a, connective, b))
  {
    TwoPieces(a + connective + b, a, connective, b);
    TwoClauses(a, connective, b);
  }

  lemma {:induction false} TwoArePlanned(
    plan: Option<Compound>, a: string, connective: string, b: string, read: string -> Reading)
    requires JobsThenLearning(a, b) && Between(a, connective, b) && PlansRequest(plan, a + connective + b, read)
    ensures PlansClauses(plan, ClausesOfTwo(a, connective, b), read)
  {
    TwoAreTheClauses(a, connective, b);
    PlansItsClauses(plan, a + connective + b, read, ClausesOfTwo(a, connective, b));
  }

  lemma {:induction false} CareerThenLearning(
    plan: Option<Compound>, clauses: seq<Clause>, read: string -> Reading, ordered: bool)
    requires |clauses| == 2 && PlansClauses(plan, clauses, read)
    requires read(clauses[0].text).specialist == Some("career") && read(clauses[1].text).specialist == Some("learning")
    requires DependsOnEarlier(clauses[1], read) <==> ordered
    ensures plan.Some? && |plan.value.steps| == 2
    ensures plan.value.steps[0].agent == "career" && plan.value.steps[1].agent == "learning"
    ensures plan.value.steps[0].intent == clauses[0].text && plan.value.steps[1].intent == clauses[1].text
    ensures plan.value.shape == if ordered then Pipeline else Parallel
  {
    assert "career" != "learning";
    TwoSteps(plan, clauses, read);
  }

  /** Such a request is planned in two steps, and whether the second waits for the first depends on the
      connective and on the wording of the second task. */
  lemma {:induction false} TwoTasksPlanned(
    plan: Option<Compound>, a: string, connective: string, b: string, refersBack: string -> bool)
    requires JobsThenLearning(a, b) && Between(a, connective, b)
    requires PlansRequest(plan, a + connective + b, ReadingOf(CATALOGUE, REGISTRY, refersBack))
    ensures plan.Some? && |plan.value.steps| == 2
    ensures plan.value.steps[0].agent == "career" && plan.value.steps[1].agent == "learning"
    ensures plan.value.steps[0].intent == a && plan.value.steps[1].intent == b
    ensures plan.value.shape == if SaysThen(connective) || refersBack(b) then Pipeline else Parallel
  {
    var clauses, read := ClausesOfTwo(a, connective, b), ReadingOf(CATALOGUE, REGISTRY, refersBack);
    TwoArePlanned(plan, a, connective, b, read);
    TextsOfTwo(a, connective, b);
    TwoNamed(a, connective, b, refersBack);
    SecondDepends(a, connective, b, read);
    CareerThenLearning(plan, clauses, read, SaysThen(connective) || refersBack(b));
  }

  // ---- Back-references begin words ----

  const INITIALS: string := "bufoawte"

  lemma {:induction false} MarkersStart(m: Marker, head: string)
    requires m in BACK_REFERENCES && head in m.heads
    ensures head != "" && head[0] in INITIALS
  {
  }

  /** A text no word of which starts with one of those letters does not refer back. */
  lemma {:induction false} NoMarkerStarts(text: string)
    requires forall p: nat :: p < |text| && Scoring.WordBoundary(text, p) ==> Lower(text[p]) !in INITIALS
    ensures !RefersBack(text)
  {
    forall m, head, tail, p: nat
      | m in BACK_REFERENCES && head in m.heads && tail in m.tails && p <= |text|
      ensures !PhraseAt(text, head + tail, m.closed, p)
    {
      MarkersStart(m, head);
      assert (head + tail)[0] == head[0];
      MatchStarts(text, p, head + tail);
    }
  }

  lemma {:induction false} InsideWord(text: string, p: nat)
    requires 0 < p < |text| && 'a' <= text[p - 1] <= 'z' && 'a' <= text[p] <= 'z'
    ensures !Scoring.WordBoundary(text, p)
  {
    LetterClasses(text[p - 1]);
    LetterClasses(text[p]);
  }

  /** Letters that no marker starts with, at every place where a word may start. */
  ghost predicate StartsNoMarker(text: string) {
    SmallText(text) && forall p: nat :: p < |text| ==> PlainAt(text, p)
  }

  predicate PlainAt(text: string, p: nat)
    requires p < |text|
  {
    p == 0 || text[p] == ' ' || text[p - 1] == ' ' ==> text[p] !in INITIALS
  }

  lemma {:induction false} LettersInside(text: string, p: nat)
    requires SmallText(text) && 0 < p < |text| && text[p] != ' ' && text[p - 1] != ' '
    ensures !Scoring.WordBoundary(text, p)
  {
    InsideWord(text, p);
  }

  lemma {:induction false} PlainStart(text: string, p: nat)
    requires StartsNoMarker(text) && p < |text|
    ensures Scoring.WordBoundary(text, p) ==> Lower(text[p]) !in INITIALS
  {
    SmallStaysSmall(text);
    assert Lower(text[p]) == LowerAll(text)[p] == text[p];
    if p > 0 && text[p] != ' ' && text[p - 1] != ' ' {
      LettersInside(text, p);
    } else {
      assert PlainAt(text, p);
    }
  }

  lemma {:induction false} PlainWording(text: string)
    requires StartsNoMarker(text)
    ensures !RefersBack(text)
  {
    forall p: nat | p < |text| ensures Scoring.WordBoundary(text, p) ==> Lower(text[p]) !in INITIALS {
      PlainStart(text, p);
    }
    NoMarkerStarts(text);
  }

  // ---- Two such requests ----

  const DATA_JOBS: string := "find data " + "jobs"
  const AND_THEN: string := " and then "
  const AND: string := " and "

  lemma {:induction false} DataJobsIsATask()
    ensures Task(DATA_JOBS) && Quiet(DATA_JOBS) && Quiet(LEARN)
  {
  }

  lemma {:induction false} JobsInDataJobs()
    ensures Scoring.KeywordMatches("jobs", DATA_JOBS)
  {
    WordPresent("jobs", "find data ", "");
    assert "find data " + "jobs" + "" == DATA_JOBS;
  }

  lemma {:induction false} LearnNotInDataJobs()
    ensures !Scoring.KeywordMatches("learn", DATA_JOBS)
  {
    WordAbsent("learn", DATA_JOBS);
  }

  lemma {:induction false} DataJobsThenLearning(a: string, b: string)
    requires a == DATA_JOBS && b == LEARN
    ensures JobsThenLearning(a, b)
  {
    DataJobsIsATask();
    TheyAreTasks();
    JobsInDataJobs();
    LearnInLearn();
    LearnNotInDataJobs();
    WordsAbsent();
  }

  lemma {:induction false} LearnIsPlain(b: string)
    requires b == LEARN
    ensures StartsNoMarker(b)
  {
  }

  /** A connective that differs from the text somewhere does not stand there. */
  lemma {:induction false} StandsNotAt(text: string, at: nat, c: string, k: nat)
    requires k < |c| && at + k < |text| && Lower(text[at + k]) != c[k]
    ensures !MatchesAt(text, at, c)
  {
  }

  lemma {:induction false} AndThenIsLongest(text: string, at: nat)
    requires at + 10 <= |text| && text[at] == ' ' && text[at + 1] == 'a' && text[at + 2] == 'n' && text[at + 5] == 't'
    ensures LongestHere(text, at, 10)
  {
    StandsNotAt(text, at, CONNECTIVES[1], 1);
    StandsNotAt(text, at, CONNECTIVES[2], 5);
    StandsNotAt(text, at, CONNECTIVES[3], 2);
    StandsNotAt(text, at, CONNECTIVES[4], 0);
  }

  lemma {:induction false} BareAndIsLongest(text: string, at: nat)
    requires at + 10 <= |text| && text[at] == ' ' && text[at + 1] == 'a' && text[at + 2] == 'n' && text[at + 5] == 'l'
    ensures LongestHere(text, at, 5)
  {
    StandsNotAt(text, at, CONNECTIVES[0], 5);
    StandsNotAt(text, at, CONNECTIVES[1], 1);
    StandsNotAt(text, at, CONNECTIVES[2], 5);
    StandsNotAt(text, at, CONNECTIVES[3], 2);
    StandsNotAt(text, at, CONNECTIVES[4], 0);
    StandsNotAt(text, at, CONNECTIVES[5], 0);
    StandsNotAt(text, at, CONNECTIVES[6], 1);
    StandsNotAt(text, at, CONNECTIVES[7], 0);
    StandsNotAt(text, at, CONNECTIVES[8], 5);
  }

  lemma {:induction false} AndThenSaysThen(connective: string)
    requires connective == AND_THEN
    ensures SaysThen(connective)
  {
    var t := "and then";
    assert connective[1..9] == t;
    assert TrimmedAt(connective, AroundConnective, t, 1);
    assert ReadsAs(t, t);
  }

  lemma {:induction false} AndSaysNoOrder(connective: string)
    requires connective == AND
    ensures !SaysThen(connective)
  {
    var t := "and";
    assert connective[1..4] == t;
    assert TrimmedAt(connective, AroundConnective, t, 1);
    forall u, w | IsTrim(connective, AroundConnective, u) && ReadsAs(u, w) ensures !MeansThen(w) {
      TrimIsUnique(connective, AroundConnective, t, u);
      assert |w| == 3;
    }
  }

  lemma {:induction false} AndThenBetween(a: string, connective: string, b: string)
    requires connective == AND_THEN && b == LEARN
    ensures Between(a, connective, b)
  {
    assert CONNECTIVES[0] == AND_THEN;
    SmallStaysSmall(connective);
    AndThenIsLongest(a + connective + b, |a|);
  }

  lemma {:induction false} AndBeforeL(a: string, connective: string, b: string)
    requires connective == AND && |b| >= MIN_CLAUSE_CHARS && b[0] == 'l'
    ensures Between(a, connective, b)
  {
    assert CONNECTIVES[9] == AND;
    SmallStaysSmall(connective);
    BareAndIsLongest(a + connective + b, |a|);
  }

  lemma {:induction false} TheRequestsRead()
    ensures DATA_JOBS + AND_THEN + LEARN == "find data jobs and then learn python"
    ensures DATA_JOBS + AND + LEARN == "find data jobs and learn python"
  {
  }

  /** When the second task refers to nothing, the connective alone decides. */
  lemma {:induction false} ConnectiveDecides(
    plan: Option<Compound>, request: string, a: string, connective: string, b: string)
    requires JobsThenLearning(a, b) && Between(a, connective, b) && StartsNoMarker(b)
    requires request == a + connective + b && PlansRequest(plan, request, ReadingOf(CATALOGUE, REGISTRY, RefersBack))
    ensures plan.Some? && |plan.value.steps| == 2 && !RefersBack(b)
    ensures plan.value.steps[0].agent == "career" && plan.value.steps[1].agent == "learning"
    ensures plan.value.shape == if SaysThen(connective) then Pipeline else Parallel
  {
    TwoTasksPlanned(plan, a, connective, b, RefersBack);
    PlainWording(b);
  }

  lemma {:induction false} AndThenRequest(a: string, connective: string, b: string)
    requires a == DATA_JOBS && connective == AND_THEN && b == LEARN
    ensures JobsThenLearning(a, b) && Between(a, connective, b) && StartsNoMarker(b) && SaysThen(connective)
  {
    DataJobsThenLearning(a, b);
    AndThenBetween(a, connective, b);
    AndThenSaysThen(connective);
    LearnIsPlain(b);
  }

  lemma {:induction false} AndRequest(a: string, connective: string, b: string)
    requires a == DATA_JOBS && connective == AND && b == LEARN
    ensures JobsThenLearning(a, b) && Between(a, connective, b) && StartsNoMarker(b) && !SaysThen(connective)
  {
    DataJobsThenLearning(a, b);
    AndBeforeL(a, connective, b);
    AndSaysNoOrder(connective);
    LearnIsPlain(b);
  }

  /** This request is a pipeline, for its "and then" alone: its second task refers to nothing before it. */
  lemma {:induction false} AndThenIsAPipeline(plan: Option<Compound>)
    requires PlansRequest(plan, "find data jobs and then learn python", ReadingOf(CATALOGUE, REGISTRY, RefersBack))
    ensures plan.Some? && |plan.value.steps| == 2 && plan.value.shape == Pipeline && !RefersBack(LEARN)
    ensures plan.value.steps[0].agent == "career" && plan.value.steps[1].agent == "learning"
  {
    TheRequestsRead();
    AndThenRequest(DATA_JOBS, AND_THEN, LEARN);
    ConnectiveDecides(plan, "find data jobs and then learn python", DATA_JOBS, AND_THEN, LEARN);
  }

  /** The same two tasks around a bare "and" run in parallel. */
  lemma {:induction false} AndIsParallel(plan: Option<Compound>)
    requires PlansRequest(plan, "find data jobs and learn python", ReadingOf(CATALOGUE, REGISTRY, RefersBack))
    ensures plan.Some? && |plan.value.steps| == 2 && plan.value.shape == Parallel
    ensures plan.value.steps[0].agent == "career" && plan.value.steps[1].agent == "learning"
  {
    TheRequestsRead();
    AndRequest(DATA_JOBS, AND, LEARN);
    ConnectiveDecides(plan, "find data jobs and learn python", DATA_JOBS, AND, LEARN);
  }

  // ---- A back-reference without a word of order ----

  const BASED: string := "learn" + " based on demand"

  lemma {:induction false} BasedIsATask()
    ensures Task(BASED) && Quiet(BASED)
  {
  }

  lemma {:induction false} BasedReads()
    ensures DATA_JOBS + AND + BASED == "find data jobs and learn based on demand"
  {
  }

  lemma {:induction false} LearnInBased()
    ensures Scoring.KeywordMatches("learn", BASED)
  {
    WordPresent("learn", "", " based on demand");
    assert "" + "learn" + " based on demand" == BASED;
  }

  lemma {:induction false} JobsNotInBased()
    ensures !Scoring.KeywordMatches("jobs", BASED)
  {
    WordAbsent("jobs", BASED);
  }

  lemma {:induction false} PhraseStands(text: string, phrase: string, p: nat)
    requires SmallText(text) && phrase != "" && 0 < p && p + |phrase| < |text| && text[p..p + |phrase|] == phrase
    requires text[p - 1] == ' ' && text[p] != ' ' && text[p + |phrase| - 1] != ' ' && text[p + |phrase|] == ' '
    ensures PhraseAt(text, phrase, true, p)
  {
    SmallStaysSmall(text);
    LetterClasses(text[p]);
    LetterClasses(text[p + |phrase| - 1]);
    WordBounds(text, p, p + |phrase|);
    forall k | 0 <= k < |phrase| ensures Lower(text[p + k]) == phrase[k] {
      assert text[p..p + |phrase|][k] == LowerAll(text)[p + k];
    }
  }

  lemma {:induction false} BasedRefersBack(text: string, head: string)
    requires text == BASED && head == "based on"
    ensures RefersBack(text)
  {
    PhraseStands(text, head, 6);
    assert head + "" == head;
    assert BACK_REFERENCES[0] == Marker([head], [""], true);
    assert head in BACK_REFERENCES[0].heads && "" in BACK_REFERENCES[0].tails;
    assert HasMarker(text, BACK_REFERENCES[0]);
  }

  lemma {:induction false} BasedRequest(a: string, connective: string, b: string)
    requires a == DATA_JOBS && connective == AND && b == BASED
    ensures JobsThenLearning(a, b) && Between(a, connective, b) && RefersBack(b)
  {
    DataJobsIsATask();
    JobsInDataJobs();
    LearnNotInDataJobs();
    BasedIsATask();
    LearnInBased();
    JobsNotInBased();
    BasedRefersBack(b, "based on");
    AndBeforeL(a, connective, b);
  }

  lemma {:induction false} BackReferenceDecides(
    plan: Option<Compound>, request: string, a: string, connective: string, b: string)
    requires JobsThenLearning(a, b) && Between(a, connective, b) && RefersBack(b)
    requires request == a + connective + b && PlansRequest(plan, request, ReadingOf(CATALOGUE, REGISTRY, RefersBack))
    ensures plan.Some? && |plan.value.steps| == 2 && plan.value.shape == Pipeline
  {
    TwoTasksPlanned(plan, a, connective, b, RefersBack);
  }

  /** And this one is a pipeline for its wording alone: around the same bare "and", the second task rests on
      what the first one finds. */
  lemma {:induction false} BasedOnIsAPipeline(plan: Option<Compound>)
    requires PlansRequest(plan, "find data jobs and learn based on demand", ReadingOf(CATALOGUE, REGISTRY, RefersBack))
    ensures plan.Some? && |plan.value.steps| == 2 && plan.value.shape == Pipeline && !SaysThen(AND)
  {
    BasedReads();
    BasedRequest(DATA_JOBS, AND, BASED);
    BackReferenceDecides(plan, "find data jobs and learn based on demand", DATA_JOBS, AND, BASED);
    AndSaysNoOrder(AND);
  }
}
