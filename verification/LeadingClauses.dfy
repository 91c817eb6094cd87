/** A request whose first clause names nobody: a plan is made, and that clause is in no step of it. */
module LeadingClauses {
  import opened Wrappers
  import opened Text
  import opened Splitting
  import opened Planning
  import Scoring

  // ---- Splitting a request that has its connectives only where semicolons stand ----

  /** No connective can start at any position of `s`, whatever stands after `s`. */
  ghost predicate Quiet(s: string) {
    forall p: nat :: p < |s| ==> QuietHere(s, p)
  }

  predicate QuietHere(s: string, p: nat)
    requires p < |s|
  {
    s[p] != ';' && s[p] != ',' && (s[p] == ' ' ==> p + 1 < |s| && QuietAfterSpace(s[p + 1]))
  }

  predicate QuietAfterSpace(c: char) {
    Lower(c) != 'a' && Lower(c) != 't'
  }

  /** How a connective starts: with a mark, or with a space and then 'a' or 't'. */
  predicate StartsAloud(c: string) {
    && c != ""
    && (c[0] == ';' ==> c == ";")
    && (c[0] == ';' || c[0] == ',' || (c[0] == ' ' && |c| > 1 && (c[1] == 'a' || c[1] == 't')))
  }

  lemma {:induction false} ConnectiveHeads()
    ensures forall j :: 0 <= j < |CONNECTIVES| ==> StartsAloud(CONNECTIVES[j])
  {
  }

  lemma {:induction false} MatchStarts(text: string, p: nat, c: string)
    requires c != ""
    ensures MatchesAt(text, p, c) ==> Lower(text[p]) == c[0]
    ensures MatchesAt(text, p, c) && |c| > 1 ==> Lower(text[p + 1]) == c[1]
  {
    if MatchesAt(text, p, c) {
      assert Lower(text[p + 0]) == c[0];
    }
  }

  lemma {:induction false} MarksStayMarks(c: char)
    ensures Lower(c) == ';' || Lower(c) == ',' || Lower(c) == ' ' ==> Lower(c) == c
  {
    if 'A' <= c <= 'Z' {
      assert Lower(c) as int == c as int + 32;
    }
  }

  lemma {:induction false} QuietAt(text: string, p: nat, s: string, k: nat, c: string)
    requires Quiet(s) && StartsAloud(c) && k < |s| && p + (|s| - k) <= |text|
    requires text[p] == s[k] && (k + 1 < |s| ==> text[p + 1] == s[k + 1])
    ensures !MatchesAt(text, p, c)
  {
    MatchStarts(text, p, c);
    MarksStayMarks(text[p]);
    assert QuietHere(s, k);
  }

  lemma {:induction false} QuietHoldsNone(text: string, from: nat, s: string)
    requires from + |s| <= |text| && s == text[from..from + |s|] && Quiet(s)
    ensures NoneStarts(Stands(text, CONNECTIVES), from, from + |s|)
  {
    ConnectiveHeads();
    forall p: nat, j | from <= p < from + |s| && 0 <= j < |CONNECTIVES| ensures !MatchesAt(text, p, CONNECTIVES[j]) {
      QuietAt(text, p, s, p - from, CONNECTIVES[j]);
    }
  }

  lemma {:induction false} SemicolonStands(text: string, at: nat)
    requires at < |text| && text[at] == ';'
    ensures LongestAt(Stands(text, CONNECTIVES), at, 1)
  {
    ConnectiveHeads();
    assert CONNECTIVES[10] == ";" && MatchesAt(text, at, CONNECTIVES[10]);
    forall m: nat | Stands(text, CONNECTIVES)(at, m) ensures m <= 1 {
      var j :| 0 <= j < |CONNECTIVES| && |CONNECTIVES[j]| == m && MatchesAt(text, at, CONNECTIVES[j]);
      MatchStarts(text, at, CONNECTIVES[j]);
    }
  }

  lemma {:induction false} LastPiece(text: string, stands: (nat, nat) -> bool, start: nat)
    requires start <= |text| && NoneStarts(stands, start, |text|)
    ensures IsSplit(text, stands, start, [text[start..]])
  {
    assert text[start..start + |text[start..]|] == text[start..];
  }

  /** One more piece and a semicolon before a split. */
  lemma {:induction false} PieceBefore(
    text: string, stands: (nat, nat) -> bool, start: nat, i: nat, piece: string, rest: seq<string>)
    requires start <= i < |text| && piece == text[start..i] && text[i] == ';'
    requires NoneStarts(stands, start, i) && LongestAt(stands, i, 1) && IsSplit(text, stands, i + 1, rest)
    ensures IsSplit(text, stands, start, [piece, ";"] + rest)
  {
    SplitCons(text, stands, start, i, i + 1, rest);
    assert text[i..i + 1] == ";";
  }

  lemma {:induction false} SlicesOfThree(a: string, b: string, c: string)
    ensures var text, i := a + ";" + b + ";" + c, |a|;
            var j := i + 1 + |b|;
            && |text| == j + 1 + |c| && text[i] == text[j] == ';'
            && text[0..i] == a && text[i + 1..j] == b && text[j + 1..] == text[j + 1..|text|] == c
  {
  }

  lemma {:induction false} PiecesHoldNone(text: string, i: nat, j: nat, a: string, b: string, c: string)
    requires |a| == i && j == i + 1 + |b| && |text| == j + 1 + |c|
    requires text[0..i] == a && text[i + 1..j] == b && text[j + 1..|text|] == c
    requires Quiet(a) && Quiet(b) && Quiet(c)
    ensures var stands := Stands(text, CONNECTIVES);
            NoneStarts(stands, 0, i) && NoneStarts(stands, i + 1, j) && NoneStarts(stands, j + 1, |text|)
  {
    QuietHoldsNone(text, 0, a);
    QuietHoldsNone(text, i + 1, b);
    QuietHoldsNone(text, j + 1, c);
  }

  lemma {:induction false} ThreePiecesSplit(text: string, i: nat, j: nat, a: string, b: string, c: string)
    requires |a| == i && j == i + 1 + |b| && |text| == j + 1 + |c| && text[i] == text[j] == ';'
    requires text[0..i] == a && text[i + 1..j] == b && text[j + 1..] == text[j + 1..|text|] == c
    requires Quiet(a) && Quiet(b) && Quiet(c)
    ensures IsSplit(text, Stands(text, CONNECTIVES), 0, [a, ";"] + ([b, ";"] + [c]))
  {
    PiecesHoldNone(text, i, j, a, b, c);
    SemicolonStands(text, i);
    SemicolonStands(text, j);
    AssembleThree(text, Stands(text, CONNECTIVES), i, j, a, b, c);
  }

  lemma {:induction false} AssembleThree(
    text: string, stands: (nat, nat) -> bool, i: nat, j: nat, a: string, b: string, c: string)
    requires i < j < |text| && text[i] == text[j] == ';'
    requires text[0..i] == a && text[i + 1..j] == b && text[j + 1..] == c
    requires NoneStarts(stands, 0, i) && NoneStarts(stands, i + 1, j) && NoneStarts(stands, j + 1, |text|)
    requires LongestAt(stands, i, 1) && LongestAt(stands, j, 1)
    ensures IsSplit(text, stands, 0, [a, ";"] + ([b, ";"] + [c]))
  {
    LastPiece(text, stands, j + 1);
    PieceBefore(text, stands, i + 1, j, b, [c]);
    PieceBefore(text, stands, 0, i, a, [b, ";"] + [c]);
  }

  /** Three quiet pieces between two semicolons are split exactly there. */
  lemma {:induction false} ThreePieces(a: string, b: string, c: string)
    requires Quiet(a) && Quiet(b) && Quiet(c)
    ensures SplitRequest(a + ";" + b + ";" + c) == [a, ";"] + ([b, ";"] + [c])
  {
    var text := a + ";" + b + ";" + c;
    SlicesOfThree(a, b, c);
    ThreePiecesSplit(text, |a|, |a| + 1 + |b|, a, b, c);
    RequestsSplitLosslessly(text);
  }

  // ---- Requests of three tasks ----

  /** Small letters, long enough to count as a clause, and nothing to trim. */
  ghost predicate Task(s: string) {
    SmallText(s) && |s| >= MIN_CLAUSE_CHARS && s[0] != ' ' && s[|s| - 1] != ' '
  }

  function ThreeTasks(a: string, b: string, c: string): string {
    a + ";" + (" " + b) + ";" + (" " + c)
  }

  function PartsOf(a: string, b: string, c: string): seq<string> {
    [a, ";"] + ([" " + b, ";"] + [" " + c])
  }

  function ClausesOf(a: string, b: string, c: string): seq<Clause> {
    [ClauseAt(PartsOf(a, b, c), 0), ClauseAt(PartsOf(a, b, c), 2), ClauseAt(PartsOf(a, b, c), 4)]
  }

  lemma {:induction false} TaskStrips(s: string, spaced: string)
    requires Task(s) && (spaced == s || spaced == " " + s)
    ensures StripBy(spaced, IsClauseEdge) == s
  {
    assert !IsClauseEdge(s[0]) && !IsClauseEdge(s[|s| - 1]) by {
      assert CLAUSE_EDGES[..] == [' ', ',', '.', ';'];
    }
    if spaced == s {
      StripBetween(spaced, IsClauseEdge, 0, |s|);
    } else {
      assert spaced[0] == ' ' && CLAUSE_EDGES[0] == ' ';
      StripBetween(spaced, IsClauseEdge, 1, |s| + 1);
    }
  }

  lemma {:induction false} ClauseTexts(a: string, b: string, c: string)
    requires Task(a) && Task(b) && Task(c)
    ensures var cs := ClausesOf(a, b, c); cs[0].text == a && cs[1].text == b && cs[2].text == c
  {
    TaskStrips(a, a);
    TaskStrips(b, " " + b);
    TaskStrips(c, " " + c);
  }

  lemma {:induction false} ThreeAreKept(table: nat -> Clause)
    requires KeptAt(table, 0) && KeptAt(table, 2) && KeptAt(table, 4)
    ensures KeepsUpTo(table, [table(0), table(2), table(4)], [0, 2, 4], 5)
  {
    forall i: nat | i < 5 && KeptAt(table, i) ensures i in [0, 2, 4] {
      assert i % 2 == 0;
    }
  }

  lemma {:induction false} RequestHasTheseClauses(a: string, b: string, c: string)
    requires Task(a) && Task(b) && Task(c) && Quiet(a) && Quiet(" " + b) && Quiet(" " + c)
    ensures AreClauses(SplitRequest(ThreeTasks(a, b, c)), ClausesOf(a, b, c))
  {
    ThreePieces(a, " " + b, " " + c);
    ClauseTexts(a, b, c);
    ThreeAreKept(ClauseTable(PartsOf(a, b, c)));
    assert KeepsUpTo(ClauseTable(PartsOf(a, b, c)), ClausesOf(a, b, c), [0, 2, 4], |PartsOf(a, b, c)|);
  }

  // ---- Whom the clauses name ----

  const CATALOGUE: seq<AgentKey> := ["career", "learning"]
  const REGISTRY: Scoring.Registry :=
    map["career" := Scoring.Manifest(["jobs"], 5), "learning" := Scoring.Manifest(["learn"], 4)]

  /** Small letters are word characters and not white space; a space is the reverse. */
  lemma {:induction false} LetterClasses(c: char)
    ensures 'a' <= c <= 'z' ==> Scoring.IsWord(c) && !IsSpace(c)
    ensures !Scoring.IsWord(' ')
  {
    InRangesIff(c, Scoring.WORD_RANGES);
    InRangesIff(c, WHITE_SPACE);
    InRangesIff(' ', Scoring.WORD_RANGES);
    assert Scoring.WORD_RANGES[3] == ('a', 'z');
  }

  ghost predicate SmallText(s: string) {
    forall k :: 0 <= k < |s| ==> 'a' <= s[k] <= 'z' || s[k] == ' '
  }

  lemma {:induction false} SmallStaysSmall(s: string)
    requires SmallText(s)
    ensures LowerAll(s) == s
  {
  }

  ghost predicate SmallWord(s: string) {
    s != "" && forall k :: 0 <= k < |s| ==> 'a' <= s[k] <= 'z'
  }

  lemma {:induction false} WordStripsToItself(w: string)
    requires SmallWord(w)
    ensures LowerAll(Strip(w)) == Strip(w) == w && Scoring.WeightOf(w) == 1
  {
    LetterClasses(w[0]);
    LetterClasses(w[|w| - 1]);
    StripBetween(w, IsSpace, 0, |w|);
    SmallStaysSmall(w);
  }

  lemma {:induction false} WordAbsent(w: string, lowered: string)
    requires SmallWord(w) && w[0] !in lowered
    ensures !Scoring.KeywordMatches(w, lowered)
  {
    WordStripsToItself(w);
    forall p: nat | p <= |lowered| ensures !Scoring.KeywordAt(w, lowered, p) {
      if p + |w| <= |lowered| {
        assert lowered[p..p + |w|][0] == lowered[p];
      }
    }
  }

  lemma {:induction false} WordBounds(text: string, p: nat, q: nat)
    requires p < q <= |text| && Scoring.IsWord(text[p]) && Scoring.IsWord(text[q - 1])
    requires (p > 0 ==> text[p - 1] == ' ') && (q < |text| ==> text[q] == ' ')
    ensures Scoring.WordBoundary(text, p) && Scoring.WordBoundary(text, q)
  {
    LetterClasses(' ');
  }

  /** A word that ends a text after a space matches, and so does one that begins a text before a space. */
  lemma {:induction false} WordPresent(w: string, before: string, after: string)
    requires SmallWord(w) && (before == "" || before[|before| - 1] == ' ') && (after == "" || after[0] == ' ')
    ensures Scoring.KeywordMatches(w, before + w + after)
  {
    var text, p, q := before + w + after, |before|, |before| + |w|;
    assert text[p..q] == w && text[p] == w[0] && text[q - 1] == w[|w| - 1];
    WordStandsAt(w, text, p, q);
  }

  lemma {:induction false} WordStandsAt(w: string, text: string, p: nat, q: nat)
    requires SmallWord(w) && p < q <= |text| && q - p == |w| && text[p..q] == w
    requires text[p] == w[0] && text[q - 1] == w[|w| - 1]
    requires (p > 0 ==> text[p - 1] == ' ') && (q < |text| ==> text[q] == ' ')
    ensures Scoring.KeywordMatches(w, text)
  {
    WordStripsToItself(w);
    LetterClasses(w[0]);
    LetterClasses(w[|w| - 1]);
    WordBounds(text, p, q);
    assert Scoring.KeywordAt(w, text, p);
  }

  /** An agent with one small-word keyword is ranked exactly when the word matches. */
  lemma {:induction false} OneKeyword(w: string, lowered: string)
    requires SmallWord(w)
    ensures Scoring.Score([w], Scoring.MatchTable(lowered), 1) ==
      if Scoring.KeywordMatches(w, lowered) then (1, [w]) else (0, [])
  {
    WordStripsToItself(w);
    assert [w][0] == w && Scoring.MatchTable(lowered)(w) == Scoring.KeywordMatches(w, lowered);
    assert Scoring.Score([w], Scoring.MatchTable(lowered), 0) == (0, []);
    assert [] + [w] == [w];
  }

  /** Whom a clause in small letters names, by which of the two words it holds. */
  lemma {:induction false} NamedBy(text: string, refersBack: string -> bool)
    requires SmallText(text)
    ensures var read := ReadingOf(CATALOGUE, REGISTRY, refersBack)(text);
            && (Scoring.KeywordMatches("jobs", text) && !Scoring.KeywordMatches("learn", text) ==>
                  read.specialist == Some("career"))
            && (!Scoring.KeywordMatches("jobs", text) && Scoring.KeywordMatches("learn", text) ==>
                  read.specialist == Some("learning"))
            && (!Scoring.KeywordMatches("jobs", text) && !Scoring.KeywordMatches("learn", text) ==>
                  read.specialist == None)
  {
    SmallStaysSmall(text);
    OneKeyword("jobs", text);
    OneKeyword("learn", text);
    var ranked := Scoring.Ranking(REGISTRY, text);
    assert Scoring.BestAt(CATALOGUE, ranked, 0) == None;
    assert Scoring.BestAt(CATALOGUE, ranked, 1) == if ranked("career").Some? then Some(0) else None;
    assert Scoring.BestAt(CATALOGUE, ranked, 2) ==
      if ranked("learning").Some? && ranked("career").None? then Some(1) else Scoring.BestAt(CATALOGUE, ranked, 2);
  }

  // ---- What becomes of the first clause ----

  /** Of three clauses of which only the first names nobody, the other two make the steps. */
  lemma {:induction false} TwoPlainSteps(plan: Option<Compound>, clauses: seq<Clause>, read: string -> Reading)
    requires |clauses| == 3 && read(clauses[0].text).specialist.None?
    requires read(clauses[1].text).specialist.Some? && read(clauses[2].text).specialist.Some?
    requires read(clauses[1].text).specialist != read(clauses[2].text).specialist
    requires PlansClauses(plan, clauses, read)
    ensures plan.Some? && |plan.value.steps| == 2
    ensures plan.value.steps[0].intent == clauses[1].text && plan.value.steps[1].intent == clauses[2].text
    ensures !TakesUp(plan.value, Names(clauses, read), 3, 0)
  {
    var names := Names(clauses, read);
    assert Starts(names, 1) == [];
    assert Starts(names, 2) == [1];
    assert Starts(names, 3) == [1, 2];
    SpecialistCount(names, 3);
    BlockOpens(clauses, read, 1);
    BlockOpens(clauses, read, 2);
  }

  lemma {:induction false} NotWorded(plan: Compound, lead: string)
    requires |plan.steps| == 2 && lead != ""
    requires lead[0] !in plan.steps[0].intent && lead[0] !in plan.steps[1].intent
    ensures !Worded(plan, lead)
  {
    LacksFirst(plan.steps[0].intent, lead);
    LacksFirst(plan.steps[1].intent, lead);
  }

  /** In any request of three clauses of which only the first names nobody, that clause is in no step. */
  lemma {:induction false} FirstOfThreeIsDropped(
    plan: Option<Compound>, intent: string, clauses: seq<Clause>, read: string -> Reading)
    requires AreClauses(SplitRequest(intent), clauses) && PlansRequest(plan, intent, read)
    requires |clauses| == 3 && read(clauses[0].text).specialist.None?
    requires read(clauses[1].text).specialist.Some? && read(clauses[2].text).specialist.Some?
    requires read(clauses[1].text).specialist != read(clauses[2].text).specialist
    ensures plan.Some? && |plan.value.steps| == 2
    ensures plan.value.steps[0].intent == clauses[1].text && plan.value.steps[1].intent == clauses[2].text
    ensures !TakesUp(plan.value, Names(clauses, read), 3, 0)
  {
    PlansItsClauses(plan, intent, read, clauses);
    TwoPlainSteps(plan, clauses, read);
  }

  /** Three tasks with only semicolons as connectives, of which the first names nobody, the second the
      career agent and the third the learning agent. */
  ghost predicate UnnamedFirst(a: string, b: string, c: string) {
    && Task(a) && Task(b) && Task(c) && Quiet(a) && Quiet(" " + b) && Quiet(" " + c)
    && !Scoring.KeywordMatches("jobs", a) && !Scoring.KeywordMatches("learn", a)
    && Scoring.KeywordMatches("jobs", b) && !Scoring.KeywordMatches("learn", b)
    && !Scoring.KeywordMatches("jobs", c) && Scoring.KeywordMatches("learn", c)
  }

  /** Whatever such a request says first is dropped, although a plan is made: the plan has the two other
      tasks as its steps, no step takes the first clause up, and its wording is in no step if its first
      character is in neither of the other tasks. */
  lemma {:induction false} LeadingClauseIsDropped(
    plan: Option<Compound>, a: string, b: string, c: string, refersBack: string -> bool)
    requires UnnamedFirst(a, b, c)
    requires PlansRequest(plan, ThreeTasks(a, b, c), ReadingOf(CATALOGUE, REGISTRY, refersBack))
    ensures AreClauses(SplitRequest(ThreeTasks(a, b, c)), ClausesOf(a, b, c)) && ClausesOf(a, b, c)[0].text == a
    ensures plan.Some? && |plan.value.steps| == 2
    ensures plan.value.steps[0].intent == b && plan.value.steps[1].intent == c
    ensures !TakesUp(plan.value, Names(ClausesOf(a, b, c), ReadingOf(CATALOGUE, REGISTRY, refersBack)), 3, 0)
    ensures a[0] !in b && a[0] !in c ==> !Worded(plan.value, a)
  {
    RequestHasTheseClauses(a, b, c);
    ClauseTexts(a, b, c);
    NamedBy(a, refersBack);
    NamedBy(b, refersBack);
    NamedBy(c, refersBack);
    FirstOfThreeIsDropped(plan, ThreeTasks(a, b, c), ClausesOf(a, b, c), ReadingOf(CATALOGUE, REGISTRY, refersBack));
    if a[0] !in b && a[0] !in c {
      NotWorded(plan.value, a);
    }
  }

  // ---- One such request ----

  const BRIEF: string := "keep it short"
  const FIND: string := "find " + "jobs"
  const LEARN: string := "learn" + " python"

  lemma {:induction false} TheyAreQuiet()
    ensures Quiet(BRIEF) && Quiet(" " + FIND) && Quiet(" " + LEARN)
  {
  }

  lemma {:induction false} JobsInFind()
    ensures Scoring.KeywordMatches("jobs", FIND)
  {
    WordPresent("jobs", "find ", "");
    assert "find " + "jobs" + "" == FIND;
  }

  lemma {:induction false} LearnInLearn()
    ensures Scoring.KeywordMatches("learn", LEARN)
  {
    WordPresent("learn", "", " python");
    assert "" + "learn" + " python" == LEARN;
  }

  lemma {:induction false} WordsAbsent()
    ensures !Scoring.KeywordMatches("jobs", BRIEF) && !Scoring.KeywordMatches("learn", BRIEF)
    ensures !Scoring.KeywordMatches("learn", FIND) && !Scoring.KeywordMatches("jobs", LEARN)
  {
    WordAbsent("jobs", BRIEF);
    WordAbsent("learn", BRIEF);
    WordAbsent("learn", FIND);
    WordAbsent("jobs", LEARN);
  }

  lemma {:induction false} TheyAreTasks()
    ensures Task(BRIEF) && Task(FIND) && Task(LEARN)
  {
  }

  lemma {:induction false} NoneStartsLikeBrief()
    ensures BRIEF[0] !in FIND && BRIEF[0] !in LEARN
  {
  }

  lemma {:induction false} TheRequestReads()
    ensures ThreeTasks(BRIEF, FIND, LEARN) == "keep it short; find jobs; learn python"
  {
  }

  /** The three tasks are such a request, and "k" is in neither of the later ones. */
  lemma {:induction false} BriefComesFirst(a: string, b: string, c: string)
    requires a == BRIEF && b == FIND && c == LEARN
    ensures UnnamedFirst(a, b, c) && a[0] !in b && a[0] !in c
  {
    TheyAreTasks();
    TheyAreQuiet();
    JobsInFind();
    LearnInLearn();
    WordsAbsent();
    NoneStartsLikeBrief();
  }

  lemma {:induction false} FirstIsDroppedFrom(plan: Option<Compound>, request: string, a: string, b: string, c: string)
    requires UnnamedFirst(a, b, c) && a[0] !in b && a[0] !in c && request == ThreeTasks(a, b, c)
    requires PlansRequest(plan, request, ReadingOf(CATALOGUE, REGISTRY, RefersBack))
    ensures plan.Some? && |plan.value.steps| == 2 && !Worded(plan.value, a)
  {
    LeadingClauseIsDropped(plan, a, b, c, RefersBack);
  }

  /** This request is planned, in two steps, and neither carries the wish to keep it short. */
  lemma {:induction false} KeepItShortIsDropped(plan: Option<Compound>)
    requires PlansRequest(plan, "keep it short; find jobs; learn python", ReadingOf(CATALOGUE, REGISTRY, RefersBack))
    ensures plan.Some? && |plan.value.steps| == 2 && !Worded(plan.value, "keep it short")
  {
    BriefComesFirst(BRIEF, FIND, LEARN);
    TheRequestReads();
    FirstIsDroppedFrom(plan, "keep it short; find jobs; learn python", BRIEF, FIND, LEARN);
  }
}
