/** Keyword scoring of the specialists; the choice is written twice and must agree. */
module Scoring {
  import opened Wrappers
  import opened Text
  import opened Splitting

  type AgentKey = string

  const MIN_SCORE: nat := 1
  const PHRASE_WEIGHT: nat := 2
  const KEYWORD_WEIGHT: nat := 1
  const GENERAL_AGENT: AgentKey := "general"

  datatype Manifest = Manifest(keywords: seq<string>, priority: int)

  type Registry = map<AgentKey, Manifest>

  const WORD_RANGES: seq<(char, char)> := [('0', '9'), ('A', 'Z'), ('_', '_'), ('a', 'z')]

  predicate IsWord(c: char) {
    InRanges(c, WORD_RANGES)
  }

  /** Between positions i - 1 and i there is a word character on exactly one side. */
  predicate WordBoundary(s: string, i: nat)
    requires i <= |s|
  {
    (i > 0 && IsWord(s[i - 1])) != (i < |s| && IsWord(s[i]))
  }

  /** `kw` stands at `p`, as a whole word unless it is a phrase. */
  predicate KeywordAt(kw: string, lowered: string, p: nat) {
    && p + |kw| <= |lowered| && lowered[p..p + |kw|] == kw
    && (' ' in kw || (WordBoundary(lowered, p) && WordBoundary(lowered, p + |kw|)))
  }

  /** A phrase matches anywhere; a single token only as a whole word. */
  predicate KeywordMatches(keyword: string, lowered: string) {
    var kw := LowerAll(Strip(keyword));
    && kw != ""
    && exists p: nat :: p <= |lowered| && KeywordAt(kw, lowered, p)
  }

  function WeightOf(keyword: string): nat {
    if ' ' in Strip(keyword) then PHRASE_WEIGHT else KEYWORD_WEIGHT
  }

  /** The keywords among the first `n` that match, and their total weight. */
  function Score(keywords: seq<string>, matches: string -> bool, n: nat): (nat, seq<string>)
    requires n <= |keywords|
  {
    if n == 0 then (0, [])
    else
      var (score, matched) := Score(keywords, matches, n - 1);
      var k := keywords[n - 1];
      if matches(k) then (score + WeightOf(k), matched + [Strip(k)]) else (score, matched)
  }

  function MatchTable(lowered: string): string -> bool {
    (k: string) => KeywordMatches(k, lowered)
  }

  /** What one clause or request makes of the registry: the score of each registered agent. */
  function Ranking(registry: Registry, lowered: string): AgentKey -> Option<(nat, int, seq<string>)> {
    (key: AgentKey) =>
      if key in registry then
        var m := registry[key];
        var (score, matched) := Score(m.keywords, MatchTable(lowered), |m.keywords|);
        if score >= MIN_SCORE then Some((score, m.priority, matched)) else None
      else None
  }

  /** Ranked above: a greater score, or the same score and a greater priority. */
  predicate Above(a: (nat, int, seq<string>), b: (nat, int, seq<string>)) {
    a.0 > b.0 || (a.0 == b.0 && a.1 > b.1)
  }

  /** `best` is the position of the first agent in catalogue order among those ranked highest; there is
      none exactly when no agent is ranked at all. */
  ghost predicate IsBest(keys: seq<AgentKey>, ranked: AgentKey -> Option<(nat, int, seq<string>)>, best: Option<nat>) {
    match best
    case None => forall i :: 0 <= i < |keys| ==> ranked(keys[i]).None?
    case Some(b) =>
      && b < |keys| && ranked(keys[b]).Some?
      && (forall i :: 0 <= i < |keys| && ranked(keys[i]).Some? ==>
            !Above(ranked(keys[i]).value, ranked(keys[b]).value))
      && (forall i :: 0 <= i < b && ranked(keys[i]).Some? ==> Above(ranked(keys[b]).value, ranked(keys[i]).value))
  }

  lemma {:induction false} BestIsUnique(
    keys: seq<AgentKey>, ranked: AgentKey -> Option<(nat, int, seq<string>)>, a: Option<nat>, b: Option<nat>)
    requires IsBest(keys, ranked, a) && IsBest(keys, ranked, b)
    ensures a == b
  {
    if a.Some? {
      assert ranked(keys[a.value]).Some?;
    }
    if b.Some? {
      assert ranked(keys[b.value]).Some?;
    }
  }

  /** `key` is the best-ranked agent, with its score and matched keywords; none when no agent is ranked. */
  ghost predicate Picks(keys: seq<AgentKey>, ranked: AgentKey -> Option<(nat, int, seq<string>)>,
                        key: Option<AgentKey>, score: nat, matched: seq<string>) {
    exists at :: IsBest(keys, ranked, at) && IsPick(keys, ranked, at, key, score, matched)
  }

  predicate IsPick(keys: seq<AgentKey>, ranked: AgentKey -> Option<(nat, int, seq<string>)>, at: Option<nat>,
                   key: Option<AgentKey>, score: nat, matched: seq<string>) {
    match at
    case None => key.None? && score == 0 && matched == []
    case Some(b) =>
      && b < |keys| && key == Some(keys[b]) && ranked(keys[b]).Some?
      && ranked(keys[b]).value.0 == score && ranked(keys[b]).value.2 == matched
  }

  /** The score of one specialist and the keywords that matched. */
  method ScoreSpecialist(m: Manifest, lowered: string) returns (score: nat, matched: seq<string>)
    ensures (score, matched) == Score(m.keywords, MatchTable(lowered), |m.keywords|)
  {
    score, matched := 0, [];
    for i := 0 to |m.keywords|
      invariant (score, matched) == Score(m.keywords, MatchTable(lowered), i)
    {
      var keyword := m.keywords[i];
      if KeywordMatches(keyword, lowered) {
        var isPhrase := ' ' in Strip(keyword);
        score := score + if isPhrase then PHRASE_WEIGHT else KEYWORD_WEIGHT;
        matched := matched + [Strip(keyword)];
      }
    }
  }

  /** The highest-ranked specialist for one clause, if any scores. */
  method BestSpecialist(intent: string, keys: seq<AgentKey>, registry: Registry)
    returns (best: Option<AgentKey>, bestScore: nat, bestMatched: seq<string>)
    ensures Picks(keys, Ranking(registry, LowerAll(intent)), best, bestScore, bestMatched)
  {
    var lowered := LowerAll(intent);
    ghost var ranked := Ranking(registry, lowered);
    best, bestScore, bestMatched := None, 0, [];
    var bestPriority := -1;
    ghost var at: Option<nat> := None;
    for i := 0 to |keys|
      invariant IsBest(keys[..i], ranked, at)
      invariant at.None? ==> best.None? && bestScore == 0 && bestMatched == []
      invariant at.Some? ==> best == Some(keys[at.value])
      invariant at.Some? ==> ranked(keys[at.value]) == Some((bestScore, bestPriority, bestMatched))
    {
      var key := keys[i];
      assert keys[..i + 1] == keys[..i] + [key];
      ghost var before := at;
      if key in registry {
        var score, matched := ScoreSpecialist(registry[key], lowered);
        var priority := registry[key].priority;
        if score >= MIN_SCORE {
          assert ranked(key) == Some((score, priority, matched));
          if score > bestScore || (score == bestScore && priority > bestPriority) {
            best, bestScore, bestPriority, bestMatched, at := Some(key), score, priority, matched, Some(i);
          }
        }
      }
      NextKey(keys, ranked, i, before, at);
    }
    assert keys[..|keys|] == keys;
    assert IsPick(keys, ranked, at, best, bestScore, bestMatched);
  }

  /** Looking at one more key: it wins only when it is ranked above the best so far. */
  lemma {:induction false} NextKey(keys: seq<AgentKey>, ranked: AgentKey -> Option<(nat, int, seq<string>)>, i: nat,
                before: Option<nat>, after: Option<nat>)
    requires i < |keys| && IsBest(keys[..i], ranked, before)
    requires var r := ranked(keys[i]);
             after == if r.Some? && (before.None? || Above(r.value, ranked(keys[before.value]).value)) then Some(i) else before
    ensures IsBest(keys[..i + 1], ranked, after)
  {
    var shorter, longer := keys[..i], keys[..i + 1];
    assert forall j :: 0 <= j < i ==> longer[j] == shorter[j];
    assert longer[i] == keys[i];
  }

  /** The pick among the first `n` keys, as a function. */
  function BestAt(keys: seq<AgentKey>, ranked: AgentKey -> Option<(nat, int, seq<string>)>, n: nat): (at: Option<nat>)
    requires n <= |keys|
    ensures at.Some? ==> at.value < n && ranked(keys[at.value]).Some?
  {
    if n == 0 then None
    else
      var before, r := BestAt(keys, ranked, n - 1), ranked(keys[n - 1]);
      if r.Some? && (before.None? || Above(r.value, ranked(keys[before.value]).value)) then Some(n - 1) else before
  }

  lemma {:induction false} BestAtIsBest(
    keys: seq<AgentKey>, ranked: AgentKey -> Option<(nat, int, seq<string>)>, n: nat)
    requires n <= |keys|
    ensures IsBest(keys[..n], ranked, BestAt(keys, ranked, n))
  {
    if n > 0 {
      BestAtIsBest(keys, ranked, n - 1);
      NextKey(keys, ranked, n - 1, BestAt(keys, ranked, n - 1), BestAt(keys, ranked, n));
    }
  }

  datatype Decision = Decision(agent: AgentKey, confidence: real, matched: seq<string>)

  function ConfidenceFor(score: nat): (c: real)
    ensures 0.0 <= c <= 0.95
    ensures score >= MIN_SCORE ==> c >= 0.72
  {
    var linear := 0.6 + 0.12 * score as real;
    if linear < 0.95 then linear else 0.95
  }

  /** The decision that goes with a pick; General at low confidence when there is none. */
  function DecisionFor(key: Option<AgentKey>, score: nat, matched: seq<string>): Decision {
    if key.None? then Decision(GENERAL_AGENT, 0.3, []) else Decision(key.value, ConfidenceFor(score), matched)
  }

  /** Some pick leads to this decision. */
  ghost predicate Decides(keys: seq<AgentKey>, ranked: AgentKey -> Option<(nat, int, seq<string>)>, d: Decision) {
    exists key, score, matched :: Picks(keys, ranked, key, score, matched) && d == DecisionFor(key, score, matched)
  }

  /** The single-agent decision: the highest-ranked specialist, or General exactly when nobody scores. */
  method ScoreAgents(intent: string, keys: seq<AgentKey>, registry: Registry)
    returns (d: Decision)
    ensures Decides(keys, Ranking(registry, LowerAll(intent)), d)
  {
    var lowered := LowerAll(intent);
    ghost var ranked := Ranking(registry, lowered);
    ghost var at: Option<nat> := None;
    var bestKey: Option<AgentKey>, bestScore: nat, bestMatched: seq<string> := None, 0, [];
    var bestPriority := -1;
    for i := 0 to |keys|
      invariant IsBest(keys[..i], ranked, at)
      invariant at.None? ==> bestKey.None? && bestScore == 0 && bestMatched == []
      invariant at.Some? ==> bestKey == Some(keys[at.value])
      invariant at.Some? ==> ranked(keys[at.value]) == Some((bestScore, bestPriority, bestMatched))
    {
      var key := keys[i];
      ghost var before := at;
      if key in registry {
        var score, matched := ScoreSpecialist(registry[key], lowered);
        var priority := registry[key].priority;
        if score >= MIN_SCORE {
          assert ranked(key) == Some((score, priority, matched));
          if score > bestScore || (score == bestScore && priority > bestPriority) {
            bestKey, bestScore, bestPriority, bestMatched, at := Some(key), score, priority, matched, Some(i);
          }
        }
      }
      NextKey(keys, ranked, i, before, at);
    }
    assert keys[..|keys|] == keys;
    assert IsPick(keys, ranked, at, bestKey, bestScore, bestMatched);
    assert Picks(keys, ranked, bestKey, bestScore, bestMatched);
    if bestKey.None? {
      return Decision(GENERAL_AGENT, 0.3, []);
    }
    return Decision(bestKey.value, ConfidenceFor(bestScore), bestMatched);
  }

  /** The loop is written twice; whatever the registry and the request, the two pick the same agent on the
      same grounds, and General is chosen exactly when no clause-level specialist is. */
  lemma {:induction false} LoopsAgree(keys: seq<AgentKey>, ranked: AgentKey -> Option<(nat, int, seq<string>)>,
                   best: Option<AgentKey>, score: nat, matched: seq<string>, d: Decision)
    requires Picks(keys, ranked, best, score, matched) && Decides(keys, ranked, d)
    ensures d == DecisionFor(best, score, matched)
  {
    var key, s, m :| Picks(keys, ranked, key, s, m) && d == DecisionFor(key, s, m);
    var a :| IsBest(keys, ranked, a) && IsPick(keys, ranked, a, best, score, matched);
    var b :| IsBest(keys, ranked, b) && IsPick(keys, ranked, b, key, s, m);
    BestIsUnique(keys, ranked, a, b);
  }

  // ---- What a score counts ----

  /** The positions of the matching keywords among the first `n`, in order. */
  ghost predicate MatchesAre(keywords: seq<string>, matches: string -> bool, n: nat, at: seq<nat>) {
    && n <= |keywords| && Increasing(at)
    && (forall j :: 0 <= j < |at| ==> at[j] < n && matches(keywords[at[j]]))
    && (forall i: nat :: i < n && matches(keywords[i]) ==> i in at)
  }

  ghost predicate TrimsOf(matched: seq<string>, keywords: seq<string>, at: seq<nat>) {
    |matched| == |at| && forall j :: 0 <= j < |at| ==> at[j] < |keywords| && IsTrim(keywords[at[j]], IsSpace, matched[j])
  }

  /** The positions of the phrases in a list. */
  function Phrases(matched: seq<string>): set<nat> {
    set j: nat | j < |matched| && ' ' in matched[j]
  }

  lemma {:induction false} OneMoreMatched(matched: seq<string>, m: string)
    ensures |Phrases(matched + [m])| == |Phrases(matched)| + if ' ' in m then 1 else 0
  {
    var more := matched + [m];
    if ' ' in m {
      assert Phrases(more) == Phrases(matched) + {|matched|};
    } else {
      assert Phrases(more) == Phrases(matched);
    }
  }

  lemma {:induction false} PositionAdded(at: seq<nat>, n: nat)
    requires Increasing(at) && forall j :: 0 <= j < |at| ==> at[j] < n
    ensures Increasing(at + [n])
  {
  }

  lemma {:induction false} MatchAdded(keywords: seq<string>, matches: string -> bool, n: nat, at: seq<nat>)
    requires n < |keywords| && MatchesAre(keywords, matches, n, at) && matches(keywords[n])
    ensures MatchesAre(keywords, matches, n + 1, at + [n])
  {
    PositionAdded(at, n);
    var more := at + [n];
    forall i: nat | i < n + 1 && matches(keywords[i]) ensures i in more {
      if i < n {
        assert i in at;
      } else {
        assert more[|at|] == i;
      }
    }
  }

  lemma {:induction false} MatchesExtend(keywords: seq<string>, matches: string -> bool, n: nat, at: seq<nat>)
    requires n < |keywords| && MatchesAre(keywords, matches, n, at)
    ensures MatchesAre(keywords, matches, n + 1, if matches(keywords[n]) then at + [n] else at)
  {
    if matches(keywords[n]) {
      MatchAdded(keywords, matches, n, at);
    }
  }

  lemma {:induction false} TrimsExtend(matched: seq<string>, keywords: seq<string>, at: seq<nat>, i: nat)
    requires TrimsOf(matched, keywords, at) && i < |keywords|
    ensures TrimsOf(matched + [Strip(keywords[i])], keywords, at + [i])
  {
    StripByIsTrim(keywords[i], IsSpace, IsSpace);
  }

  /** One point for each matched keyword and one more for each of them that is a phrase. */
  ghost predicate Counts(score: nat, matched: seq<string>) {
    score == |matched| + |Phrases(matched)|
  }

  lemma {:induction false} CountsOneMore(score: nat, matched: seq<string>, k: string)
    requires Counts(score, matched)
    ensures Counts(score + WeightOf(k), matched + [Strip(k)])
  {
    OneMoreMatched(matched, Strip(k));
  }

  ghost predicate Scored(
    keywords: seq<string>, matches: string -> bool, n: nat, at: seq<nat>, scored: (nat, seq<string>))
  {
    MatchesAre(keywords, matches, n, at) && TrimsOf(scored.1, keywords, at) && Counts(scored.0, scored.1)
  }

  lemma {:induction false} ScoredMore(
    keywords: seq<string>, matches: string -> bool, n: nat, at: seq<nat>, before: (nat, seq<string>))
    returns (more: seq<nat>)
    requires n < |keywords| && Scored(keywords, matches, n, at, before) && before == Score(keywords, matches, n)
    ensures Scored(keywords, matches, n + 1, more, Score(keywords, matches, n + 1))
  {
    var k := keywords[n];
    MatchesExtend(keywords, matches, n, at);
    ScoreStep(keywords, matches, n);
    more := at;
    if matches(k) {
      more := at + [n];
      TrimsExtend(before.1, keywords, at, n);
      CountsOneMore(before.0, before.1, k);
    }
  }

  lemma {:induction false} NothingScored(keywords: seq<string>, matches: string -> bool)
    ensures Scored(keywords, matches, 0, [], Score(keywords, matches, 0))
  {
    assert Phrases([]) == {};
  }

  lemma {:induction false} ScoreStep(keywords: seq<string>, matches: string -> bool, n: nat)
    requires n < |keywords|
    ensures var (before, k) := (Score(keywords, matches, n), keywords[n]);
            Score(keywords, matches, n + 1) ==
              if matches(k) then (before.0 + WeightOf(k), before.1 + [Strip(k)]) else before
  {
  }

  /** The score counts the keywords that match, phrases twice; those keywords are listed in order, trimmed. */
  lemma {:induction false} ScoreCounts(keywords: seq<string>, matches: string -> bool, n: nat) returns (at: seq<nat>)
    requires n <= |keywords|
    ensures Scored(keywords, matches, n, at, Score(keywords, matches, n))
  {
    if n == 0 {
      at := [];
      NothingScored(keywords, matches);
    } else {
      var before := ScoreCounts(keywords, matches, n - 1);
      at := ScoredMore(keywords, matches, n - 1, before, Score(keywords, matches, n - 1));
    }
  }

  // ---- What matches ----

  /** `kw` stands at `p` and no word character touches it on either side. */
  ghost predicate StandsAlone(lowered: string, kw: string, p: nat) {
    && OccursAt(lowered, kw, p)
    && (p > 0 ==> !IsWord(lowered[p - 1])) && (p + |kw| < |lowered| ==> !IsWord(lowered[p + |kw|]))
  }

  lemma {:induction false} OccursIff(lowered: string, kw: string, p: nat)
    ensures OccursAt(lowered, kw, p) <==> p + |kw| <= |lowered| && lowered[p..p + |kw|] == kw
  {
    if p + |kw| <= |lowered| && lowered[p..p + |kw|] == kw {
      forall k | 0 <= k < |kw| ensures kw[k] == lowered[p + k] {
        assert lowered[p..p + |kw|][k] == kw[k];
      }
    }
  }

  /** A phrase matches wherever it occurs; a single word matches where it stands alone, not inside another. */
  lemma {:induction false} MatchesIff(keyword: string, lowered: string)
    requires LowerAll(Strip(keyword)) != ""
    ensures var kw := LowerAll(Strip(keyword));
            && (' ' in kw ==> (KeywordMatches(keyword, lowered) <==> Contains(lowered, kw)))
            && (' ' !in kw && IsWord(kw[0]) && IsWord(kw[|kw| - 1]) ==>
                  (KeywordMatches(keyword, lowered) <==> exists p: nat :: StandsAlone(lowered, kw, p)))
  {
    var kw := LowerAll(Strip(keyword));
    forall p: nat
      ensures ' ' in kw ==> (p <= |lowered| && KeywordAt(kw, lowered, p) <==> OccursAt(lowered, kw, p))
      ensures ' ' !in kw && IsWord(kw[0]) && IsWord(kw[|kw| - 1]) ==>
        (p <= |lowered| && KeywordAt(kw, lowered, p) <==> StandsAlone(lowered, kw, p))
    {
      OccursIff(lowered, kw, p);
      if OccursAt(lowered, kw, p) {
        assert lowered[p] == kw[0] && lowered[p + (|kw| - 1)] == kw[|kw| - 1];
      }
    }
  }

  // ---- What is decided ----

  /** One matching keyword is believed at 0.72, two at 0.84, and anything more at 0.95. */
  lemma {:induction false} ConfidenceSteps(score: nat)
    ensures score == 1 ==> ConfidenceFor(score) == 0.72
    ensures score == 2 ==> ConfidenceFor(score) == 0.84
    ensures score >= 3 ==> ConfidenceFor(score) == 0.95
  {
  }

  ghost predicate DecidedBy(
    keys: seq<AgentKey>, ranked: AgentKey -> Option<(nat, int, seq<string>)>, b: nat, d: Decision)
  {
    && IsBest(keys, ranked, Some(b)) && b < |keys| && ranked(keys[b]).Some?
    && d.agent == keys[b] && d.matched == ranked(keys[b]).value.2
    && d.confidence == ConfidenceFor(ranked(keys[b]).value.0)
  }

  lemma {:induction false} DecisionOfPick(
    keys: seq<AgentKey>, ranked: AgentKey -> Option<(nat, int, seq<string>)>, at: Option<nat>,
    key: Option<AgentKey>, score: nat, matched: seq<string>)
    requires IsBest(keys, ranked, at) && IsPick(keys, ranked, at, key, score, matched)
    ensures at.None? ==> DecisionFor(key, score, matched) == Decision("general", 0.3, [])
    ensures at.Some? ==> DecidedBy(keys, ranked, at.value, DecisionFor(key, score, matched))
  {
  }

  /** The general agent answers, at 0.3 and on no grounds, exactly when nobody is ranked; otherwise the best-ranked
      agent does, on the keywords that it matched and as sure as its score makes it. */
  lemma {:induction false} DecisionIsBest(
    keys: seq<AgentKey>, ranked: AgentKey -> Option<(nat, int, seq<string>)>, d: Decision)
    requires Decides(keys, ranked, d)
    ensures if exists i :: 0 <= i < |keys| && ranked(keys[i]).Some?
            then exists b: nat :: DecidedBy(keys, ranked, b, d)
            else d == Decision("general", 0.3, [])
  {
    var key, score, matched :| Picks(keys, ranked, key, score, matched) && d == DecisionFor(key, score, matched);
    var at: Option<nat> :| IsBest(keys, ranked, at) && IsPick(keys, ranked, at, key, score, matched);
    DecisionOfPick(keys, ranked, at, key, score, matched);
    if at.Some? {
      assert ranked(keys[at.value]).Some?;
    }
  }
}
