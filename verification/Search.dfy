/** Folding search hits to conversations and ranking them. Scores are real numbers here. */
module Search {
  import opened Wrappers

  type ConversationId = nat
  type MessageId = nat

  const KEYWORD_WEIGHT: real := 0.5
  const SEMANTIC_WEIGHT: real := 0.5

  datatype Mode = Keyword | Semantic | Hybrid

  datatype KeywordHit = KeywordHit(conversation: ConversationId, message: MessageId, rank: real)

  datatype SemanticHit = SemanticHit(conversation: ConversationId, distance: real)

  datatype Row = Row(
    conversation: ConversationId, score: real, keyword: real, semantic: real, message: Option<MessageId>)

  function Similarity(distance: real): (s: real)
    ensures 0.0 <= s <= 1.0
    ensures 0.0 <= distance <= 1.0 ==> s == 1.0 - distance
  {
    var raw := 1.0 - distance;
    if raw < 0.0 then 0.0 else if raw > 1.0 then 1.0 else raw
  }

  function Blend(mode: Mode, keyword: real, semantic: real): real {
    match mode
    case Keyword => keyword
    case Semantic => semantic
    case Hybrid => KEYWORD_WEIGHT * keyword + SEMANTIC_WEIGHT * semantic
  }

  // ---- Folding ----

  /** Hit `i` is the first among the best-ranked hits of its conversation. */
  ghost predicate BestHit(hits: seq<KeywordHit>, c: ConversationId, i: int) {
    && 0 <= i < |hits| && hits[i].conversation == c
    && (forall j :: 0 <= j < |hits| && hits[j].conversation == c ==> hits[j].rank <= hits[i].rank)
    && (forall j :: 0 <= j < i && hits[j].conversation == c ==> hits[j].rank < hits[i].rank)
  }

  ghost predicate FoldsTo(hits: seq<KeywordHit>, best: map<ConversationId, (real, MessageId)>) {
    && (forall i :: 0 <= i < |hits| ==> hits[i].conversation in best)
    && forall c :: c in best ==> exists i :: BestHit(hits, c, i) && best[c] == (hits[i].rank, hits[i].message)
  }

  lemma {:induction false} FoldOneMore(
    hits: seq<KeywordHit>, best: map<ConversationId, (real, MessageId)>, h: KeywordHit)
    requires FoldsTo(hits, best)
    ensures var c := h.conversation;
            FoldsTo(hits + [h], if c !in best || h.rank > best[c].0 then best[c := (h.rank, h.message)] else best)
  {
    var c, more := h.conversation, hits + [h];
    var next := if c !in best || h.rank > best[c].0 then best[c := (h.rank, h.message)] else best;
    forall d | d in next ensures exists i :: BestHit(more, d, i) && next[d] == (more[i].rank, more[i].message) {
      if d == c && (c !in best || h.rank > best[c].0) {
        NewBest(hits, best, h);
      } else {
        var i :| BestHit(hits, d, i) && best[d] == (hits[i].rank, hits[i].message);
        StillBest(hits, d, i, h);
        assert more[i] == hits[i];
      }
    }
    assert more[|hits|] == h;
  }

  /** A later hit that is of another conversation, or ranks no higher, changes no best hit. */
  lemma {:induction false} StillBest(hits: seq<KeywordHit>, d: ConversationId, i: int, h: KeywordHit)
    requires BestHit(hits, d, i) && (h.conversation == d ==> h.rank <= hits[i].rank)
    ensures BestHit(hits + [h], d, i)
  {
  }

  lemma {:induction false} NewBest(hits: seq<KeywordHit>, best: map<ConversationId, (real, MessageId)>, h: KeywordHit)
    requires FoldsTo(hits, best)
    requires h.conversation in best ==> h.rank > best[h.conversation].0
    ensures BestHit(hits + [h], h.conversation, |hits|)
  {
    if h.conversation in best {
      var i :| BestHit(hits, h.conversation, i) && best[h.conversation] == (hits[i].rank, hits[i].message);
    }
  }

  ghost predicate GreatestRank(hits: seq<KeywordHit>, m: real) {
    (exists i :: 0 <= i < |hits| && hits[i].rank == m) && forall i :: 0 <= i < |hits| ==> hits[i].rank <= m
  }

  method MaxRank(best: map<ConversationId, (real, MessageId)>) returns (m: real)
    requires best != map[]
    ensures exists c :: c in best && best[c].0 == m
    ensures forall c :: c in best ==> best[c].0 <= m
  {
    assert best.Keys != {};
    var c :| c in best;
    m := best[c].0;
    var rest := best.Keys - {c};
    while rest != {}
      invariant rest <= best.Keys && exists d :: d in best && best[d].0 == m
      invariant forall d :: d in best.Keys - rest ==> best[d].0 <= m
      decreases rest
    {
      var d :| d in rest;
      rest := rest - {d};
      if best[d].0 > m {
        m := best[d].0;
      }
    }
  }

  function Scale(top: real): (m: real)
    ensures m != 0.0
  {
    if top == 0.0 then 1.0 else top
  }

  ghost predicate ScaledBest(hits: seq<KeywordHit>, c: ConversationId, top: real, entry: (real, MessageId)) {
    exists i :: BestHit(hits, c, i) && entry == (hits[i].rank / Scale(top), hits[i].message)
  }

  /** The best rank of each conversation over the greatest rank (or over 1 when that is 0), with the
      first message that has it. */
  ghost predicate Normalized(hits: seq<KeywordHit>, folded: map<ConversationId, (real, MessageId)>, top: real) {
    && (hits != [] ==> GreatestRank(hits, top))
    && (forall i :: 0 <= i < |hits| ==> hits[i].conversation in folded)
    && (forall c :: c in folded ==> ScaledBest(hits, c, top, folded[c]))
  }

  ghost predicate NormalizedFold(hits: seq<KeywordHit>, folded: map<ConversationId, (real, MessageId)>) {
    exists top :: Normalized(hits, folded, top)
  }

  method FoldKeyword(hits: seq<KeywordHit>) returns (folded: map<ConversationId, (real, MessageId)>)
    ensures NormalizedFold(hits, folded)
  {
    var best: map<ConversationId, (real, MessageId)> := map[];
    for i := 0 to |hits|
      invariant FoldsTo(hits[..i], best)
    {
      var h := hits[i];
      FoldOneMore(hits[..i], best, h);
      assert hits[..i + 1] == hits[..i] + [h];
      if h.conversation !in best || h.rank > best[h.conversation].0 {
        best := best[h.conversation := (h.rank, h.message)];
      }
    }
    assert hits[..|hits|] == hits;
    folded := NormalizeBest(hits, best);
  }

  method NormalizeBest(ghost hits: seq<KeywordHit>, best: map<ConversationId, (real, MessageId)>)
    returns (folded: map<ConversationId, (real, MessageId)>)
    requires FoldsTo(hits, best)
    ensures NormalizedFold(hits, folded)
  {
    if best == map[] {
      NothingFolded(hits, best);
      assert Normalized(hits, map[], 0.0);
      return map[];
    }
    var most := MaxRank(best);
    folded := map c | c in best :: (best[c].0 / Scale(most), best[c].1);
    GreatestOfBest(hits, best, most);
    forall c | c in folded ensures ScaledBest(hits, c, most, folded[c]) {
      var i :| BestHit(hits, c, i) && best[c] == (hits[i].rank, hits[i].message);
    }
    assert Normalized(hits, folded, most);
  }

  lemma {:induction false} NothingFolded(hits: seq<KeywordHit>, best: map<ConversationId, (real, MessageId)>)
    requires FoldsTo(hits, best)
    ensures hits != [] ==> best != map[]
  {
    if hits != [] {
      assert hits[0].conversation in best;
    }
  }

  lemma {:induction false} GreatestOfBest(
    hits: seq<KeywordHit>, best: map<ConversationId, (real, MessageId)>, top: real)
    requires FoldsTo(hits, best)
    requires (exists c :: c in best && best[c].0 == top) && forall c :: c in best ==> best[c].0 <= top
    ensures GreatestRank(hits, top)
  {
    var c :| c in best && best[c].0 == top;
    var i :| BestHit(hits, c, i) && best[c] == (hits[i].rank, hits[i].message);
    assert hits[i].rank == top;
    forall j | 0 <= j < |hits| ensures hits[j].rank <= top {
      var d := hits[j].conversation;
      var k :| BestHit(hits, d, k) && best[d] == (hits[k].rank, hits[k].message);
    }
  }

  /** With ranks that are not negative, as the full-text ranking gives them, normalized ranks lie in [0, 1]. */
  lemma {:induction false} NormalizedRanksAreInUnit(
    hits: seq<KeywordHit>, folded: map<ConversationId, (real, MessageId)>, c: ConversationId)
    requires NormalizedFold(hits, folded) && c in folded
    requires forall i :: 0 <= i < |hits| ==> hits[i].rank >= 0.0
    ensures 0.0 <= folded[c].0 <= 1.0
  {
    var top :| Normalized(hits, folded, top);
    assert ScaledBest(hits, c, top, folded[c]);
    var i :| BestHit(hits, c, i) && folded[c] == (hits[i].rank / Scale(top), hits[i].message);
    QuotientInUnit(hits[i].rank, top);
  }

  lemma {:induction false} QuotientInUnit(x: real, m: real)
    requires 0.0 <= x <= m
    ensures 0.0 <= x / Scale(m) <= 1.0
  {
    var q := x / Scale(m);
    assert q * Scale(m) == x;
  }

  /** The best clamped similarity of each conversation. */
  ghost predicate BestSimilarity(hits: seq<SemanticHit>, folded: map<ConversationId, real>) {
    && (forall i :: 0 <= i < |hits| ==>
          hits[i].conversation in folded && Similarity(hits[i].distance) <= folded[hits[i].conversation])
    && (forall c :: c in folded ==>
          exists i :: 0 <= i < |hits| && hits[i].conversation == c && folded[c] == Similarity(hits[i].distance))
  }

  method FoldSemantic(hits: seq<SemanticHit>) returns (best: map<ConversationId, real>)
    ensures BestSimilarity(hits, best)
    ensures forall c :: c in best ==> 0.0 <= best[c] <= 1.0
  {
    best := map[];
    for n := 0 to |hits|
      invariant BestSimilarity(hits[..n], best)
    {
      var h := hits[n];
      var similarity := Similarity(h.distance);
      SimilarityOneMore(hits[..n], best, h);
      assert hits[..n + 1] == hits[..n] + [h];
      if h.conversation !in best || similarity > best[h.conversation] {
        best := best[h.conversation := similarity];
      }
    }
    assert hits[..|hits|] == hits;
  }

  lemma {:induction false} SimilarityOneMore(hits: seq<SemanticHit>, best: map<ConversationId, real>, h: SemanticHit)
    requires BestSimilarity(hits, best)
    ensures var (c, s) := (h.conversation, Similarity(h.distance));
            BestSimilarity(hits + [h], if c !in best || s > best[c] then best[c := s] else best)
  {
    var (c, s, more) := (h.conversation, Similarity(h.distance), hits + [h]);
    var next := if c !in best || s > best[c] then best[c := s] else best;
    forall d | d in next
      ensures exists i :: 0 <= i < |more| && more[i].conversation == d && next[d] == Similarity(more[i].distance)
    {
      if d == c && (c !in best || s > best[c]) {
        assert more[|hits|] == h;
      } else {
        var i :| 0 <= i < |hits| && hits[i].conversation == d && best[d] == Similarity(hits[i].distance);
        assert more[i] == hits[i];
      }
    }
  }

  // ---- Ranking ----

  function RowOf(mode: Mode, keyword: map<ConversationId, (real, MessageId)>, semantic: map<ConversationId, real>,
                 c: ConversationId): Row
  {
    var kw := if c in keyword then keyword[c].0 else 0.0;
    var message := if c in keyword then Some(keyword[c].1) else None;
    var sem := if c in semantic then semantic[c] else 0.0;
    Row(c, Blend(mode, kw, sem), kw, sem, message)
  }

  ghost predicate Descending(rows: seq<Row>) {
    forall i, j :: 0 <= i < j < |rows| ==> rows[i].score >= rows[j].score
  }

  /** Insert after every row that scores at least as much. */
  function Insert(rows: seq<Row>, r: Row): seq<Row> {
    if rows == [] || rows[0].score < r.score then [r] + rows else [rows[0]] + Insert(rows[1..], r)
  }

  function SortByScore(rows: seq<Row>): seq<Row> {
    if rows == [] then [] else Insert(SortByScore(rows[..|rows| - 1]), rows[|rows| - 1])
  }

  ghost predicate AllAtMost(rows: seq<Row>, score: real) {
    forall k :: 0 <= k < |rows| ==> rows[k].score <= score
  }

  lemma {:induction false} InsertKeepsBelow(rows: seq<Row>, r: Row, score: real)
    requires AllAtMost(rows, score) && r.score <= score
    ensures AllAtMost(Insert(rows, r), score)
  {
    if rows != [] && rows[0].score >= r.score {
      InsertKeepsBelow(rows[1..], r, score);
    }
  }

  lemma {:induction false} FirstIsGreatest(first: Row, rest: seq<Row>)
    requires Descending(rest) && AllAtMost(rest, first.score)
    ensures Descending([first] + rest)
  {
  }

  lemma {:induction false} InsertSorts(rows: seq<Row>, r: Row)
    requires Descending(rows)
    ensures Descending(Insert(rows, r))
  {
    if rows == [] {
    } else if rows[0].score < r.score {
      assert AllAtMost(rows, r.score);
      FirstIsGreatest(r, rows);
    } else {
      InsertSorts(rows[1..], r);
      assert AllAtMost(rows[1..], rows[0].score);
      InsertKeepsBelow(rows[1..], r, rows[0].score);
      FirstIsGreatest(rows[0], Insert(rows[1..], r));
    }
  }

  lemma {:induction false} InsertAddsRow(rows: seq<Row>, r: Row)
    ensures multiset(Insert(rows, r)) == multiset(rows) + multiset{r}
  {
    if rows != [] && rows[0].score >= r.score {
      InsertAddsRow(rows[1..], r);
      assert rows == [rows[0]] + rows[1..];
    }
  }

  lemma {:induction false} SortSorts(rows: seq<Row>)
    ensures Descending(SortByScore(rows)) && multiset(SortByScore(rows)) == multiset(rows)
  {
    if rows != [] {
      var init, last := rows[..|rows| - 1], rows[|rows| - 1];
      assert rows == init + [last];
      SortSorts(init);
      InsertSorts(SortByScore(init), last);
      InsertAddsRow(SortByScore(init), last);
    }
  }

  /** The first `limit` live rows of a sorted list. */
  function TakeLive(rows: seq<Row>, live: set<ConversationId>, limit: int): seq<Row> {
    if rows == [] || limit <= 0 then []
    else if rows[0].conversation in live then [rows[0]] + TakeLive(rows[1..], live, limit - 1)
    else TakeLive(rows[1..], live, limit)
  }

  ghost predicate EveryRowOnce(rows: seq<Row>, mode: Mode, keyword: map<ConversationId, (real, MessageId)>,
                               semantic: map<ConversationId, real>, ids: set<ConversationId>) {
    && (forall k :: 0 <= k < |rows| ==>
          rows[k].conversation in ids && rows[k] == RowOf(mode, keyword, semantic, rows[k].conversation))
    && (forall c :: c in ids ==> RowOf(mode, keyword, semantic, c) in rows)
    && (forall k, l :: 0 <= k < l < |rows| ==> rows[k].conversation != rows[l].conversation)
  }

  /** Every found conversation once, with its blended score, in any order. */
  method ScoreAll(mode: Mode, keyword: map<ConversationId, (real, MessageId)>, semantic: map<ConversationId, real>)
    returns (rows: seq<Row>)
    ensures EveryRowOnce(rows, mode, keyword, semantic, keyword.Keys + semantic.Keys)
  {
    rows := [];
    var all := keyword.Keys + semantic.Keys;
    var left := all;
    while left != {}
      invariant left <= all && EveryRowOnce(rows, mode, keyword, semantic, all - left)
      decreases left
    {
      var c :| c in left;
      left := left - {c};
      var before := rows;
      rows := rows + [RowOf(mode, keyword, semantic, c)];
      forall d | d in all - left ensures RowOf(mode, keyword, semantic, d) in rows {
        if d != c {
          assert RowOf(mode, keyword, semantic, d) in before;
        } else {
          assert rows[|before|] == RowOf(mode, keyword, semantic, c);
        }
      }
    }
    assert all - left == all;
  }

  /** Distinct live conversations with their own scores, best first, at most `limit` of them; a live
      conversation is left out only when the list is full, and then it scores no more than any listed. */
  ghost predicate Ranked(hits: seq<Row>, mode: Mode, keyword: map<ConversationId, (real, MessageId)>,
                         semantic: map<ConversationId, real>, live: set<ConversationId>, limit: int) {
    var found := keyword.Keys + semantic.Keys;
    && (forall k :: 0 <= k < |hits| ==> hits[k].conversation in found && hits[k].conversation in live)
    && (forall k :: 0 <= k < |hits| ==> hits[k] == RowOf(mode, keyword, semantic, hits[k].conversation))
    && DistinctRows(hits) && Descending(hits)
    && |hits| <= (if limit <= 0 then 0 else limit)
    && (forall c :: c in found && c in live && RowOf(mode, keyword, semantic, c) !in hits ==>
          |hits| >= limit && AtMostAll(RowOf(mode, keyword, semantic, c).score, hits))
  }

  ghost predicate DistinctRows(rows: seq<Row>) {
    forall k, l :: 0 <= k < l < |rows| ==> rows[k].conversation != rows[l].conversation
  }

  ghost predicate AtMostAll(score: real, hits: seq<Row>) {
    forall k :: 0 <= k < |hits| ==> score <= hits[k].score
  }

  /** `hits` is a best-first choice of live rows, and a live row left out scores no more than any chosen. */
  ghost predicate Chosen(hits: seq<Row>, rows: seq<Row>, live: set<ConversationId>, limit: int) {
    && (forall r :: r in hits ==> r in rows && r.conversation in live)
    && DistinctRows(hits) && Descending(hits)
    && |hits| <= (if limit <= 0 then 0 else limit)
    && (forall r :: r in rows && r.conversation in live && r !in hits ==> |hits| >= limit && AtMostAll(r.score, hits))
  }

  lemma {:induction false} ChooseFirst(rows: seq<Row>, tail: seq<Row>, live: set<ConversationId>, limit: int)
    requires rows != [] && limit > 0 && rows[0].conversation in live
    requires DistinctRows(rows) && Descending(rows) && Chosen(tail, rows[1..], live, limit - 1)
    ensures Chosen([rows[0]] + tail, rows, live, limit)
  {
    assert rows == [rows[0]] + rows[1..];
    forall k | 0 <= k < |tail| ensures tail[k].conversation != rows[0].conversation && tail[k].score <= rows[0].score {
      assert tail[k] in rows[1..];
    }
    forall r | r in rows && r.conversation in live && r !in [rows[0]] + tail
      ensures |[rows[0]] + tail| >= limit && AtMostAll(r.score, [rows[0]] + tail)
    {
      assert r in rows[1..] && r !in tail;
    }
  }

  lemma {:induction false} SkipFirst(rows: seq<Row>, tail: seq<Row>, live: set<ConversationId>, limit: int)
    requires rows != [] && rows[0].conversation !in live && Chosen(tail, rows[1..], live, limit)
    ensures Chosen(tail, rows, live, limit)
  {
    assert rows == [rows[0]] + rows[1..];
  }

  lemma {:induction false} TakeLiveKeeps(rows: seq<Row>, live: set<ConversationId>, limit: int)
    requires Descending(rows) && DistinctRows(rows)
    ensures Chosen(TakeLive(rows, live, limit), rows, live, limit)
  {
    if rows != [] && limit > 0 {
      if rows[0].conversation in live {
        TakeLiveKeeps(rows[1..], live, limit - 1);
        ChooseFirst(rows, TakeLive(rows[1..], live, limit - 1), live, limit);
      } else {
        TakeLiveKeeps(rows[1..], live, limit);
        SkipFirst(rows, TakeLive(rows[1..], live, limit), live, limit);
      }
    }
  }

  lemma {:induction false} TakeStep(sorted: seq<Row>, live: set<ConversationId>, limit: int, hits: seq<Row>, i: nat)
    requires i < |sorted|
    ensures |hits| >= limit ==> hits + TakeLive(sorted[i..], live, limit - |hits|) == hits
    ensures |hits| < limit ==>
      var next := if sorted[i].conversation in live then hits + [sorted[i]] else hits;
      hits + TakeLive(sorted[i..], live, limit - |hits|) == next + TakeLive(sorted[i + 1..], live, limit - |next|)
  {
    assert sorted[i..][1..] == sorted[i + 1..];
  }

  /** Walk down a sorted list and keep live rows until the limit is reached. */
  method KeepLive(sorted: seq<Row>, live: set<ConversationId>, limit: int) returns (hits: seq<Row>)
    ensures hits == TakeLive(sorted, live, limit)
  {
    hits := [];
    var i := 0;
    while i < |sorted|
      invariant 0 <= i <= |sorted|
      invariant hits + TakeLive(sorted[i..], live, limit - |hits|) == TakeLive(sorted, live, limit)
    {
      TakeStep(sorted, live, limit, hits, i);
      if |hits| >= limit {
        return;
      }
      var row := sorted[i];
      if row.conversation in live {
        hits := hits + [row];
      }
      i := i + 1;
    }
  }

  /** The ranking: score everything found, sort, and keep the first live ones. */
  method Rank(mode: Mode, keyword: map<ConversationId, (real, MessageId)>, semantic: map<ConversationId, real>,
              live: set<ConversationId>, limit: int) returns (hits: seq<Row>)
    ensures Ranked(hits, mode, keyword, semantic, live, limit)
  {
    var scored := ScoreAll(mode, keyword, semantic);
    var sorted := SortByScore(scored);
    SortSorts(scored);
    SortedStaysDistinct(scored, sorted);
    hits := KeepLive(sorted, live, limit);
    TakeLiveKeeps(sorted, live, limit);
    SameMembers(sorted, scored);
    RankedFrom(hits, scored, sorted, mode, keyword, semantic, live, limit);
  }

  function KeywordSide(mode: Mode, hits: seq<KeywordHit>): seq<KeywordHit> {
    if mode.Semantic? then [] else hits
  }

  function SemanticSide(mode: Mode, hits: seq<SemanticHit>): seq<SemanticHit> {
    if mode.Keyword? then [] else hits
  }

  /** The parts of every score: normalized best ranks and best similarities, each side only in its modes. */
  ghost predicate Folded(mode: Mode, keywordHits: seq<KeywordHit>, semanticHits: seq<SemanticHit>,
                         keyword: map<ConversationId, (real, MessageId)>, semantic: map<ConversationId, real>) {
    && NormalizedFold(KeywordSide(mode, keywordHits), keyword)
    && BestSimilarity(SemanticSide(mode, semanticHits), semantic)
  }

  /** A search: each side queried only in its modes, folded to conversations, blended and ranked. With
      full-text ranks that are not negative every score shown lies in [0, 1]. */
  method SearchConversations(mode: Mode, keywordHits: seq<KeywordHit>, semanticHits: seq<SemanticHit>,
                             live: set<ConversationId>, limit: int)
    returns (hits: seq<Row>, ghost keyword: map<ConversationId, (real, MessageId)>, ghost semantic: map<ConversationId, real>)
    ensures Folded(mode, keywordHits, semanticHits, keyword, semantic)
    ensures Ranked(hits, mode, keyword, semantic, live, limit)
    ensures (forall i :: 0 <= i < |keywordHits| ==> keywordHits[i].rank >= 0.0) ==>
      forall k :: 0 <= k < |hits| ==> 0.0 <= hits[k].score <= 1.0
  {
    var forKeyword: seq<KeywordHit>, forSemantic: seq<SemanticHit> := [], [];
    if mode.Keyword? || mode.Hybrid? {
      forKeyword := keywordHits;
    }
    if mode.Semantic? || mode.Hybrid? {
      forSemantic := semanticHits;
    }
    var foldedKeyword := FoldKeyword(forKeyword);
    var foldedSemantic := FoldSemantic(forSemantic);
    assert forKeyword == KeywordSide(mode, keywordHits) && forSemantic == SemanticSide(mode, semanticHits);
    keyword, semantic := foldedKeyword, foldedSemantic;
    hits := Rank(mode, foldedKeyword, foldedSemantic, live, limit);
    if forall i :: 0 <= i < |keywordHits| ==> keywordHits[i].rank >= 0.0 {
      forall k | 0 <= k < |hits| ensures 0.0 <= hits[k].score <= 1.0 {
        RowInUnit(mode, forKeyword, foldedKeyword, foldedSemantic, hits[k].conversation);
      }
    }
  }

  lemma {:induction false} RowInUnit(mode: Mode, hits: seq<KeywordHit>, keyword: map<ConversationId, (real, MessageId)>,
                  semantic: map<ConversationId, real>, c: ConversationId)
    requires NormalizedFold(hits, keyword) && (forall i :: 0 <= i < |hits| ==> hits[i].rank >= 0.0)
    requires forall d :: d in semantic ==> 0.0 <= semantic[d] <= 1.0
    ensures 0.0 <= RowOf(mode, keyword, semantic, c).score <= 1.0
  {
    if c in keyword {
      NormalizedRanksAreInUnit(hits, keyword, c);
    }
    var row := RowOf(mode, keyword, semantic, c);
    ScoresAreInUnit(mode, row.keyword, row.semantic);
  }

  lemma {:induction false} SameMembers(a: seq<Row>, b: seq<Row>)
    requires multiset(a) == multiset(b)
    ensures forall r :: r in a <==> r in b
  {
    assert forall r :: r in a <==> r in multiset(a);
    assert forall r :: r in b <==> r in multiset(b);
  }

  lemma {:induction false} RankedFrom(hits: seq<Row>, scored: seq<Row>, sorted: seq<Row>, mode: Mode,
                   keyword: map<ConversationId, (real, MessageId)>, semantic: map<ConversationId, real>,
                   live: set<ConversationId>, limit: int)
    requires EveryRowOnce(scored, mode, keyword, semantic, keyword.Keys + semantic.Keys)
    requires (forall r :: r in sorted <==> r in scored) && Chosen(hits, sorted, live, limit)
    ensures Ranked(hits, mode, keyword, semantic, live, limit)
  {
    forall k | 0 <= k < |hits|
      ensures hits[k].conversation in keyword.Keys + semantic.Keys && hits[k].conversation in live
      ensures hits[k] == RowOf(mode, keyword, semantic, hits[k].conversation)
    {
      assert hits[k] in scored;
    }
  }

  lemma {:induction false} SortedStaysDistinct(rows: seq<Row>, sorted: seq<Row>)
    requires multiset(sorted) == multiset(rows)
    requires forall k, l :: 0 <= k < l < |rows| ==> rows[k].conversation != rows[l].conversation
    ensures forall k, l :: 0 <= k < l < |sorted| ==> sorted[k].conversation != sorted[l].conversation
  {
    forall k, l | 0 <= k < l < |sorted| ensures sorted[k].conversation != sorted[l].conversation {
      SameMembers(sorted, rows);
      assert sorted[k] in rows && sorted[l] in rows;
      CountTwo(sorted, k, l);
      CountOne(rows, sorted[k]);
    }
  }

  lemma {:induction false} CountTwo(s: seq<Row>, k: nat, l: nat)
    requires k < l < |s|
    ensures s[k] == s[l] ==> multiset(s)[s[k]] >= 2
  {
    assert s == s[..l] + [s[l]] + s[l + 1..];
    assert s[k] in s[..l];
  }

  lemma {:induction false} CountOne(s: seq<Row>, r: Row)
    requires forall k, l :: 0 <= k < l < |s| ==> s[k].conversation != s[l].conversation
    ensures multiset(s)[r] <= 1
  {
    if s != [] {
      CountOne(s[1..], r);
      assert s == [s[0]] + s[1..];
      if s[0] == r {
        assert r !in s[1..];
      }
    }
  }

  /** When the parts lie in [0, 1], so does every score. */
  lemma {:induction false} ScoresAreInUnit(mode: Mode, keyword: real, semantic: real)
    requires 0.0 <= keyword <= 1.0 && 0.0 <= semantic <= 1.0
    ensures 0.0 <= Blend(mode, keyword, semantic) <= 1.0
  {
  }

  // ---- What a listed conversation shows, from the hits themselves ----

  /** Similarity is one minus the distance, cut off at 0 and at 1. */
  predicate SimilarBy(distance: real, s: real) {
    && (0.0 <= distance <= 1.0 ==> s == 1.0 - distance)
    && (distance < 0.0 ==> s == 1.0) && (distance > 1.0 ==> s == 0.0)
  }

  /** The best rank of the conversation in units of the greatest rank, and the first message that has it; zero
      and no message when the keyword side did not find it. */
  ghost predicate ShowsKeyword(row: Row, hits: seq<KeywordHit>) {
    if exists i :: 0 <= i < |hits| && hits[i].conversation == row.conversation then
      exists i, top :: KeywordFrom(row, hits, i, top)
    else row.keyword == 0.0 && row.message.None?
  }

  ghost predicate KeywordFrom(row: Row, hits: seq<KeywordHit>, i: int, top: real) {
    && BestHit(hits, row.conversation, i) && GreatestRank(hits, top)
    && Units(row.keyword, top, hits[i].rank) && row.message == Some(hits[i].message)
  }

  /** `n` units of size `unit` make `whole`; a unit of size zero counts as one. */
  predicate Units(n: real, unit: real, whole: real) {
    if unit == 0.0 then n == whole else n * unit == whole
  }

  lemma {:induction false} ScaleIsUnit(whole: real, unit: real)
    ensures Units(whole / Scale(unit), unit, whole)
  {
    var n := whole / Scale(unit);
    assert n * Scale(unit) == whole;
  }

  lemma {:induction false} NobodyFound(hits: seq<KeywordHit>, keyword: map<ConversationId, (real, MessageId)>,
                                       c: ConversationId)
    requires NormalizedFold(hits, keyword)
    ensures c in keyword <==> exists i :: 0 <= i < |hits| && hits[i].conversation == c
  {
    var top :| Normalized(hits, keyword, top);
    if c in keyword {
      assert ScaledBest(hits, c, top, keyword[c]);
    }
  }

  lemma {:induction false} EntryShown(
    row: Row, hits: seq<KeywordHit>, top: real, entry: (real, MessageId))
    requires ScaledBest(hits, row.conversation, top, entry) && GreatestRank(hits, top)
    requires row.keyword == entry.0 && row.message == Some(entry.1)
    ensures exists i :: KeywordFrom(row, hits, i, top)
  {
    var i :| BestHit(hits, row.conversation, i) && entry == (hits[i].rank / Scale(top), hits[i].message);
    ScaleIsUnit(hits[i].rank, top);
    assert KeywordFrom(row, hits, i, top);
  }

  /** The greatest similarity of the conversation; zero when the semantic side did not find it. */
  ghost predicate ShowsSemantic(row: Row, hits: seq<SemanticHit>) {
    if exists i :: 0 <= i < |hits| && hits[i].conversation == row.conversation then
      && (exists i :: 0 <= i < |hits| && hits[i].conversation == row.conversation
            && SimilarBy(hits[i].distance, row.semantic))
      && forall i :: 0 <= i < |hits| && hits[i].conversation == row.conversation ==>
           exists s :: SimilarBy(hits[i].distance, s) && s <= row.semantic
    else row.semantic == 0.0
  }

  /** A row of a search: each side counts only in its modes, and in the hybrid mode both count half. */
  ghost predicate ShowsHits(row: Row, mode: Mode, keywordHits: seq<KeywordHit>, semanticHits: seq<SemanticHit>) {
    && ShowsKeyword(row, if mode.Semantic? then [] else keywordHits)
    && ShowsSemantic(row, if mode.Keyword? then [] else semanticHits)
    && (mode.Keyword? ==> row.score == row.keyword)
    && (mode.Semantic? ==> row.score == row.semantic)
    && (mode.Hybrid? ==> 2.0 * row.score == row.keyword + row.semantic)
  }

  ghost predicate Found(c: ConversationId, mode: Mode, keywordHits: seq<KeywordHit>, semanticHits: seq<SemanticHit>) {
    || (!mode.Semantic? && exists i :: 0 <= i < |keywordHits| && keywordHits[i].conversation == c)
    || (!mode.Keyword? && exists i :: 0 <= i < |semanticHits| && semanticHits[i].conversation == c)
  }

  lemma {:induction false} KeywordShown(
    row: Row, hits: seq<KeywordHit>, keyword: map<ConversationId, (real, MessageId)>)
    requires NormalizedFold(hits, keyword)
    requires row.keyword == if row.conversation in keyword then keyword[row.conversation].0 else 0.0
    requires row.message == if row.conversation in keyword then Some(keyword[row.conversation].1) else None
    ensures ShowsKeyword(row, hits)
    ensures row.conversation in keyword <==> exists i :: 0 <= i < |hits| && hits[i].conversation == row.conversation
  {
    NobodyFound(hits, keyword, row.conversation);
    if row.conversation in keyword {
      var top :| Normalized(hits, keyword, top);
      EntryShown(row, hits, top, keyword[row.conversation]);
    }
  }

  lemma {:induction false} SimilarityIs(distance: real)
    ensures SimilarBy(distance, Similarity(distance))
  {
  }

  lemma {:induction false} SemanticShown(row: Row, hits: seq<SemanticHit>, semantic: map<ConversationId, real>)
    requires BestSimilarity(hits, semantic)
    requires row.semantic == if row.conversation in semantic then semantic[row.conversation] else 0.0
    ensures ShowsSemantic(row, hits)
    ensures row.conversation in semantic <==> exists i :: 0 <= i < |hits| && hits[i].conversation == row.conversation
  {
    forall i | 0 <= i < |hits| && hits[i].conversation == row.conversation
      ensures exists s :: SimilarBy(hits[i].distance, s) && s <= row.semantic
    {
      SimilarityIs(hits[i].distance);
    }
    if row.conversation in semantic {
      var i :| 0 <= i < |hits| && hits[i].conversation == row.conversation
               && semantic[row.conversation] == Similarity(hits[i].distance);
      SimilarityIs(hits[i].distance);
    }
  }

  lemma {:induction false} RowShowsHits(
    row: Row, mode: Mode, keywordHits: seq<KeywordHit>, semanticHits: seq<SemanticHit>,
    keyword: map<ConversationId, (real, MessageId)>, semantic: map<ConversationId, real>)
    requires Folded(mode, keywordHits, semanticHits, keyword, semantic)
    requires row == RowOf(mode, keyword, semantic, row.conversation)
    ensures ShowsHits(row, mode, keywordHits, semanticHits)
    ensures row.conversation in keyword.Keys + semantic.Keys
       <==> Found(row.conversation, mode, keywordHits, semanticHits)
  {
    KeywordShown(row, KeywordSide(mode, keywordHits), keyword);
    SemanticShown(row, SemanticSide(mode, semanticHits), semantic);
  }

  /** Every listed conversation shows what its own hits say, and a live one that was found is left out only
      when the list is full of conversations that score at least as much. */
  lemma {:induction false} SearchShowsItsHits(
    hits: seq<Row>, mode: Mode, keywordHits: seq<KeywordHit>, semanticHits: seq<SemanticHit>,
    keyword: map<ConversationId, (real, MessageId)>, semantic: map<ConversationId, real>,
    live: set<ConversationId>, limit: int, c: ConversationId)
    requires Folded(mode, keywordHits, semanticHits, keyword, semantic)
    requires Ranked(hits, mode, keyword, semantic, live, limit)
    ensures forall k :: 0 <= k < |hits| ==> ShowsHits(hits[k], mode, keywordHits, semanticHits)
    ensures forall k :: 0 <= k < |hits| ==> Found(hits[k].conversation, mode, keywordHits, semanticHits)
    ensures Found(c, mode, keywordHits, semanticHits) && c in live ==>
      exists row: Row :: row.conversation == c && ShowsHits(row, mode, keywordHits, semanticHits)
                    && (row in hits || (|hits| >= limit && AtMostAll(row.score, hits)))
  {
    forall k | 0 <= k < |hits|
      ensures ShowsHits(hits[k], mode, keywordHits, semanticHits)
      ensures Found(hits[k].conversation, mode, keywordHits, semanticHits)
    {
      RowShowsHits(hits[k], mode, keywordHits, semanticHits, keyword, semantic);
    }
    var row := RowOf(mode, keyword, semantic, c);
    RowShowsHits(row, mode, keywordHits, semanticHits, keyword, semantic);
  }
}
