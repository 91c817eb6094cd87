/** Splitting a request at its connectives. */
module Splitting {
  import opened Wrappers
  import opened Text

  /** In the order in which they are tried at one position. */
  const CONNECTIVES: seq<string> := [
    " and then ", " then also ", " and after that ", " after that ", ", and then ", ", then ", " then ", ", and ",
    " and also ", " and ", ";", ","]

  const MIN_CLAUSE_CHARS: nat := 8

  function Lower(c: char): char {
    if 'A' <= c <= 'Z' then (c as int + 32) as char else c
  }

  function LowerAll(s: string): string {
    seq(|s|, i requires 0 <= i < |s| => Lower(s[i]))
  }

  predicate MatchesAt(text: string, i: nat, c: string) {
    i + |c| <= |text| && forall k :: 0 <= k < |c| ==> Lower(text[i + k]) == c[k]
  }

  /** The first listed connective, from the `from`-th on, that matches at position `i`. */
  function FirstMatch(text: string, i: nat, cs: seq<string>, from: nat): (r: Option<nat>)
    requires from <= |cs|
    ensures r.Some? ==> from <= r.value < |cs| && MatchesAt(text, i, cs[r.value])
    ensures forall j :: from <= j < (if r.Some? then r.value else |cs|) ==> !MatchesAt(text, i, cs[j])
    decreases |cs| - from
  {
    if from == |cs| then None
    else if MatchesAt(text, i, cs[from]) then Some(from)
    else FirstMatch(text, i, cs, from + 1)
  }

  ghost predicate NoneEmpty(cs: seq<string>) {
    forall j :: 0 <= j < |cs| ==> cs[j] != ""
  }

  /** No connective is a proper prefix of one that is tried later. */
  ghost predicate LongestFirst(cs: seq<string>) {
    forall i, j :: 0 <= i < j < |cs| ==> !(cs[i] < cs[j])
  }

  /** The length of the first listed connective that matches at a position; zero when none does. */
  function Matcher(text: string, cs: seq<string>): nat -> nat {
    (p: nat) => if FirstMatch(text, p, cs, 0).Some? then |cs[FirstMatch(text, p, cs, 0).value]| else 0
  }

  /** The pieces and the connectives between them, alternating, from a piece that starts at `start`;
      nothing was found between `start` and `i`. */
  function Split(text: string, length: nat -> nat, start: nat, i: nat): seq<string>
    requires start <= i <= |text|
    decreases |text| - i
  {
    if i == |text| then [text[start..]]
    else if length(i) == 0 || i + length(i) > |text| then Split(text, length, start, i + 1)
    else
      var end := i + length(i);
      [text[start..i], text[i..end]] + Split(text, length, end, end)
  }

  function SplitRequest(text: string): seq<string> {
    Split(text, Matcher(text, CONNECTIVES), 0, 0)
  }

  // ---- What a split is, without saying how it is found ----

  /** Whether some connective of length `n` stands at position `p`. */
  ghost function Stands(text: string, cs: seq<string>): (nat, nat) -> bool {
    (p: nat, n: nat) => exists j :: 0 <= j < |cs| && |cs[j]| == n && MatchesAt(text, p, cs[j])
  }

  ghost predicate Proper(text: string, stands: (nat, nat) -> bool) {
    forall p: nat, n: nat :: stands(p, n) ==> 0 < n && p + n <= |text|
  }

  ghost predicate NoneStarts(stands: (nat, nat) -> bool, from: nat, to: nat) {
    forall p: nat, n: nat :: from <= p < to ==> !stands(p, n)
  }

  ghost predicate LongestAt(stands: (nat, nat) -> bool, p: nat, n: nat) {
    stands(p, n) && forall m: nat :: stands(p, m) ==> m <= n
  }

  /** `parts` is the text from `start` on, cut at the leftmost connectives, each as long as possible. */
  ghost predicate IsSplit(text: string, stands: (nat, nat) -> bool, start: nat, parts: seq<string>)
    decreases |parts|
  {
    && start <= |text| && parts != []
    && var at := start + |parts[0]|;
       && at <= |text| && parts[0] == text[start..at] && NoneStarts(stands, start, at)
       && if |parts| == 1 then at == |text|
          else
            var end := at + |parts[1]|;
            && end <= |text| && parts[1] == text[at..end]
            && LongestAt(stands, at, |parts[1]|)
            && IsSplit(text, stands, end, parts[2..])
  }

  lemma {:induction false} TwoMatchesArePrefixes(text: string, i: nat, a: string, b: string)
    requires MatchesAt(text, i, a) && MatchesAt(text, i, b) && |a| <= |b|
    ensures a <= b
  {
    forall k | 0 <= k < |a| ensures a[k] == b[k] {
      assert Lower(text[i + k]) == a[k];
    }
  }

  /** `length` finds, at every position, the longest connective that stands there. */
  ghost predicate FindsLongest(length: nat -> nat, stands: (nat, nat) -> bool) {
    forall p: nat :: if length(p) > 0 then LongestAt(stands, p, length(p)) else NoneStarts(stands, p, p + 1)
  }

  /** Trying an ordered list finds the longest connective. */
  lemma {:induction false} FirstMatchIsLongest(text: string, cs: seq<string>)
    requires NoneEmpty(cs) && LongestFirst(cs)
    ensures FindsLongest(Matcher(text, cs), Stands(text, cs)) && Proper(text, Stands(text, cs))
  {
    forall p: nat, n: nat | Stands(text, cs)(p, n) ensures 0 < n && p + n <= |text| {
      var j :| 0 <= j < |cs| && |cs[j]| == n && MatchesAt(text, p, cs[j]);
      assert MatchesAt(text, p, cs[j]) && cs[j] != "";
    }
    forall p: nat | Matcher(text, cs)(p) > 0
      ensures LongestAt(Stands(text, cs), p, Matcher(text, cs)(p))
    {
      var m := FirstMatch(text, p, cs, 0).value;
      forall j | 0 <= j < |cs| && MatchesAt(text, p, cs[j]) ensures |cs[j]| <= |cs[m]| {
        if |cs[m]| < |cs[j]| {
          TwoMatchesArePrefixes(text, p, cs[m], cs[j]);
        }
      }
    }
  }

  lemma {:induction false} SplitCons(
    text: string, stands: (nat, nat) -> bool, start: nat, i: nat, end: nat, rest: seq<string>)
    requires start <= i <= end <= |text|
    requires NoneStarts(stands, start, i) && LongestAt(stands, i, end - i) && IsSplit(text, stands, end, rest)
    ensures IsSplit(text, stands, start, [text[start..i], text[i..end]] + rest)
  {
    var parts := [text[start..i], text[i..end]] + rest;
    assert parts[2..] == rest;
    assert start + |parts[0]| == i && i + |parts[1]| == end;
  }

  /** Scanning from left to right gives a leftmost-longest split. */
  lemma {:induction false} SplitIsLeftmostLongest(
    text: string, length: nat -> nat, stands: (nat, nat) -> bool, start: nat, i: nat)
    requires start <= i <= |text| && FindsLongest(length, stands) && Proper(text, stands)
    requires NoneStarts(stands, start, i)
    ensures IsSplit(text, stands, start, Split(text, length, start, i))
    decreases |text| - i
  {
    if i < |text| {
      if length(i) == 0 {
        assert NoneStarts(stands, i, i + 1);
        SplitIsLeftmostLongest(text, length, stands, start, i + 1);
      } else {
        assert LongestAt(stands, i, length(i));
        var end := i + length(i);
        SplitIsLeftmostLongest(text, length, stands, end, end);
        SplitCons(text, stands, start, i, end, Split(text, length, end, end));
      }
    }
  }

  lemma {:induction false} SameFromParts(a: seq<string>, b: seq<string>)
    requires |a| > 1 && |b| > 1 && a[0] == b[0] && a[1] == b[1] && a[2..] == b[2..]
    ensures a == b
  {
    assert a == [a[0], a[1]] + a[2..] && b == [b[0], b[1]] + b[2..];
  }

  /** There is only one such split, so the scan computes it. */
  lemma {:induction false} SplitIsUnique(
    text: string, stands: (nat, nat) -> bool, start: nat, a: seq<string>, b: seq<string>)
    requires Proper(text, stands) && IsSplit(text, stands, start, a) && IsSplit(text, stands, start, b)
    ensures a == b
    decreases |a|
  {
    SameFirst(text, stands, start, a, b);
    if |a| > 1 {
      SplitIsUnique(text, stands, start + |a[0]| + |a[1]|, a[2..], b[2..]);
      SameFromParts(a, b);
    }
  }

  lemma {:induction false} SameFirst(
    text: string, stands: (nat, nat) -> bool, start: nat, a: seq<string>, b: seq<string>)
    requires Proper(text, stands) && IsSplit(text, stands, start, a) && IsSplit(text, stands, start, b)
    ensures a[0] == b[0] && (|a| == 1 <==> |b| == 1)
    ensures |a| == 1 ==> a == b
    ensures |a| > 1 ==> a[1] == b[1]
  {
    var x, y := start + |a[0]|, start + |b[0]|;
    assert |a| > 1 ==> stands(x, |a[1]|);
    assert |b| > 1 ==> stands(y, |b[1]|);
    assert x == y;
  }

  function Concat(parts: seq<string>): string {
    if parts == [] then "" else parts[0] + Concat(parts[1..])
  }

  lemma {:induction false} ConcatFirstTwo(parts: seq<string>)
    requires |parts| > 1
    ensures Concat(parts) == parts[0] + parts[1] + Concat(parts[2..])
  {
    assert parts[1..][1..] == parts[2..];
    assert Concat(parts) == parts[0] + (parts[1] + Concat(parts[2..]));
  }

  lemma {:induction false} ThreeSlices(text: string, start: nat, at: nat, end: nat)
    requires start <= at <= end <= |text|
    ensures text[start..at] + text[at..end] + text[end..] == text[start..]
  {
  }

  /** Nothing is lost: the parts in order give the text back. */
  lemma {:induction false} SplitIsLossless(text: string, stands: (nat, nat) -> bool, start: nat, parts: seq<string>)
    requires IsSplit(text, stands, start, parts)
    ensures Concat(parts) == text[start..] && |parts| % 2 == 1
    decreases |parts|
  {
    if |parts| > 1 {
      var at := start + |parts[0]|;
      var end := at + |parts[1]|;
      SplitIsLossless(text, stands, end, parts[2..]);
      ConcatFirstTwo(parts);
      ThreeSlices(text, start, at, end);
    } else {
      assert parts[1..] == [];
    }
  }

  lemma {:induction false} MatchInPieceIsMatchInText(text: string, start: nat, piece: string, i: nat, c: string)
    requires start + |piece| <= |text| && piece == text[start..start + |piece|]
    ensures MatchesAt(piece, i, c) ==> MatchesAt(text, start + i, c)
  {
    if MatchesAt(piece, i, c) {
      forall k | 0 <= k < |c| ensures Lower(text[start + i + k]) == c[k] {
        assert piece[i + k] == text[start + i + k];
      }
    }
  }

  /** No piece contains a whole connective. */
  lemma {:induction false} PiecesHoldNoConnective(
    text: string, cs: seq<string>, start: nat, parts: seq<string>, k: nat, i: nat, j: nat)
    requires NoneEmpty(cs) && IsSplit(text, Stands(text, cs), start, parts)
    requires 2 * k < |parts| && j < |cs|
    ensures !MatchesAt(parts[2 * k], i, cs[j])
    decreases |parts|
  {
    if k == 0 {
      MatchInPieceIsMatchInText(text, start, parts[0], i, cs[j]);
      assert cs[j] != "";
      assert i < |parts[0]| ==> !Stands(text, cs)(start + i, |cs[j]|);
    } else {
      var end := start + |parts[0]| + |parts[1]|;
      assert parts[2..][2 * (k - 1)] == parts[2 * k];
      PiecesHoldNoConnective(text, cs, end, parts[2..], k - 1, i, j);
    }
  }

  /** Where a longer, later connective first differs from an earlier one. */
  function DifferenceAt(i: nat, j: nat): nat {
    if i == 0 && j == 2 then 5
    else if i == 0 && j == 3 then 2
    else if j == 4 || i == 5 || i == 7 then 0
    else 1
  }

  /** The list in use is usable: its order never prefers a shorter connective over a longer one. */
  lemma {:induction false} ConnectivesAreLongestFirst()
    ensures NoneEmpty(CONNECTIVES) && LongestFirst(CONNECTIVES)
  {
    forall i, j | 0 <= i < j < |CONNECTIVES| ensures !(CONNECTIVES[i] < CONNECTIVES[j]) {
      var a, b := CONNECTIVES[i], CONNECTIVES[j];
      if |a| < |b| {
        assert a[DifferenceAt(i, j)] != b[DifferenceAt(i, j)];
      }
    }
  }

  /** For the list in use: the scan gives the one leftmost-longest split, and it loses nothing. */
  lemma {:induction false} RequestsSplitLosslessly(text: string)
    ensures var parts, stands := SplitRequest(text), Stands(text, CONNECTIVES);
            && IsSplit(text, stands, 0, parts)
            && (forall other :: IsSplit(text, stands, 0, other) ==> other == parts)
            && Concat(parts) == text && |parts| % 2 == 1
  {
    ConnectivesAreLongestFirst();
    FirstMatchIsLongest(text, CONNECTIVES);
    TheSplit(text, Matcher(text, CONNECTIVES), Stands(text, CONNECTIVES));
  }

  lemma {:induction false} TheSplit(text: string, length: nat -> nat, stands: (nat, nat) -> bool)
    requires FindsLongest(length, stands) && Proper(text, stands)
    ensures var parts := Split(text, length, 0, 0);
            && IsSplit(text, stands, 0, parts)
            && (forall other :: IsSplit(text, stands, 0, other) ==> other == parts)
            && Concat(parts) == text && |parts| % 2 == 1
  {
    SplitIsLeftmostLongest(text, length, stands, 0, 0);
    var parts := Split(text, length, 0, 0);
    SplitIsLossless(text, stands, 0, parts);
    forall other | IsSplit(text, stands, 0, other) ensures other == parts {
      SplitIsUnique(text, stands, 0, other, parts);
    }
  }

  // ---- Clauses ----

  datatype Clause = Clause(text: string, join: string)

  const CLAUSE_EDGES: string := " ,.;"
  const JOIN_EDGES: string := " ,"

  predicate IsClauseEdge(c: char) {
    c in CLAUSE_EDGES
  }

  predicate IsJoinEdge(c: char) {
    c in JOIN_EDGES
  }

  /** The clause at an even position of the parts, with the connective immediately before it. */
  function ClauseAt(parts: seq<string>, i: nat): Clause
    requires i < |parts|
  {
    Clause(StripBy(parts[i], IsClauseEdge),
           if i > 0 then LowerAll(StripBy(parts[i - 1], IsJoinEdge)) else "")
  }

  function ClauseTable(parts: seq<string>): nat -> Clause {
    (i: nat) => if i < |parts| then ClauseAt(parts, i) else Clause("", "")
  }

  ghost predicate KeptAt(table: nat -> Clause, i: nat) {
    i % 2 == 0 && |table(i).text| >= MIN_CLAUSE_CHARS
  }

  ghost predicate KeepsUpTo(table: nat -> Clause, clauses: seq<Clause>, at: seq<nat>, end: nat) {
    && |clauses| == |at|
    && (forall k :: 0 <= k < |at| ==> at[k] < end && KeptAt(table, at[k]) && clauses[k] == table(at[k]))
    && (forall k, l :: 0 <= k < l < |at| ==> at[k] < at[l])
    && (forall i: nat :: i < end && KeptAt(table, i) ==> i in at)
  }

  lemma {:induction false} KeepsMore(table: nat -> Clause, clauses: seq<Clause>, at: seq<nat>, i: nat)
    requires i % 2 == 0 && KeepsUpTo(table, clauses, at, i)
    ensures if KeptAt(table, i) then KeepsUpTo(table, clauses + [table(i)], at + [i], i + 2)
            else KeepsUpTo(table, clauses, at, i + 2)
  {
    var more := if KeptAt(table, i) then at + [i] else at;
    forall j: nat | j < i + 2 && KeptAt(table, j) ensures j in more {
      if j < i {
        assert j in at;
      }
    }
  }

  lemma {:induction false} NoPartBeyond(parts: seq<string>)
    ensures forall i: nat :: |parts| <= i ==> !KeptAt(ClauseTable(parts), i)
  {
  }

  lemma {:induction false} KeepsWithin(table: nat -> Clause, clauses: seq<Clause>, at: seq<nat>, end: nat, n: nat)
    requires KeepsUpTo(table, clauses, at, end) && n <= end && forall i: nat :: n <= i ==> !KeptAt(table, i)
    ensures KeepsUpTo(table, clauses, at, n)
  {
  }

  /** `clauses` are the clauses that are long enough, in order, each with the connective immediately
      before it: for some positions `at`, all that qualify. Nothing else is dropped. */
  ghost predicate AreClauses(parts: seq<string>, clauses: seq<Clause>) {
    exists at :: KeepsUpTo(ClauseTable(parts), clauses, at, |parts|)
  }

  /** The clause at a position, trimmed, with the connective before it. */
  method ReadClause(parts: seq<string>, index: nat) returns (c: Clause)
    requires index < |parts|
    ensures c == ClauseTable(parts)(index)
  {
    var clause := StripBy(parts[index], IsClauseEdge);
    var join := if index > 0 then LowerAll(StripBy(parts[index - 1], IsJoinEdge)) else "";
    c := Clause(clause, join);
  }

  method Segments(parts: seq<string>) returns (clauses: seq<Clause>)
    ensures AreClauses(parts, clauses)
  {
    clauses := [];
    ghost var at: seq<nat> := [];
    var index := 0;
    ghost var table := ClauseTable(parts);
    while index < |parts|
      invariant 0 <= index <= |parts| + 1 && index % 2 == 0
      invariant KeepsUpTo(table, clauses, at, index)
    {
      KeepsMore(table, clauses, at, index);
      var clause := ReadClause(parts, index);
      if |clause.text| >= MIN_CLAUSE_CHARS {
        clauses := clauses + [clause];
        at := at + [index];
      }
      index := index + 2;
    }
    NoPartBeyond(parts);
    KeepsWithin(table, clauses, at, index, |parts|);
  }

  ghost predicate Increasing(s: seq<nat>) {
    forall k, l :: 0 <= k < l < |s| ==> s[k] < s[l]
  }

  lemma {:induction false} Member(s: seq<nat>)
    ensures s == [] || s[0] in s
  {
  }

  ghost predicate SameMembers(x: seq<nat>, y: seq<nat>) {
    forall n :: n in x <==> n in y
  }

  lemma {:induction false} SameLast(x: seq<nat>, y: seq<nat>)
    requires Increasing(x) && Increasing(y) && SameMembers(x, y) && x != [] && y != []
    ensures x[|x| - 1] == y[|y| - 1]
  {
    assert x[|x| - 1] in y && y[|y| - 1] in x;
  }

  lemma {:induction false} WithoutLast(x: seq<nat>, n: nat)
    requires Increasing(x) && x != []
    ensures n in x[..|x| - 1] <==> n in x && n != x[|x| - 1]
  {
    assert x == x[..|x| - 1] + [x[|x| - 1]];
  }

  /** Two increasing lists of the same numbers are the same list. */
  lemma {:induction false} SameIncreasing(x: seq<nat>, y: seq<nat>)
    requires Increasing(x) && Increasing(y) && SameMembers(x, y)
    ensures x == y
    decreases |x|
  {
    Member(x);
    Member(y);
    if x != [] && y != [] {
      SameLast(x, y);
      var xs, ys := x[..|x| - 1], y[..|y| - 1];
      forall n ensures n in xs <==> n in ys {
        WithoutLast(x, n);
        WithoutLast(y, n);
      }
      SameIncreasing(xs, ys);
      assert x == xs + [x[|x| - 1]] && y == ys + [y[|y| - 1]];
    }
  }

  lemma {:induction false} KeptClausesAgree(
    table: nat -> Clause, a: seq<Clause>, x: seq<nat>, b: seq<Clause>, y: seq<nat>, end: nat)
    requires KeepsUpTo(table, a, x, end) && KeepsUpTo(table, b, y, end)
    ensures a == b
  {
    forall n ensures n in x <==> n in y {
      assert n in x ==> n < end && KeptAt(table, n);
      assert n in y ==> n < end && KeptAt(table, n);
    }
    SameIncreasing(x, y);
  }

  /** The parts determine the clauses, so a request has exactly one list of clauses. */
  lemma {:induction false} ClausesAreUnique(parts: seq<string>, a: seq<Clause>, b: seq<Clause>)
    requires AreClauses(parts, a) && AreClauses(parts, b)
    ensures a == b
  {
    var x :| KeepsUpTo(ClauseTable(parts), a, x, |parts|);
    var y :| KeepsUpTo(ClauseTable(parts), b, y, |parts|);
    KeptClausesAgree(ClauseTable(parts), a, x, b, y, |parts|);
  }
}
