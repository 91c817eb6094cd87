/** Stripping, joining and searching text. */
module Text {

  /** The ranges of characters that `str.strip` and the pattern class for white space treat as blank. */
  const WHITE_SPACE: seq<(char, char)> := [
    ('\t', '\r'), ('\U{1C}', ' '), ('\U{85}', '\U{85}'), ('\U{A0}', '\U{A0}'), ('\U{1680}', '\U{1680}'),
    ('\U{2000}', '\U{200A}'), ('\U{2028}', '\U{2029}'), ('\U{202F}', '\U{202F}'), ('\U{205F}', '\U{205F}'),
    ('\U{3000}', '\U{3000}')]

  predicate InRanges(c: char, ranges: seq<(char, char)>) {
    ranges != [] && (ranges[0].0 <= c <= ranges[0].1 || InRanges(c, ranges[1..]))
  }

  predicate IsSpace(c: char) {
    InRanges(c, WHITE_SPACE)
  }

  lemma {:induction false} InRangesIff(c: char, ranges: seq<(char, char)>)
    ensures InRanges(c, ranges) <==> exists i :: 0 <= i < |ranges| && ranges[i].0 <= c <= ranges[i].1
  {
    if ranges != [] {
      InRangesIff(c, ranges[1..]);
      assert ranges == [ranges[0]] + ranges[1..];
    }
  }

  /** Of the ASCII characters, the white space is that: tab to carriage return, and the last four controls and
      the space. */
  lemma {:induction false} AsciiSpaces(c: char)
    requires c < '\U{80}'
    ensures IsSpace(c) <==> '\t' <= c <= '\r' || '\U{1C}' <= c <= ' '
  {
    InRangesIff(c, WHITE_SPACE);
    assert WHITE_SPACE[0] == ('\t', '\r') && WHITE_SPACE[1] == ('\U{1C}', ' ');
  }

  function SkipForward(s: string, trimmed: char -> bool, i: nat): nat
    requires i <= |s|
    decreases |s| - i
  {
    if i < |s| && trimmed(s[i]) then SkipForward(s, trimmed, i + 1) else i
  }

  function SkipBack(s: string, trimmed: char -> bool, j: nat): nat
    requires j <= |s|
    decreases j
  {
    if j > 0 && trimmed(s[j - 1]) then SkipBack(s, trimmed, j - 1) else j
  }

  lemma {:induction false} SkipForwardStops(s: string, trimmed: char -> bool, i: nat)
    requires i <= |s|
    ensures var r := SkipForward(s, trimmed, i);
            i <= r <= |s| && (forall k :: i <= k < r ==> trimmed(s[k])) && (r < |s| ==> !trimmed(s[r]))
    decreases |s| - i
  {
    if i < |s| && trimmed(s[i]) {
      SkipForwardStops(s, trimmed, i + 1);
    }
  }

  lemma {:induction false} SkipBackStops(s: string, trimmed: char -> bool, j: nat)
    requires j <= |s|
    ensures var r := SkipBack(s, trimmed, j);
            r <= j && (forall k :: r <= k < j ==> trimmed(s[k])) && (r > 0 ==> !trimmed(s[r - 1]))
    decreases j
  {
    if j > 0 && trimmed(s[j - 1]) {
      SkipBackStops(s, trimmed, j - 1);
    }
  }

  /** The first position not in the class, or the end. */
  function Lead(s: string, trimmed: char -> bool): nat {
    SkipForward(s, trimmed, 0)
  }

  /** One past the last position not in the class, or zero. */
  function Tail(s: string, trimmed: char -> bool): nat {
    SkipBack(s, trimmed, |s|)
  }

  function StripBy(s: string, trimmed: char -> bool): string {
    var i, j := Lead(s, trimmed), Tail(s, trimmed);
    if i < j <= |s| then s[i..j] else ""
  }

  /** What the two ends of a stripped text are. */
  lemma {:induction false} StripEnds(s: string, trimmed: char -> bool)
    ensures var i, j := Lead(s, trimmed), Tail(s, trimmed);
            && i <= |s| && (forall k :: 0 <= k < i ==> trimmed(s[k])) && (i < |s| ==> !trimmed(s[i]))
            && j <= |s| && (forall k :: j <= k < |s| ==> trimmed(s[k])) && (j > 0 ==> !trimmed(s[j - 1]))
  {
    SkipForwardStops(s, trimmed, 0);
    SkipBackStops(s, trimmed, |s|);
  }

  function Strip(s: string): string {
    StripBy(s, IsSpace)
  }

  ghost predicate AllIn(s: string, trimmed: char -> bool) {
    forall k :: 0 <= k < |s| ==> trimmed(s[k])
  }

  ghost predicate Blank(s: string) {
    AllIn(s, IsSpace)
  }

  ghost predicate OccursAt(s: string, part: string, i: nat) {
    i + |part| <= |s| && forall k :: 0 <= k < |part| ==> part[k] == s[i + k]
  }

  ghost predicate Contains(s: string, part: string) {
    exists i: nat :: OccursAt(s, part, i)
  }

  lemma {:induction false} StripByIsEmptyIff(s: string, trimmed: char -> bool)
    ensures StripBy(s, trimmed) == "" <==> AllIn(s, trimmed)
    ensures StripBy(s, trimmed) != "" <==> Lead(s, trimmed) < Tail(s, trimmed)
  {
    StripEnds(s, trimmed);
    var i, j := Lead(s, trimmed), Tail(s, trimmed);
    if i < j {
      assert !trimmed(s[i]);
    } else {
      forall k | 0 <= k < |s| ensures trimmed(s[k]) {
        assert k < i || j <= k;
      }
    }
  }

  lemma {:induction false} StripIsEmptyIffBlank(s: string)
    ensures Strip(s) == "" <==> Blank(s)
  {
    StripByIsEmptyIff(s, IsSpace);
  }

  /** Stripping keeps everything between two characters it must keep, at its own place. */
  lemma {:induction false} StripByKeepsInner(s: string, trimmed: char -> bool, i: nat, j: nat)
    requires i < j <= |s| && !trimmed(s[i]) && !trimmed(s[j - 1])
    ensures var lead, t := Lead(s, trimmed), StripBy(s, trimmed);
            && lead <= i && j <= lead + |t| <= |s|
            && forall k :: 0 <= k < |t| ==> t[k] == s[lead + k]
  {
    StripEnds(s, trimmed);
  }

  lemma {:induction false} StripByKeepsPart(s: string, part: string, at: nat, trimmed: char -> bool)
    requires OccursAt(s, part, at) && Lead(part, trimmed) < Tail(part, trimmed)
    ensures Contains(StripBy(s, trimmed), StripBy(part, trimmed))
  {
    StripEnds(part, trimmed);
    var i, j, lead := Lead(part, trimmed), Tail(part, trimmed), Lead(s, trimmed);
    assert part[i] == s[at + i] && part[j - 1] == s[at + (j - 1)];
    StripByKeepsInner(s, trimmed, at + i, at + j);
    var inner, whole := StripBy(part, trimmed), StripBy(s, trimmed);
    forall k | 0 <= k < |inner| ensures inner[k] == whole[at + i - lead + k] {
      assert inner[k] == part[i + k] == s[at + (i + k)];
    }
    assert OccursAt(whole, inner, at + i - lead);
  }

  /** A part whose own ends must be kept survives the stripping of the whole. */
  lemma {:induction false} StripKeepsStrippedPart(s: string, part: string, at: nat)
    requires OccursAt(s, part, at) && !Blank(part)
    ensures Contains(Strip(s), Strip(part))
  {
    StripByIsEmptyIff(part, IsSpace);
    StripByKeepsPart(s, part, at, IsSpace);
  }

  lemma {:induction false} StripByIsIdempotent(s: string, trimmed: char -> bool)
    ensures StripBy(StripBy(s, trimmed), trimmed) == StripBy(s, trimmed)
  {
    var t := StripBy(s, trimmed);
    StripEnds(s, trimmed);
    StripEnds(t, trimmed);
    if t != "" {
      assert !trimmed(t[0]) && !trimmed(t[|t| - 1]);
    }
  }

  /** Where the ends to be kept are known, so is the result. */
  lemma {:induction false} StripBetween(s: string, trimmed: char -> bool, i: nat, j: nat)
    requires i < j <= |s| && !trimmed(s[i]) && !trimmed(s[j - 1])
    requires (forall k :: 0 <= k < i ==> trimmed(s[k])) && (forall k :: j <= k < |s| ==> trimmed(s[k]))
    ensures StripBy(s, trimmed) == s[i..j]
  {
    StripEnds(s, trimmed);
  }

  /** `t` is `s` without the edge characters at its two ends, taken off at position `i`. */
  ghost predicate TrimmedAt(s: string, edge: char -> bool, t: string, i: nat) {
    && i + |t| <= |s| && t == s[i..i + |t|]
    && (forall k :: 0 <= k < i ==> edge(s[k])) && (forall k :: i + |t| <= k < |s| ==> edge(s[k]))
    && (t != "" ==> !edge(t[0]) && !edge(t[|t| - 1]))
  }

  ghost predicate IsTrim(s: string, edge: char -> bool, t: string) {
    exists i: nat :: TrimmedAt(s, edge, t, i)
  }

  /** Stripping takes off the edge characters at both ends and nothing else. */
  lemma {:induction false} StripByIsTrim(s: string, trimmed: char -> bool, edge: char -> bool)
    requires forall c: char :: edge(c) <==> trimmed(c)
    ensures IsTrim(s, edge, StripBy(s, trimmed))
  {
    StripEnds(s, trimmed);
    StripByIsEmptyIff(s, trimmed);
    var i, j, t := Lead(s, trimmed), Tail(s, trimmed), StripBy(s, trimmed);
    if i < j {
      assert TrimmedAt(s, edge, t, i);
    } else {
      assert TrimmedAt(s, edge, "", 0);
    }
  }

  /** There is one way to do that. */
  lemma {:induction false} TrimIsUnique(s: string, edge: char -> bool, t: string, u: string)
    requires IsTrim(s, edge, t) && IsTrim(s, edge, u)
    ensures t == u
  {
    var i: nat :| TrimmedAt(s, edge, t, i);
    var j: nat :| TrimmedAt(s, edge, u, j);
    SameTrim(s, edge, t, i, u, j);
    SameTrim(s, edge, u, j, t, i);
  }

  lemma {:induction false} SameTrim(s: string, edge: char -> bool, t: string, i: nat, u: string, j: nat)
    requires TrimmedAt(s, edge, t, i) && TrimmedAt(s, edge, u, j)
    ensures t != "" ==> j <= i && i + |t| <= j + |u|
  {
    if t != "" {
      assert t[0] == s[i] && t[|t| - 1] == s[i + |t| - 1];
    }
  }

  lemma {:induction false} OccurrenceStarts(s: string, part: string, i: nat)
    requires part != ""
    ensures OccursAt(s, part, i) ==> i < |s| && s[i] == part[0]
  {
    if OccursAt(s, part, i) {
      assert part[0] == s[i + 0];
    }
  }

  /** A text that lacks the first character of `part` does not contain it. */
  lemma {:induction false} LacksFirst(s: string, part: string)
    requires part != "" && part[0] !in s
    ensures !Contains(s, part)
  {
    forall i: nat ensures !OccursAt(s, part, i) {
      OccurrenceStarts(s, part, i);
    }
  }

  function Join(separator: string, parts: seq<string>): string {
    if parts == [] then ""
    else if |parts| == 1 then parts[0]
    else Join(separator, parts[..|parts| - 1]) + separator + parts[|parts| - 1]
  }

  lemma {:induction false} OccursInLonger(s: string, more: string, part: string, at: nat)
    requires OccursAt(s, part, at)
    ensures OccursAt(s + more, part, at)
  {
  }

  /** Every part stands in the joined text. */
  lemma {:induction false} JoinContains(separator: string, parts: seq<string>, i: nat) returns (at: nat)
    requires i < |parts|
    ensures OccursAt(Join(separator, parts), parts[i], at)
    decreases |parts|
  {
    if |parts| == 1 {
      at := 0;
    } else if i == |parts| - 1 {
      at := |Join(separator, parts[..|parts| - 1]) + separator|;
    } else {
      var init := parts[..|parts| - 1];
      at := JoinContains(separator, init, i);
      assert init[i] == parts[i];
      OccursInLonger(Join(separator, init), separator + parts[|parts| - 1], parts[i], at);
      assert Join(separator, parts) == Join(separator, init) + (separator + parts[|parts| - 1]);
    }
  }

  /** Where part `i` starts in the joined text. */
  function Offset(separator: string, parts: seq<string>, i: nat): nat
    requires i < |parts|
  {
    if i == 0 then 0 else Offset(separator, parts, i - 1) + |parts[i - 1]| + |separator|
  }

  lemma {:induction false} OffsetOfPrefix(separator: string, parts: seq<string>, n: nat, i: nat)
    requires i < n <= |parts|
    ensures Offset(separator, parts[..n], i) == Offset(separator, parts, i)
  {
    if i > 0 {
      OffsetOfPrefix(separator, parts, n, i - 1);
    }
  }

  /** Part `i` stands at `at`, with a separator before it unless it is the first, and at the end if it is the last. */
  ghost predicate LaidOut(text: string, separator: string, part: string, at: nat, first: bool, last: bool) {
    && OccursAt(text, part, at)
    && (!first ==> |separator| <= at && OccursAt(text, separator, at - |separator|))
    && (last ==> |text| == at + |part|)
  }

  lemma {:induction false} LaidOutInLonger(
    text: string, more: string, separator: string, part: string, at: nat, first: bool, last: bool)
    requires LaidOut(text, separator, part, at, first, last)
    ensures LaidOut(text + more, separator, part, at, first, false)
  {
    OccursInLonger(text, more, part, at);
    if !first {
      OccursInLonger(text, more, separator, at - |separator|);
    }
  }

  lemma {:induction false} LastIsLaidOut(text: string, separator: string, last: string)
    ensures LaidOut(text + separator + last, separator, last, |text| + |separator|, false, true)
  {
  }

  /** The joined text is the parts in order with one separator between neighbours, and nothing else. */
  lemma {:induction false} JoinLayout(separator: string, parts: seq<string>, i: nat)
    requires i < |parts|
    ensures LaidOut(Join(separator, parts), separator, parts[i], Offset(separator, parts, i), i == 0, i == |parts| - 1)
    decreases |parts|
  {
    if |parts| > 1 {
      var init, last := parts[..|parts| - 1], parts[|parts| - 1];
      var text := Join(separator, init);
      if i < |init| {
        JoinLayout(separator, init, i);
        OffsetOfPrefix(separator, parts, |init|, i);
        LaidOutInLonger(text, separator + last, separator, parts[i], Offset(separator, parts, i), i == 0,
                        i == |init| - 1);
        assert Join(separator, parts) == text + (separator + last);
      } else {
        JoinLayout(separator, init, |init| - 1);
        OffsetOfPrefix(separator, parts, |init|, |init| - 1);
        LastIsLaidOut(text, separator, last);
      }
    }
  }

  /** A joined text is blank exactly when the separator, if used, and all parts are. */
  lemma {:induction false} JoinBlank(separator: string, parts: seq<string>)
    requires Blank(separator)
    ensures Blank(Join(separator, parts)) <==> forall i :: 0 <= i < |parts| ==> Blank(parts[i])
    decreases |parts|
  {
    if |parts| > 1 {
      var init, last := parts[..|parts| - 1], parts[|parts| - 1];
      JoinBlank(separator, init);
      var whole := Join(separator, parts);
      if Blank(whole) {
        forall k | 0 <= k < |Join(separator, init)| ensures IsSpace(Join(separator, init)[k]) {
          assert whole[k] == Join(separator, init)[k];
        }
        forall k | 0 <= k < |last| ensures IsSpace(last[k]) {
          assert whole[|Join(separator, init)| + |separator| + k] == last[k];
        }
        forall i | 0 <= i < |parts| ensures Blank(parts[i]) {
          assert i < |parts| - 1 ==> parts[i] == init[i];
        }
      } else {
        assert forall i :: 0 <= i < |init| ==> parts[i] == init[i];
      }
    }
  }
}
