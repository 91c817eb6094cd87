/** Segments with provenance: Markdown sections and CSV row groups. */
module Extraction {
  import opened Wrappers
  import opened Text
  import opened Chunking

  const CSV_ROWS_PER_SEGMENT: nat := 25

  // ---- Markdown ----

  function Hashes(line: string, most: nat): nat {
    if most > 0 && line != "" && line[0] == '#' then 1 + Hashes(line[1..], most - 1) else 0
  }

  /** The title of an ATX heading line: one to six hashes, white space, then the title. */
  function HeadingTitle(line: string): Option<string> {
    var h := Hashes(line, 6);
    if 0 < h < |line| && IsSpace(line[h]) then Some(Strip(line[h..])) else None
  }

  /** The title of the last heading at or before line `i`. */
  function SectionAt(lines: seq<string>, i: nat): Option<string>
    requires i < |lines|
  {
    if HeadingTitle(lines[i]).Some? then HeadingTitle(lines[i])
    else if i == 0 then None
    else SectionAt(lines, i - 1)
  }

  /** The lines `from`, ..., `to - 1`. */
  datatype Block = Block(from: nat, to: nat)

  function BodyOf(lines: seq<string>, b: Block): string
    requires b.from <= b.to <= |lines|
  {
    Strip(Join("\n", lines[b.from..b.to]))
  }

  function SegmentOf(lines: seq<string>, b: Block): Segment
    requires b.from < b.to <= |lines|
  {
    Segment(BodyOf(lines, b), None, HeadingTitle(lines[b.from]), None, None, None)
  }

  ghost predicate InBlocks(lines: seq<string>, blocks: seq<Block>) {
    forall k :: 0 <= k < |blocks| ==> blocks[k].from < blocks[k].to <= |lines|
  }

  function SegmentsOf(lines: seq<string>, blocks: seq<Block>): (segments: seq<Segment>)
    requires InBlocks(lines, blocks)
    ensures |segments| == |blocks|
  {
    seq(|blocks|, k requires 0 <= k < |blocks| => SegmentOf(lines, blocks[k]))
  }

  /** Inside a block only the first line may be a heading, and a block after the top of the document
      starts with one. */
  ghost predicate OneSection(lines: seq<string>, b: Block) {
    && b.from < b.to <= |lines|
    && (b.from > 0 ==> HeadingTitle(lines[b.from]).Some?)
    && forall i :: b.from < i < b.to ==> HeadingTitle(lines[i]).None?
  }

  ghost predicate Covered(blocks: seq<Block>, i: nat) {
    exists k :: 0 <= k < |blocks| && blocks[k].from <= i < blocks[k].to
  }

  /** The emitted blocks before line `open`, where the buffered block starts. */
  ghost predicate BlocksUpTo(lines: seq<string>, blocks: seq<Block>, open: nat) {
    && open <= |lines|
    && (forall k :: 0 <= k < |blocks| ==> OneSection(lines, blocks[k]))
    && (forall k :: 0 <= k < |blocks| ==> blocks[k].to <= open && BodyOf(lines, blocks[k]) != "")
    && (forall k, l :: 0 <= k < l < |blocks| ==> blocks[k].to <= blocks[l].from)
    && (forall i :: 0 <= i < open && !Blank(lines[i]) ==> Covered(blocks, i))
  }

  lemma {:induction false} NonblankLineMakesNonblankBody(lines: seq<string>, b: Block, i: nat)
    requires b.from <= i < b.to <= |lines| && !Blank(lines[i])
    ensures BodyOf(lines, b) != "" && Contains(BodyOf(lines, b), Strip(lines[i]))
  {
    var part := lines[b.from..b.to];
    var at := JoinContains("\n", part, i - b.from);
    assert part[i - b.from] == lines[i];
    StripKeepsStrippedPart(Join("\n", part), lines[i], at);
    StripIsEmptyIffBlank(lines[i]);
  }

  lemma {:induction false} BlankBlockKeeps(lines: seq<string>, blocks: seq<Block>, b: Block)
    requires BlocksUpTo(lines, blocks, b.from) && b.from < b.to <= |lines| && BodyOf(lines, b) == ""
    ensures BlocksUpTo(lines, blocks, b.to)
  {
    forall i | 0 <= i < b.to && !Blank(lines[i]) ensures Covered(blocks, i) {
      if b.from <= i {
        NonblankLineMakesNonblankBody(lines, b, i);
      }
    }
  }

  lemma {:induction false} NewBlockKeeps(lines: seq<string>, blocks: seq<Block>, b: Block)
    requires BlocksUpTo(lines, blocks, b.from) && OneSection(lines, b) && BodyOf(lines, b) != ""
    ensures BlocksUpTo(lines, blocks + [b], b.to)
  {
    var after := blocks + [b];
    forall i | 0 <= i < b.to && !Blank(lines[i]) ensures Covered(after, i) {
      if i < b.from {
        assert Covered(blocks, i);
        var k :| 0 <= k < |blocks| && blocks[k].from <= i < blocks[k].to;
        assert after[k] == blocks[k];
      } else {
        assert after[|blocks|] == b;
      }
    }
  }

  /** The segments so far are those of the emitted blocks, and `open` starts the buffered block. */
  ghost predicate Emitted(lines: seq<string>, segments: seq<Segment>, blocks: seq<Block>, open: nat) {
    BlocksUpTo(lines, blocks, open) && InBlocks(lines, blocks) && segments == SegmentsOf(lines, blocks)
  }

  /** The emitted blocks after flushing block `b`: one more unless it says nothing. */
  ghost function Flushed(lines: seq<string>, blocks: seq<Block>, b: Block): seq<Block>
    requires b.from <= b.to <= |lines|
  {
    if BodyOf(lines, b) == "" then blocks else blocks + [b]
  }

  /** Emit the buffered lines as one segment of the section, unless they are blank. */
  method Flush(segments: seq<Segment>, section: Option<string>, buffer: seq<string>,
               ghost lines: seq<string>, ghost blocks: seq<Block>, ghost b: Block)
    returns (more: seq<Segment>)
    requires b.from <= b.to <= |lines| && buffer == lines[b.from..b.to]
    requires b.from < b.to ==> OneSection(lines, b) && section == HeadingTitle(lines[b.from])
    requires Emitted(lines, segments, blocks, b.from)
    ensures Emitted(lines, more, Flushed(lines, blocks, b), b.to)
  {
    var body := Strip(Join("\n", buffer));
    more := segments;
    if body != "" {
      more := segments + [Segment(body, None, section, None, None, None)];
    }
    if b.from == b.to {
      StripIsEmptyIffBlank("");
    } else if body != "" {
      NewBlockKeeps(lines, blocks, b);
      SegmentsGrow(lines, blocks, b);
    } else {
      BlankBlockKeeps(lines, blocks, b);
    }
  }

  lemma {:induction false} SegmentsGrow(lines: seq<string>, blocks: seq<Block>, b: Block)
    requires InBlocks(lines, blocks) && b.from < b.to <= |lines|
    ensures InBlocks(lines, blocks + [b])
    ensures SegmentsOf(lines, blocks + [b]) == SegmentsOf(lines, blocks) + [SegmentOf(lines, b)]
  {
  }

  /** The buffer holds the lines from `open` on; they form one section, the current one. */
  ghost predicate Buffered(lines: seq<string>, section: Option<string>, buffer: seq<string>, open: nat, i: nat) {
    && open <= i <= |lines| && buffer == lines[open..i]
    && (open < i ==> OneSection(lines, Block(open, i)) && section == HeadingTitle(lines[open]))
    && (open == i ==> i == 0 && section == None)
  }

  lemma {:induction false} BufferGrows(
    lines: seq<string>, section: Option<string>, buffer: seq<string>, open: nat, i: nat)
    requires Buffered(lines, section, buffer, open, i) && i < |lines|
    ensures HeadingTitle(lines[i]).Some? ==> Buffered(lines, HeadingTitle(lines[i]), [lines[i]], i, i + 1)
    ensures HeadingTitle(lines[i]).None? ==> Buffered(lines, section, buffer + [lines[i]], open, i + 1)
  {
    assert lines[i..i + 1] == [lines[i]];
    assert lines[open..i + 1] == lines[open..i] + [lines[i]];
  }

  /** The segments are those of blocks of lines, each of one section, that leave out only blank lines. */
  ghost predicate SplitsAtHeadings(lines: seq<string>, segments: seq<Segment>) {
    exists blocks :: Emitted(lines, segments, blocks, |lines|)
  }

  /** Split the lines of a Markdown document at its headings. */
  method MarkdownSegments(lines: seq<string>) returns (segments: seq<Segment>)
    ensures SplitsAtHeadings(lines, segments)
  {
    segments := [];
    ghost var blocks: seq<Block> := [];
    var section: Option<string> := None;
    var buffer: seq<string> := [];
    ghost var open := 0;
    for i := 0 to |lines|
      invariant Buffered(lines, section, buffer, open, i)
      invariant Emitted(lines, segments, blocks, open)
    {
      var title := HeadingTitle(lines[i]);
      BufferGrows(lines, section, buffer, open, i);
      if title.Some? {
        segments := Flush(segments, section, buffer, lines, blocks, Block(open, i));
        blocks := Flushed(lines, blocks, Block(open, i));
        open := i;
        buffer := [lines[i]];
        section := title;
      } else {
        buffer := buffer + [lines[i]];
      }
    }
    segments := Flush(segments, section, buffer, lines, blocks, Block(open, |lines|));
  }

  lemma {:induction false} SectionOfBlock(lines: seq<string>, b: Block, i: nat)
    requires OneSection(lines, b) && b.from <= i < b.to
    ensures SectionAt(lines, i) == HeadingTitle(lines[b.from])
    decreases i
  {
    if i > b.from {
      SectionOfBlock(lines, b, i - 1);
    }
  }

  /** Every line that is not blank lies in exactly one segment: its stripped text stands in that
      segment, and the segment's section is the last heading at or before the line. */
  lemma {:induction false} EveryLineKeepsItsSection(
    lines: seq<string>, segments: seq<Segment>, blocks: seq<Block>, i: nat)
    returns (k: nat)
    requires Emitted(lines, segments, blocks, |lines|)
    requires i < |lines| && !Blank(lines[i])
    ensures k < |segments| == |blocks| && blocks[k].from <= i < blocks[k].to
    ensures forall l :: 0 <= l < |blocks| && blocks[l].from <= i < blocks[l].to ==> l == k
    ensures segments[k].section == SectionAt(lines, i)
    ensures Contains(segments[k].content, Strip(lines[i]))
  {
    assert Covered(blocks, i);
    k :| 0 <= k < |blocks| && blocks[k].from <= i < blocks[k].to;
    SectionOfBlock(lines, blocks[k], i);
    NonblankLineMakesNonblankBody(lines, blocks[k], i);
  }

  // ---- CSV ----

  function RowText(row: seq<string>): string {
    Join(", ", row)
  }

  function RowTexts(rows: seq<seq<string>>): (texts: seq<string>)
    ensures |texts| == |rows|
  {
    seq(|rows|, i requires 0 <= i < |rows| => RowText(rows[i]))
  }

  /** The body of data rows `from`, ..., `to - 1`, counted from zero. */
  function GroupText(data: seq<seq<string>>, from: nat, to: nat): string
    requires from <= to <= |data|
  {
    Strip(Join("\n", RowTexts(data[from..to])))
  }

  /** Segment `s` holds exactly the data rows its numbers name; a spreadsheet shows the header as row 1. */
  ghost predicate NamesItsRows(s: Segment, data: seq<seq<string>>, header: string) {
    && s.rowStart.Some? && s.rowEnd.Some? && s.page.None? && s.section.None? && s.header == Some(header)
    && var first, last := s.rowStart.value, s.rowEnd.value;
       && 2 <= first <= last <= |data| + 1
       && last - first + 1 <= CSV_ROWS_PER_SEGMENT
       && s.content == GroupText(data, first - 2, last - 1) != ""
  }

  ghost predicate InRows(s: Segment, i: nat) {
    s.rowStart.Some? && s.rowEnd.Some? && s.rowStart.value <= i + 2 <= s.rowEnd.value
  }

  ghost predicate RowCovered(segments: seq<Segment>, i: nat) {
    exists k :: 0 <= k < |segments| && InRows(segments[k], i)
  }

  ghost predicate GroupsUpTo(segments: seq<Segment>, data: seq<seq<string>>, header: string, open: nat) {
    && open <= |data|
    && (forall k :: 0 <= k < |segments| ==> NamesItsRows(segments[k], data, header) && segments[k].rowEnd.value <= open + 1)
    && (forall k, l :: 0 <= k < l < |segments| ==>
          segments[k].rowEnd.Some? && segments[l].rowStart.Some? && segments[k].rowEnd.value < segments[l].rowStart.value)
    && (forall i :: 0 <= i < open && !Blank(RowText(data[i])) ==> RowCovered(segments, i))
  }

  lemma {:induction false} NonblankRowMakesNonblankGroup(data: seq<seq<string>>, from: nat, to: nat, i: nat)
    requires from <= i < to <= |data| && !Blank(RowText(data[i]))
    ensures GroupText(data, from, to) != ""
  {
    var texts := RowTexts(data[from..to]);
    assert texts[i - from] == RowText(data[i]);
    assert IsSpace('\n') by { assert WHITE_SPACE[0] == ('\t', '\r'); }
    assert AllIn("\n", IsSpace);
    JoinBlank("\n", texts);
    StripIsEmptyIffBlank(Join("\n", texts));
  }

  /** Row groups of a parsed table; a table with only a header gives one segment holding that header. */
  method CsvSegments(rows: seq<seq<string>>) returns (segments: seq<Segment>)
    ensures rows == [] ==> segments == []
    ensures |rows| == 1 ==>
      var header := Strip(RowText(rows[0]));
      segments == [Segment(header, None, None, Some(1), Some(1), Some(header))]
    ensures |rows| > 1 ==> GroupsUpTo(segments, rows[1..], Strip(RowText(rows[0])), |rows| - 1)
  {
    segments := [];
    if rows == [] {
      return;
    }
    var header := Strip(RowText(rows[0]));
    var data := rows[1..];
    if data == [] {
      return [Segment(header, None, None, Some(1), Some(1), Some(header))];
    }
    var start := 0;
    while start < |data|
      invariant 0 <= start
      invariant GroupsUpTo(segments, data, header, Min(start, |data|))
    {
      var end := Min(start + CSV_ROWS_PER_SEGMENT, |data|);
      var window := data[start..end];
      var body := Strip(Join("\n", RowTexts(window)));
      ghost var before := segments;
      if body != "" {
        segments := segments + [Segment(body, None, None, Some(start + 2), Some(start + 1 + |window|), Some(header))];
      }
      GroupKeeps(before, segments, data, header, start, end);
      start := start + CSV_ROWS_PER_SEGMENT;
    }
  }

  lemma {:induction false} RowsStayCovered(
    before: seq<Segment>, after: seq<Segment>, data: seq<seq<string>>, header: string, from: nat, i: nat)
    requires GroupsUpTo(before, data, header, from) && before <= after
    requires i < from && !Blank(RowText(data[i]))
    ensures RowCovered(after, i)
  {
    assert RowCovered(before, i);
    var k :| 0 <= k < |before| && InRows(before[k], i);
    assert after[k] == before[k];
  }

  /** A group that says something adds its segment. */
  lemma {:induction false} GroupAdded(
    before: seq<Segment>, s: Segment, data: seq<seq<string>>, header: string, from: nat, to: nat)
    requires from < to <= |data| && GroupsUpTo(before, data, header, from)
    requires NamesItsRows(s, data, header) && s.rowStart == Some(from + 2) && s.rowEnd == Some(to + 1)
    ensures GroupsUpTo(before + [s], data, header, to)
  {
    var after := before + [s];
    forall i | 0 <= i < to && !Blank(RowText(data[i])) ensures RowCovered(after, i) {
      if i < from {
        RowsStayCovered(before, after, data, header, from, i);
      } else {
        assert InRows(after[|before|], i);
      }
    }
  }

  /** A group that says nothing has no row that does. */
  lemma {:induction false} GroupSkipped(
    segments: seq<Segment>, data: seq<seq<string>>, header: string, from: nat, to: nat)
    requires from < to <= |data| && GroupsUpTo(segments, data, header, from) && GroupText(data, from, to) == ""
    ensures GroupsUpTo(segments, data, header, to)
  {
    forall i | 0 <= i < to && !Blank(RowText(data[i])) ensures RowCovered(segments, i) {
      if from <= i {
        NonblankRowMakesNonblankGroup(data, from, to, i);
      }
    }
  }

  lemma {:induction false} GroupKeeps(
    before: seq<Segment>, after: seq<Segment>, data: seq<seq<string>>, header: string, from: nat, to: nat)
    requires from < to <= |data| && to <= from + CSV_ROWS_PER_SEGMENT
    requires GroupsUpTo(before, data, header, from)
    requires after == if GroupText(data, from, to) == "" then before
                      else before + [Segment(GroupText(data, from, to), None, None, Some(from + 2), Some(to + 1), Some(header))]
    ensures GroupsUpTo(after, data, header, to)
  {
    var text := GroupText(data, from, to);
    if text == "" {
      GroupSkipped(before, data, header, from, to);
    } else {
      GroupAdded(before, Segment(text, None, None, Some(from + 2), Some(to + 1), Some(header)), data, header, from, to);
    }
  }

  /** CSV ranges are increasing and disjoint, so a row that says something is in exactly one segment. */
  lemma {:induction false} EveryRowIsInOneSegment(
    segments: seq<Segment>, data: seq<seq<string>>, header: string, i: nat)
    returns (k: nat)
    requires GroupsUpTo(segments, data, header, |data|) && i < |data| && !Blank(RowText(data[i]))
    ensures k < |segments| && InRows(segments[k], i) && NamesItsRows(segments[k], data, header)
    ensures forall l :: 0 <= l < |segments| && InRows(segments[l], i) ==> l == k
  {
    assert RowCovered(segments, i);
    k :| 0 <= k < |segments| && InRows(segments[k], i);
  }

  // ---- From document to citation ----

  /** Every chunk of a Markdown document cites the section of the lines it is cut from: the chunk is a
      part of the joined lines of one block, and each of those lines has the cited section. */
  lemma {:induction false} MarkdownChunksCiteTheirSection(
    lines: seq<string>, segments: seq<Segment>, blocks: seq<Block>,
    chunks: seq<SegmentChunk>, size: int, overlap: nat, k: nat)
    returns (b: Block)
    requires Emitted(lines, segments, blocks, |lines|)
    requires Rendered(chunks, Cuts(segments, size, overlap), segments) && k < |chunks|
    ensures b in blocks && OneSection(lines, b)
    ensures Contains(Strip(BodyOf(lines, b)), chunks[k].content)
    ensures forall i :: b.from <= i < b.to ==> SectionAt(lines, i) == chunks[k].section
    ensures |chunks[k].content| <= Max(size, 1)
  {
    ChunksKeepProvenance(chunks, segments, size, overlap, k);
    var cut := Cuts(segments, size, overlap)[k];
    b := blocks[cut.owner];
    assert segments[cut.owner] == SegmentOf(lines, b);
    assert chunks[k].content == cut.piece.content;
    forall i | b.from <= i < b.to ensures SectionAt(lines, i) == chunks[k].section {
      SectionOfBlock(lines, b, i);
    }
  }

  // ---- What a heading is ----

  /** `h` hashes, one to six, then a white-space character; `t` is the rest of the line, trimmed. */
  ghost predicate HeadingOf(line: string, h: nat, t: string) {
    && 1 <= h <= 6 && h < |line| && (forall k :: 0 <= k < h ==> line[k] == '#') && IsSpace(line[h])
    && IsTrim(line[h..], IsSpace, t)
  }

  lemma {:induction false} HashesCount(line: string, most: nat)
    ensures var h := Hashes(line, most);
            && h <= most && h <= |line| && (forall k :: 0 <= k < h ==> line[k] == '#')
            && (h < most && h < |line| ==> line[h] != '#')
  {
    if most > 0 && line != "" && line[0] == '#' {
      HashesCount(line[1..], most - 1);
      var h := Hashes(line, most);
      forall k | 0 <= k < h ensures line[k] == '#' {
        assert k > 0 ==> line[1..][k - 1] == line[k];
      }
    }
  }

  lemma {:induction false} HashIsNoSpace()
    ensures !IsSpace('#')
  {
    InRangesIff('#', WHITE_SPACE);
  }

  /** Exactly such lines are headings, each with exactly one title. */
  lemma {:induction false} HeadingIff(line: string, t: string)
    ensures HeadingTitle(line) == Some(t) <==> exists h: nat :: HeadingOf(line, h, t)
  {
    var most := Hashes(line, 6);
    HashesCount(line, 6);
    HashIsNoSpace();
    StripByIsTrim(line[most..], IsSpace, IsSpace);
    if HeadingTitle(line) == Some(t) {
      assert HeadingOf(line, most, t);
    }
    if h: nat :| HeadingOf(line, h, t) {
      assert h == most;
      TrimIsUnique(line[h..], IsSpace, t, Strip(line[h..]));
    }
  }
}
