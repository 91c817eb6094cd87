/** Cutting text into overlapping windows, inside the segments that carry provenance. */
module Chunking {
  import opened Wrappers
  import opened Text

  const CHUNK_TOKEN_DIVISOR: int := 4

  datatype TextChunk = TextChunk(index: nat, content: string, tokens: nat, start: nat, end: nat)

  datatype Segment = Segment(
    content: string,
    page: Option<int>,
    section: Option<string>,
    rowStart: Option<int>,
    rowEnd: Option<int>,
    header: Option<string>)

  datatype SegmentChunk = SegmentChunk(
    index: nat,
    content: string,
    tokens: nat,
    page: Option<int>,
    section: Option<string>,
    rowStart: Option<int>,
    rowEnd: Option<int>)

  datatype BadSizes = BadChunkSize | BadOverlap

  function Min(a: int, b: int): int { if a < b then a else b }

  function Max(a: int, b: int): int { if a < b then b else a }

  function ApproxTokens(s: string): nat {
    Max(1, |s| / CHUNK_TOKEN_DIVISOR)
  }

  // ---- Windows over one text ----

  datatype Span = Span(start: nat, end: nat)

  function WindowEnd(length: nat, size: nat, start: nat): nat {
    Min(start + size, length)
  }

  /** The windows from `start` on; each starts `size - overlap` after the one before. */
  function Windows(length: nat, size: nat, overlap: nat, start: nat): seq<Span>
    requires overlap < size
    decreases length - start, 1
  {
    if start >= length then []
    else [Span(start, WindowEnd(length, size, start))] + LaterWindows(length, size, overlap, start)
  }

  function LaterWindows(length: nat, size: nat, overlap: nat, start: nat): seq<Span>
    requires overlap < size && start < length
    decreases length - start, 0
  {
    if WindowEnd(length, size, start) >= length then [] else Windows(length, size, overlap, start + (size - overlap))
  }

  function WindowText(text: string, w: Span): string
    requires w.start <= w.end <= |text|
  {
    text[w.start..w.end]
  }

  function ChunkOf(text: string, w: Span, index: nat): TextChunk
    requires w.start <= w.end <= |text|
  {
    var content := Strip(WindowText(text, w));
    TextChunk(index, content, ApproxTokens(content), w.start, w.end)
  }

  /** The chunks of some windows: blank windows are skipped, the others numbered from `index`. */
  function Emit(text: string, windows: seq<Span>, index: nat): seq<TextChunk>
    requires forall w :: w in windows ==> w.start <= w.end <= |text|
  {
    if windows == [] then []
    else
      var c := ChunkOf(text, windows[0], index);
      if c.content == "" then Emit(text, windows[1..], index) else [c] + Emit(text, windows[1..], index + 1)
  }

  lemma {:induction false} WindowsInText(length: nat, size: nat, overlap: nat, start: nat)
    requires overlap < size
    ensures forall w :: w in Windows(length, size, overlap, start) ==> w.start < w.end <= length
    decreases length - start
  {
    if start + size < length {
      WindowsInText(length, size, overlap, start + (size - overlap));
    }
  }

  function Chunks(text: string, size: nat, overlap: nat): seq<TextChunk>
    requires overlap < size
  {
    WindowsInText(|text|, size, overlap, 0);
    Emit(text, Windows(|text|, size, overlap, 0), 0)
  }

  function ChunksOf(text: string, size: nat, overlap: nat): seq<TextChunk>
    requires overlap < size
  {
    Chunks(Strip(text), size, overlap)
  }

  /** The chunks of a text that is already stripped, window by window. */
  method EmitWindows(text: string, size: nat, overlap: nat) returns (chunks: seq<TextChunk>)
    requires overlap < size
    ensures chunks == Chunks(text, size, overlap)
  {
    var step := size - overlap;
    var index, start, length := 0, 0, |text|;
    chunks := [];
    WindowsInText(length, size, overlap, 0);
    EmitFromStart(text, size, overlap);
    while start < length
      invariant EmitsTo(text, size, overlap, start, chunks, index)
      decreases length - start
    {
      EmitOneMore(text, size, overlap, start, chunks, index);
      var end := Min(start + size, length);
      var window := Strip(text[start..end]);
      if window != "" {
        chunks := chunks + [TextChunk(index, window, ApproxTokens(window), start, end)];
        index := index + 1;
      }
      if end >= length {
        return;
      }
      start := start + step;
    }
    EmitNothingMore(text, size, overlap, start, chunks, index);
  }

  /** Windows of the stripped text, each chunk stripped, blank windows skipped. */
  method ChunkText(text: string, size: int, overlap: int) returns (r: Result<seq<TextChunk>, BadSizes>)
    ensures size <= 0 ==> r == Err(BadChunkSize)
    ensures size > 0 && !(0 <= overlap < size) ==> r == Err(BadOverlap)
    ensures 0 <= overlap < size ==> r == Ok(ChunksOf(text, size, overlap))
  {
    if size <= 0 {
      return Err(BadChunkSize);
    }
    if !(0 <= overlap < size) {
      return Err(BadOverlap);
    }
    var normalized := Strip(text);
    if normalized == "" {
      return Ok([]);
    }
    var chunks := EmitWindows(normalized, size, overlap);
    return Ok(chunks);
  }

  /** The chunks so far and the windows still to come make up all chunks of the text. */
  ghost predicate EmitsTo(text: string, size: nat, overlap: nat, start: nat, chunks: seq<TextChunk>, index: nat) {
    && overlap < size
    && (forall w :: w in Windows(|text|, size, overlap, start) ==> w.start <= w.end <= |text|)
    && chunks + Emit(text, Windows(|text|, size, overlap, start), index) == Chunks(text, size, overlap)
  }

  lemma {:induction false} EmitFromStart(text: string, size: nat, overlap: nat)
    requires overlap < size
    ensures EmitsTo(text, size, overlap, 0, [], 0)
  {
    WindowsInText(|text|, size, overlap, 0);
  }

  lemma {:induction false} EmitNothingMore(
    text: string, size: nat, overlap: nat, start: nat, chunks: seq<TextChunk>, index: nat)
    requires start >= |text| && EmitsTo(text, size, overlap, start, chunks, index)
    ensures chunks == Chunks(text, size, overlap)
  {
    assert chunks + [] == chunks;
  }

  lemma {:induction false} EmitOneMore(
    text: string, size: nat, overlap: nat, start: nat, chunks: seq<TextChunk>, index: nat)
    requires start < |text| && EmitsTo(text, size, overlap, start, chunks, index)
    ensures var end := WindowEnd(|text|, size, start);
            var c := ChunkOf(text, Span(start, end), index);
            var (more, next) := if c.content == "" then (chunks, index) else (chunks + [c], index + 1);
            if end >= |text| then more == Chunks(text, size, overlap)
            else EmitsTo(text, size, overlap, start + (size - overlap), more, next)
  {
    var ws := Windows(|text|, size, overlap, start);
    var rest := LaterWindows(|text|, size, overlap, start);
    assert ws[1..] == rest;
    forall w | w in rest ensures w.start <= w.end <= |text| {
      assert w in ws;
    }
    var c := ChunkOf(text, ws[0], index);
    if c.content != "" {
      assert Emit(text, ws, index) == [c] + Emit(text, rest, index + 1);
      assert chunks + ([c] + Emit(text, rest, index + 1)) == (chunks + [c]) + Emit(text, rest, index + 1);
      assert rest == [] ==> chunks + [c] + Emit(text, rest, index + 1) == chunks + [c];
    } else {
      assert Emit(text, ws, index) == Emit(text, rest, index);
      assert rest == [] ==> chunks + Emit(text, rest, index) == chunks;
    }
  }

  /** The first window, then each later window without the characters it shares with its neighbour. */
  function Glued(text: string, windows: seq<Span>, overlap: nat): string
    requires forall i :: 0 <= i < |windows| ==> windows[i].start <= windows[i].end <= |text|
    requires forall i :: 0 < i < |windows| ==> windows[i].start + overlap <= windows[i].end
    decreases |windows|
  {
    if windows == [] then ""
    else
      var last := windows[|windows| - 1];
      if |windows| == 1 then WindowText(text, last)
      else Glued(text, windows[..|windows| - 1], overlap) + WindowText(text, last)[overlap..]
  }

  /** A full window and the one after it, which shares its last `overlap` characters and ends later. */
  predicate Neighbouring(w: Span, next: Span, size: nat, overlap: nat) {
    w.end == w.start + size && next.start == w.end - overlap && w.end < next.end
  }

  ghost predicate WindowLaws(windows: seq<Span>, length: nat, size: nat, overlap: nat, start: nat) {
    && windows != []
    && windows[0].start == start
    && windows[|windows| - 1].end == length
    && (forall i :: 0 <= i < |windows| ==> windows[i].start < windows[i].end <= windows[i].start + size)
    && (forall i :: 0 <= i < |windows| ==> windows[i].end <= length)
    && (forall i, j :: 0 <= i && j == i + 1 && j < |windows| ==> Neighbouring(windows[i], windows[j], size, overlap))
  }

  /** Windows run from the start to the end of the text, share exactly `overlap` characters with their
      neighbour, and each ends strictly later than the one before. */
  lemma {:induction false} WindowsTile(length: nat, size: nat, overlap: nat, start: nat)
    requires overlap < size && start < length
    ensures WindowLaws(Windows(length, size, overlap, start), length, size, overlap, start)
    decreases length - start
  {
    if start + size < length {
      var next := start + (size - overlap);
      WindowsTile(length, size, overlap, next);
      FirstWindowExtends(Windows(length, size, overlap, next), length, size, overlap, start);
    }
  }

  lemma {:induction false} FirstWindowExtends(rest: seq<Span>, length: nat, size: nat, overlap: nat, start: nat)
    requires overlap < size && start + size < length
    requires WindowLaws(rest, length, size, overlap, start + (size - overlap))
    ensures WindowLaws([Span(start, start + size)] + rest, length, size, overlap, start)
  {
    var first, all := Span(start, start + size), [Span(start, start + size)] + rest;
    assert Neighbouring(first, rest[0], size, overlap) by {
      assert |rest| > 1 ==> Neighbouring(rest[0], rest[1], size, overlap);
    }
    forall i, j | 0 <= i && j == i + 1 && j < |all| ensures Neighbouring(all[i], all[j], size, overlap) {
      assert all[j] == rest[i];
      assert i > 0 ==> all[i] == rest[i - 1];
    }
  }

  lemma {:induction false} GluedPrefix(text: string, windows: seq<Span>, size: nat, overlap: nat, n: nat)
    requires overlap < size && 0 < n <= |windows|
    requires WindowLaws(windows, |text|, size, overlap, 0)
    ensures forall i :: 0 < i < n ==> windows[i].start + overlap <= windows[i].end
    ensures Glued(text, windows[..n], overlap) == text[..windows[n - 1].end]
    decreases n
  {
    if n > 1 {
      GluedPrefix(text, windows, size, overlap, n - 1);
      assert windows[..n][..n - 1] == windows[..n - 1];
      assert Neighbouring(windows[n - 2], windows[n - 1], size, overlap);
      assert WindowText(text, windows[n - 1])[overlap..] == text[windows[n - 2].end..windows[n - 1].end];
    }
  }

  /** The last `overlap` characters of one window are the first of the next. */
  ghost predicate SharesText(text: string, w: Span, next: Span, overlap: nat) {
    && w.start + overlap <= w.end <= |text| && next.start + overlap <= next.end <= |text|
    && WindowText(text, w)[w.end - w.start - overlap..] == WindowText(text, next)[..overlap]
  }

  /** No text is lost or repeated: dropping the shared characters and gluing gives the text back, and
      neighbouring windows share exactly the same `overlap` characters. */
  lemma {:induction false} WindowsReconstruct(text: string, size: nat, overlap: nat)
    requires overlap < size && text != ""
    ensures var ws := Windows(|text|, size, overlap, 0);
            && WindowLaws(ws, |text|, size, overlap, 0)
            && (forall i :: 0 < i < |ws| ==> ws[i].start + overlap <= ws[i].end)
            && Glued(text, ws, overlap) == text
            && (forall i, j :: 0 <= i && j == i + 1 && j < |ws| ==> SharesText(text, ws[i], ws[j], overlap))
  {
    var ws := Windows(|text|, size, overlap, 0);
    WindowsTile(|text|, size, overlap, 0);
    GluedPrefix(text, ws, size, overlap, |ws|);
    assert ws[..|ws|] == ws;
    forall i, j | 0 <= i && j == i + 1 && j < |ws| ensures SharesText(text, ws[i], ws[j], overlap) {
      NeighboursShare(text, ws[i], ws[j], size, overlap);
    }
  }

  lemma {:induction false} NeighboursShare(text: string, w: Span, next: Span, size: nat, overlap: nat)
    requires overlap < size && w.start < w.end <= |text| && w.end < next.end <= |text|
    requires Neighbouring(w, next, size, overlap)
    ensures SharesText(text, w, next, overlap)
  {
    var x, y := WindowText(text, w)[size - overlap..], WindowText(text, next)[..overlap];
    forall k | 0 <= k < overlap ensures x[k] == y[k] {
    }
  }

  ghost predicate EmittedFrom(c: TextChunk, text: string, w: Span) {
    && w.start <= w.end <= |text|
    && c == ChunkOf(text, w, c.index) && c.content != ""
  }

  ghost predicate EmittedFromSome(c: TextChunk, text: string, windows: seq<Span>) {
    exists w :: w in windows && EmittedFrom(c, text, w)
  }

  /** Chunk numbers count up from `index`. */
  lemma {:induction false} EmitNumbers(text: string, windows: seq<Span>, index: nat)
    requires forall w :: w in windows ==> w.start <= w.end <= |text|
    ensures forall i :: 0 <= i < |Emit(text, windows, index)| ==> Emit(text, windows, index)[i].index == index + i
  {
    if windows != [] {
      EmitNumbers(text, windows[1..], index);
      EmitNumbers(text, windows[1..], index + 1);
    }
  }

  /** Every chunk is a stripped window. */
  lemma {:induction false} EmitIsSound(text: string, windows: seq<Span>, index: nat, c: TextChunk)
    requires forall w :: w in windows ==> w.start <= w.end <= |text|
    requires c in Emit(text, windows, index)
    ensures EmittedFromSome(c, text, windows)
  {
    var first := ChunkOf(text, windows[0], index);
    if first.content != "" && c == first {
      assert EmittedFrom(c, text, windows[0]);
    } else {
      var next := if first.content == "" then index else index + 1;
      assert c in Emit(text, windows[1..], next);
      EmitIsSound(text, windows[1..], next, c);
      var w :| w in windows[1..] && EmittedFrom(c, text, w);
      assert w in windows;
    }
  }

  /** No window that says something is missing. */
  lemma {:induction false} EmitIsComplete(text: string, windows: seq<Span>, index: nat, w: Span) returns (c: TextChunk)
    requires forall v :: v in windows ==> v.start <= v.end <= |text|
    requires w in windows && !Blank(text[w.start..w.end])
    ensures c in Emit(text, windows, index) && EmittedFrom(c, text, w)
  {
    StripIsEmptyIffBlank(text[w.start..w.end]);
    c := ChunkOf(text, windows[0], index);
    if windows[0] != w {
      assert w in windows[1..];
      c := EmitIsComplete(text, windows[1..], if c.content == "" then index else index + 1, w);
    }
  }

  lemma {:induction false} SomeWindowCovers(length: nat, size: nat, overlap: nat, start: nat, p: nat) returns (w: Span)
    requires overlap < size && start <= p < length
    ensures w in Windows(length, size, overlap, start) && w.start <= p < w.end
    decreases length - start
  {
    if p < start + size {
      w := Span(start, Min(start + size, length));
    } else {
      w := SomeWindowCovers(length, size, overlap, start + (size - overlap), p);
    }
  }

  /** Position `p` of the text is character `q` of the content of `c`, which is a piece of the text. */
  ghost predicate Shows(c: TextChunk, text: string, p: nat, q: nat) {
    && c.start <= p < c.end <= |text| && q < |c.content| && q <= p
    && c.content[q] == text[p]
    && c.start <= p - q && OccursAt(text, c.content, p - q)
  }

  lemma {:induction false} EmittedOccurs(c: TextChunk, text: string, w: Span)
    requires EmittedFrom(c, text, w)
    ensures var lead := Lead(text[w.start..w.end], IsSpace);
            w.start + lead + |c.content| <= w.end && OccursAt(text, c.content, w.start + lead)
  {
    var window := text[w.start..w.end];
    var lead := Lead(window, IsSpace);
    assert c.content == window[lead..Tail(window, IsSpace)];
    forall k | 0 <= k < |c.content| ensures c.content[k] == text[w.start + lead + k] {
      assert c.content[k] == window[lead + k];
    }
  }

  lemma {:induction false} EmittedShows(c: TextChunk, text: string, w: Span, p: nat) returns (q: nat)
    requires EmittedFrom(c, text, w) && w.start <= p < w.end && !IsSpace(text[p])
    ensures Shows(c, text, p, q)
  {
    var window := text[w.start..w.end];
    assert window[p - w.start] == text[p];
    StripByKeepsInner(window, IsSpace, p - w.start, p - w.start + 1);
    EmittedOccurs(c, text, w);
    q := p - w.start - Lead(window, IsSpace);
    assert c.content[q] == text[p];
  }

  /** Every character that is not blank lies in an emitted chunk, at its own place. */
  lemma {:induction false} EveryCharacterIsInAChunk(
    text: string, size: nat, overlap: nat, p: nat)
    returns (k: nat, q: nat)
    requires overlap < size && p < |text| && !IsSpace(text[p])
    ensures k < |Chunks(text, size, overlap)| && Shows(Chunks(text, size, overlap)[k], text, p, q)
  {
    var ws, cs := Windows(|text|, size, overlap, 0), Chunks(text, size, overlap);
    var w := SomeWindowCovers(|text|, size, overlap, 0, p);
    WindowsInText(|text|, size, overlap, 0);
    assert text[w.start..w.end][p - w.start] == text[p];
    var c := EmitIsComplete(text, ws, 0, w);
    k :| 0 <= k < |cs| && cs[k] == c;
    q := EmittedShows(c, text, w, p);
  }

  // ---- Segments ----

  function Prefix(s: Segment): string {
    if s.header.Some? && s.header.value != "" then s.header.value + "\n" else ""
  }

  function Budget(s: Segment, size: int): (b: nat)
    ensures b >= 1
  {
    Max(1, size - |Prefix(s)|)
  }

  /** The pieces of a body within a budget; the overlap is reduced to fit it. */
  function BodyPieces(body: string, budget: nat, overlap: nat): seq<TextChunk>
    requires budget > 0
  {
    ChunksOf(body, budget, Min(overlap, budget - 1))
  }

  function Pieces(s: Segment, size: int, overlap: nat): seq<TextChunk> {
    if Strip(s.content) == "" then [] else BodyPieces(Strip(s.content), Budget(s, size), overlap)
  }

  function Labelled(s: Segment, piece: TextChunk, index: nat): SegmentChunk {
    var content := Prefix(s) + piece.content;
    SegmentChunk(index, content, ApproxTokens(content), s.page, s.section, s.rowStart, s.rowEnd)
  }

  /** A piece and the position of the segment it is cut from. */
  datatype Cut = Cut(owner: nat, piece: TextChunk)

  function OwnedBy(owner: nat, pieces: seq<TextChunk>): (cuts: seq<Cut>)
    ensures |cuts| == |pieces|
  {
    seq(|pieces|, i requires 0 <= i < |pieces| => Cut(owner, pieces[i]))
  }

  /** All cuts of the first `n` segments, in order. */
  function CutsOf(pieces: nat -> seq<TextChunk>, n: nat): seq<Cut> {
    if n == 0 then [] else CutsOf(pieces, n - 1) + OwnedBy(n - 1, pieces(n - 1))
  }

  function PieceTable(segments: seq<Segment>, size: int, overlap: nat): nat -> seq<TextChunk> {
    (i: nat) => if i < |segments| then Pieces(segments[i], size, overlap) else []
  }

  function Cuts(segments: seq<Segment>, size: int, overlap: nat): seq<Cut> {
    CutsOf(PieceTable(segments, size, overlap), |segments|)
  }

  lemma {:induction false} CutsBelong(pieces: nat -> seq<TextChunk>, n: nat, k: nat)
    requires k < |CutsOf(pieces, n)|
    ensures var cut := CutsOf(pieces, n)[k]; cut.owner < n && cut.piece in pieces(cut.owner)
    ensures k > 0 ==> CutsOf(pieces, n)[k - 1].owner <= CutsOf(pieces, n)[k].owner
    decreases n
  {
    var before := CutsOf(pieces, n - 1);
    if k < |before| {
      CutsBelong(pieces, n - 1, k);
    } else if k == |before| && k > 0 {
      CutsBelong(pieces, n - 1, k - 1);
    }
  }

  lemma {:induction false} CutsInclude(pieces: nat -> seq<TextChunk>, n: nat, i: nat, j: nat) returns (k: nat)
    requires i < n && j < |pieces(i)|
    ensures k < |CutsOf(pieces, n)| && CutsOf(pieces, n)[k] == Cut(i, pieces(i)[j])
    decreases n
  {
    if i == n - 1 {
      k := |CutsOf(pieces, n - 1)| + j;
    } else {
      k := CutsInclude(pieces, n - 1, i, j);
    }
  }

  ghost predicate Rendered(chunks: seq<SegmentChunk>, cuts: seq<Cut>, segments: seq<Segment>) {
    && |chunks| == |cuts|
    && forall k :: 0 <= k < |cuts| ==>
         cuts[k].owner < |segments| && chunks[k] == Labelled(segments[cuts[k].owner], cuts[k].piece, k)
  }

  /** The chunks of one segment appended, numbered on from `before`. */
  method AppendPieces(before: seq<SegmentChunk>, segment: Segment, pieces: seq<TextChunk>) returns (chunks: seq<SegmentChunk>)
    ensures |chunks| == |before| + |pieces|
    ensures forall k :: 0 <= k < |before| ==> chunks[k] == before[k]
    ensures forall k :: 0 <= k < |pieces| ==> chunks[|before| + k] == Labelled(segment, pieces[k], |before| + k)
  {
    var prefix := Prefix(segment);
    chunks := before;
    var index := |before|;
    for j := 0 to |pieces|
      invariant index == |chunks| == |before| + j
      invariant forall k :: 0 <= k < |before| ==> chunks[k] == before[k]
      invariant forall k :: 0 <= k < j ==> chunks[|before| + k] == Labelled(segment, pieces[k], |before| + k)
    {
      var content := prefix + pieces[j].content;
      chunks := chunks + [SegmentChunk(index, content, ApproxTokens(content), segment.page, segment.section,
                                       segment.rowStart, segment.rowEnd)];
      index := index + 1;
    }
  }

  lemma {:induction false} RenderedMore(before: seq<SegmentChunk>, chunks: seq<SegmentChunk>, segments: seq<Segment>,
                     pieces: nat -> seq<TextChunk>, i: nat)
    requires i < |segments| && Rendered(before, CutsOf(pieces, i), segments)
    requires |chunks| == |before| + |pieces(i)|
    requires forall k :: 0 <= k < |before| ==> chunks[k] == before[k]
    requires forall k :: 0 <= k < |pieces(i)| ==> chunks[|before| + k] == Labelled(segments[i], pieces(i)[k], |before| + k)
    ensures Rendered(chunks, CutsOf(pieces, i + 1), segments)
  {
    var cuts := CutsOf(pieces, i + 1);
    assert cuts == CutsOf(pieces, i) + OwnedBy(i, pieces(i));
    forall k | 0 <= k < |cuts|
      ensures cuts[k].owner < |segments| && chunks[k] == Labelled(segments[cuts[k].owner], cuts[k].piece, k)
    {
      if k >= |before| {
        assert chunks[|before| + (k - |before|)] == Labelled(segments[i], pieces(i)[k - |before|], k);
      }
    }
  }

  /** The pieces of one segment: the header takes its room out of the budget of every window. */
  method CutSegment(segment: Segment, size: int, overlap: int) returns (r: Result<seq<TextChunk>, BadSizes>)
    ensures r.Err? <==> overlap < 0 && Strip(segment.content) != ""
    ensures r.Err? ==> r.error == BadOverlap
    ensures r.Ok? ==> r.value == if overlap < 0 then [] else Pieces(segment, size, overlap)
  {
    var body := Strip(segment.content);
    if body == "" {
      return Ok([]);
    }
    r := CutBody(body, Budget(segment, size), overlap);
  }

  /** The pieces of a body; a negative overlap is refused. */
  method CutBody(body: string, budget: nat, overlap: int) returns (r: Result<seq<TextChunk>, BadSizes>)
    requires budget > 0
    ensures overlap < 0 ==> r == Err(BadOverlap)
    ensures overlap >= 0 ==> r == Ok(BodyPieces(body, budget, overlap))
  {
    r := ChunkText(body, budget, Min(overlap, budget - 1));
  }

  /** Chunks of all segments with one running number. A negative overlap is refused, but only once a
      segment that says something is reached; the sizes passed on are otherwise always acceptable. */
  method ChunkSegments(segments: seq<Segment>, size: int, overlap: int) returns (r: Result<seq<SegmentChunk>, BadSizes>)
    ensures r.Err? <==> overlap < 0 && exists i :: 0 <= i < |segments| && !Blank(segments[i].content)
    ensures r.Err? ==> r.error == BadOverlap
    ensures r.Ok? && overlap >= 0 ==> Rendered(r.value, Cuts(segments, size, overlap), segments)
    ensures r.Ok? && overlap < 0 ==> r.value == []
  {
    var chunks: seq<SegmentChunk> := [];
    for i := 0 to |segments|
      invariant overlap < 0 ==> chunks == [] && forall j :: 0 <= j < i ==> Blank(segments[j].content)
      invariant overlap >= 0 ==> Rendered(chunks, CutsOf(PieceTable(segments, size, overlap), i), segments)
    {
      StripIsEmptyIffBlank(segments[i].content);
      var pieces := CutSegment(segments[i], size, overlap);
      if pieces.Err? {
        return Err(pieces.error);
      }
      ghost var before := chunks;
      chunks := AppendPieces(chunks, segments[i], pieces.value);
      if overlap >= 0 {
        RenderedMore(before, chunks, segments, PieceTable(segments, size, overlap), i);
      }
    }
    return Ok(chunks);
  }

  /** Every chunk of a document is the header of exactly one segment followed by a part of that
      segment's text, cites that segment's page, section and rows, and fits the size unless the
      header alone leaves no room; segments appear in document order and numbers have no gap. */
  lemma {:induction false} ChunksKeepProvenance(
    chunks: seq<SegmentChunk>, segments: seq<Segment>, size: int, overlap: nat, k: nat)
    requires Rendered(chunks, Cuts(segments, size, overlap), segments) && k < |chunks|
    ensures var cuts := Cuts(segments, size, overlap);
            var s, c := segments[cuts[k].owner], chunks[k];
            && c.index == k
            && (c.page, c.section, c.rowStart, c.rowEnd) == (s.page, s.section, s.rowStart, s.rowEnd)
            && c.content == Prefix(s) + cuts[k].piece.content
            && cuts[k].piece.content != "" && Contains(Strip(s.content), cuts[k].piece.content)
            && |c.content| <= Max(size, |Prefix(s)| + 1)
            && (k > 0 ==> cuts[k - 1].owner <= cuts[k].owner)
  {
    CutsBelong(PieceTable(segments, size, overlap), |segments|, k);
    var cut := Cuts(segments, size, overlap)[k];
    PieceFits(segments[cut.owner], size, overlap, cut.piece);
  }

  lemma {:induction false} PieceFits(s: Segment, size: int, overlap: nat, piece: TextChunk)
    requires piece in Pieces(s, size, overlap)
    ensures piece.content != "" && |piece.content| <= Budget(s, size) && Contains(Strip(s.content), piece.content)
  {
    StripByIsIdempotent(s.content, IsSpace);
    ChunkFits(Strip(s.content), Budget(s, size), Min(overlap, Budget(s, size) - 1), piece);
  }

  lemma {:induction false} ChunkFits(text: string, size: nat, overlap: nat, c: TextChunk)
    requires overlap < size && c in Chunks(text, size, overlap)
    ensures c.content != "" && |c.content| <= size && Contains(text, c.content)
  {
    var ws := Windows(|text|, size, overlap, 0);
    WindowsInText(|text|, size, overlap, 0);
    if text != "" {
      WindowsTile(|text|, size, overlap, 0);
    }
    EmitIsSound(text, ws, 0, c);
    var w :| w in ws && EmittedFrom(c, text, w);
    EmittedOccurs(c, text, w);
  }

  lemma {:induction false} PieceShows(s: Segment, size: int, overlap: nat, p: nat) returns (j: nat, q: nat)
    requires p < |Strip(s.content)| && !IsSpace(Strip(s.content)[p])
    ensures j < |Pieces(s, size, overlap)| && Shows(Pieces(s, size, overlap)[j], Strip(s.content), p, q)
  {
    StripByIsIdempotent(s.content, IsSpace);
    j, q := EveryCharacterIsInAChunk(Strip(s.content), Budget(s, size), Min(overlap, Budget(s, size) - 1), p);
  }

  /** No segment loses text: every character of its stripped body that is not blank is shown by some
      chunk cut from that same segment. */
  lemma {:induction false} NoSegmentLosesText(
    chunks: seq<SegmentChunk>, segments: seq<Segment>, size: int, overlap: nat, i: nat, p: nat)
    returns (k: nat, q: nat)
    requires Rendered(chunks, Cuts(segments, size, overlap), segments) && i < |segments|
    requires p < |Strip(segments[i].content)| && !IsSpace(Strip(segments[i].content)[p])
    ensures var cuts := Cuts(segments, size, overlap);
            && k < |chunks| && cuts[k].owner == i
            && Shows(cuts[k].piece, Strip(segments[i].content), p, q)
            && chunks[k].content == Prefix(segments[i]) + cuts[k].piece.content
  {
    var j;
    j, q := PieceShows(segments[i], size, overlap, p);
    k := CutsInclude(PieceTable(segments, size, overlap), |segments|, i, j);
  }

  // ---- How full the pieces are ----

  /** A chunk of a text: some window of it, trimmed, and not blank. */
  ghost predicate CutFrom(c: TextChunk, text: string, w: Span) {
    && w.start <= w.end <= |text| && c.start == w.start && c.end == w.end
    && IsTrim(text[w.start..w.end], IsSpace, c.content) && c.content != ""
  }

  ghost predicate CutAt(chunks: seq<TextChunk>, text: string, windows: seq<Span>, at: seq<nat>, j: nat)
    requires j < |chunks| && j < |at|
  {
    at[j] < |windows| && CutFrom(chunks[j], text, windows[at[j]])
  }

  ghost predicate Ascending(at: seq<nat>) {
    forall j, k :: 0 <= j < k < |at| ==> at[j] < at[k]
  }

  /** The chunks are the windows at positions `at`, in order: all those that are not blank. */
  ghost predicate CutInOrder(chunks: seq<TextChunk>, text: string, windows: seq<Span>, at: seq<nat>) {
    && |at| == |chunks| && Ascending(at)
    && (forall j: nat :: j < |at| ==> CutAt(chunks, text, windows, at, j))
    && NoneMissing(text, windows, at)
  }

  ghost predicate NoneMissing(text: string, windows: seq<Span>, at: seq<nat>) {
    forall i: nat :: i < |windows| && SaysSomething(text, windows[i]) ==> i in at
  }

  ghost predicate SaysSomething(text: string, w: Span) {
    w.start <= w.end <= |text| && !Blank(text[w.start..w.end])
  }

  lemma {:induction false} WindowIsCut(text: string, w: Span, index: nat)
    requires w.start <= w.end <= |text|
    ensures var c := ChunkOf(text, w, index);
            if SaysSomething(text, w) then CutFrom(c, text, w) else c.content == ""
  {
    StripIsEmptyIffBlank(text[w.start..w.end]);
    StripByIsTrim(text[w.start..w.end], IsSpace, IsSpace);
  }

  function Shifted(at: seq<nat>): seq<nat> {
    seq(|at|, j requires 0 <= j < |at| => at[j] + 1)
  }

  lemma {:induction false} ShiftedHolds(at: seq<nat>, i: nat)
    requires i in at
    ensures i + 1 in Shifted(at)
  {
    var j :| 0 <= j < |at| && at[j] == i;
    assert Shifted(at)[j] == i + 1;
  }

  lemma {:induction false} NoneMissingInFront(text: string, windows: seq<Span>, at: seq<nat>, from: seq<nat>)
    requires windows != [] && NoneMissing(text, windows[1..], at)
    requires (from == Shifted(at) && !SaysSomething(text, windows[0])) || from == [0] + Shifted(at)
    ensures NoneMissing(text, windows, from)
  {
    forall i: nat | i < |windows| && SaysSomething(text, windows[i]) ensures i in from {
      if i > 0 {
        var before: nat := i - 1;
        assert windows[1..][before] == windows[i];
        ShiftedHolds(at, before);
      } else {
        assert from == [0] + Shifted(at) && from[0] == 0;
      }
    }
  }

  lemma {:induction false} CutSkipped(chunks: seq<TextChunk>, text: string, windows: seq<Span>, at: seq<nat>)
    requires windows != [] && CutInOrder(chunks, text, windows[1..], at) && !SaysSomething(text, windows[0])
    ensures CutInOrder(chunks, text, windows, Shifted(at))
  {
    NoneMissingInFront(text, windows, at, Shifted(at));
    forall j: nat | j < |at| ensures CutAt(chunks, text, windows, Shifted(at), j) {
      assert CutAt(chunks, text, windows[1..], at, j);
    }
  }

  lemma {:induction false} CutAdded(
    c: TextChunk, chunks: seq<TextChunk>, text: string, windows: seq<Span>, at: seq<nat>)
    requires windows != [] && CutInOrder(chunks, text, windows[1..], at) && CutFrom(c, text, windows[0])
    ensures CutInOrder([c] + chunks, text, windows, [0] + Shifted(at))
  {
    var more, from := [c] + chunks, [0] + Shifted(at);
    NoneMissingInFront(text, windows, at, from);
    forall j: nat | j < |from| ensures CutAt(more, text, windows, from, j) {
      if j > 0 {
        assert CutAt(chunks, text, windows[1..], at, j - 1);
      }
    }
  }

  lemma {:induction false} EmitCutsInOrder(text: string, windows: seq<Span>, index: nat) returns (at: seq<nat>)
    requires forall w :: w in windows ==> w.start <= w.end <= |text|
    ensures CutInOrder(Emit(text, windows, index), text, windows, at)
  {
    at := [];
    if windows != [] {
      var c := ChunkOf(text, windows[0], index);
      WindowIsCut(text, windows[0], index);
      var next := if c.content == "" then index else index + 1;
      var later := EmitCutsInOrder(text, windows[1..], next);
      if c.content == "" {
        at := Shifted(later);
        CutSkipped(Emit(text, windows[1..], next), text, windows, later);
      } else {
        at := [0] + Shifted(later);
        CutAdded(c, Emit(text, windows[1..], next), text, windows, later);
      }
    }
  }

  /** The text put before every piece of a segment: its header line, if it has a header. */
  ghost predicate Heads(prefix: string, s: Segment) {
    && (s.header.Some? && s.header.value != "" ==> prefix == s.header.value + "\n")
    && (s.header.None? || s.header.value == "" ==> prefix == "")
  }

  /** What `size` leaves for the text of a piece after its prefix, and at least one character. */
  ghost predicate Leaves(size: int, prefix: string, room: int) {
    if size - |prefix| > 1 then room == size - |prefix| else room == 1
  }

  /** The overlap asked for, or the greatest one that still lets a window of `room` move on. */
  ghost predicate Fits(overlap: nat, room: int, shared: nat) {
    if overlap < room then shared == overlap else shared == room - 1
  }

  /** Of a segment that says something: its body is covered by windows that are as long as the size and the
      header allow and share exactly the overlap that fits, and its pieces are those windows, trimmed, in order. */
  lemma {:induction false} PiecesFillTheBudget(s: Segment, size: int, overlap: nat)
    returns (prefix: string, room: nat, shared: nat, windows: seq<Span>, at: seq<nat>)
    requires !Blank(s.content)
    ensures Heads(prefix, s) && Leaves(size, prefix, room) && Fits(overlap, room, shared)
    ensures WindowLaws(windows, |Strip(s.content)|, room, shared, 0)
    ensures CutInOrder(Pieces(s, size, overlap), Strip(s.content), windows, at)
    ensures prefix == Prefix(s)
  {
    prefix, room := Prefix(s), Budget(s, size);
    shared := Min(overlap, room - 1);
    var body := Strip(s.content);
    StripIsEmptyIffBlank(s.content);
    StripByIsIdempotent(s.content, IsSpace);
    WindowsTile(|body|, room, shared, 0);
    WindowsInText(|body|, room, shared, 0);
    windows := Windows(|body|, room, shared, 0);
    at := EmitCutsInOrder(body, windows, 0);
  }

  /** A chunk as it is stored: the prefix and the piece, a quarter of its length in tokens but at least one,
      its number, and where it comes from. */
  ghost predicate Stored(c: SegmentChunk, s: Segment, prefix: string, piece: string, number: nat) {
    && c.content == prefix + piece && c.index == number
    && (if |c.content| < 8 then c.tokens == 1 else 4 * c.tokens <= |c.content| < 4 * c.tokens + 4)
    && c.page == s.page && c.section == s.section && c.rowStart == s.rowStart && c.rowEnd == s.rowEnd
  }

  lemma {:induction false} LabelledIsStored(s: Segment, piece: TextChunk, index: nat)
    ensures Stored(Labelled(s, piece, index), s, Prefix(s), piece.content, index)
  {
  }

  lemma {:induction false} CutsOfOne(pieces: nat -> seq<TextChunk>, n: nat, i: nat, j: nat)
    requires i < n && j < |pieces(i)|
    ensures |CutsOf(pieces, i)| + j < |CutsOf(pieces, n)|
    ensures CutsOf(pieces, n)[|CutsOf(pieces, i)| + j] == Cut(i, pieces(i)[j])
    decreases n
  {
    if i < n - 1 {
      CutsOfOne(pieces, n - 1, i, j);
    }
  }

  lemma {:induction false} PieceIsStored(
    chunks: seq<SegmentChunk>, cuts: seq<Cut>, segments: seq<Segment>, i: nat, k: nat)
    requires Rendered(chunks, cuts, segments) && k < |cuts| && cuts[k].owner == i < |segments|
    ensures k < |chunks| && Stored(chunks[k], segments[i], Prefix(segments[i]), cuts[k].piece.content, k)
  {
    LabelledIsStored(segments[i], cuts[k].piece, k);
  }

  /** The chunks numbered from `from` on are the pieces of one segment. */
  ghost predicate StoredFrom(chunks: seq<SegmentChunk>, s: Segment, pieces: seq<TextChunk>, from: nat) {
    from + |pieces| <= |chunks| &&
    forall j: nat :: j < |pieces| ==> Stored(chunks[from + j], s, Prefix(s), pieces[j].content, from + j)
  }

  lemma {:induction false} OnePieceStored(
    chunks: seq<SegmentChunk>, segments: seq<Segment>, pieces: nat -> seq<TextChunk>, i: nat, j: nat)
    requires i < |segments| && Rendered(chunks, CutsOf(pieces, |segments|), segments) && j < |pieces(i)|
    ensures var k := |CutsOf(pieces, i)| + j;
            k < |chunks| && Stored(chunks[k], segments[i], Prefix(segments[i]), pieces(i)[j].content, k)
  {
    CutsOfOne(pieces, |segments|, i, j);
    PieceIsStored(chunks, CutsOf(pieces, |segments|), segments, i, |CutsOf(pieces, i)| + j);
  }

  lemma {:induction false} PiecesAreStored(
    chunks: seq<SegmentChunk>, segments: seq<Segment>, pieces: nat -> seq<TextChunk>, i: nat)
    requires i < |segments| && Rendered(chunks, CutsOf(pieces, |segments|), segments)
    ensures StoredFrom(chunks, segments[i], pieces(i), |CutsOf(pieces, i)|)
  {
    CutsGrow(pieces, i + 1, |segments|);
    forall j: nat | j < |pieces(i)| {
      OnePieceStored(chunks, segments, pieces, i, j);
    }
  }

  /** Where the chunks of segment i start, and where those of the next one do. */
  function FirstChunk(segments: seq<Segment>, size: int, overlap: nat, i: nat): nat {
    |CutsOf(PieceTable(segments, size, overlap), i)|
  }

  /** The chunks of a document are the pieces of its segments, one segment after another; a segment that says
      nothing has none. */
  lemma {:induction false} SegmentsFollowEachOther(
    chunks: seq<SegmentChunk>, segments: seq<Segment>, size: int, overlap: nat, i: nat)
    requires Rendered(chunks, Cuts(segments, size, overlap), segments) && i < |segments|
    ensures var pieces, from := Pieces(segments[i], size, overlap), FirstChunk(segments, size, overlap, i);
            && StoredFrom(chunks, segments[i], pieces, from)
            && FirstChunk(segments, size, overlap, i + 1) == from + |pieces|
            && (Blank(segments[i].content) ==> pieces == [])
    ensures FirstChunk(segments, size, overlap, 0) == 0
    ensures FirstChunk(segments, size, overlap, |segments|) == |chunks|
  {
    StripIsEmptyIffBlank(segments[i].content);
    PiecesAreStored(chunks, segments, PieceTable(segments, size, overlap), i);
  }

  lemma {:induction false} CutsGrow(pieces: nat -> seq<TextChunk>, m: nat, n: nat)
    requires m <= n
    ensures |CutsOf(pieces, m)| <= |CutsOf(pieces, n)|
    decreases n
  {
    if m < n {
      CutsGrow(pieces, m, n - 1);
    }
  }
}
