/** Message numbers of one thread, and the two watermarks that follow them. */
module Watermarks {
  import opened Wrappers
  import opened Ordinals

  const MAX_DELTA: nat := 100
  const TRIGGER_TOKENS: nat := 500
  const TRIGGER_MESSAGES: nat := 6

  type MessageId = nat

  datatype Message = Message(id: MessageId, number: nat, tokens: nat)

  /** The messages `from` + 1, ..., `to`, by number. */
  datatype Window = Window(from: nat, to: nat)

  datatype Summary = Summary(version: nat, through: MessageId)

  /** A thread; the two window lists record what committed passes covered. */
  datatype Thread = Thread(
    messages: seq<Message>, extracted: nat, summaries: seq<Summary>, extractions: seq<Window>, coverage: seq<Window>)

  const NewThread: Thread := Thread([], 0, [], [], [])

  function Numbers(messages: seq<Message>): seq<nat> {
    seq(|messages|, i requires 0 <= i < |messages| => messages[i].number)
  }

  /** The messages numbered above `after`, oldest first, at most `limit` of them. */
  function MessagesAfter(messages: seq<Message>, after: nat, limit: nat): seq<Message> {
    if messages == [] || limit == 0 then []
    else if messages[0].number > after then [messages[0]] + MessagesAfter(messages[1..], after, limit - 1)
    else MessagesAfter(messages[1..], after, limit)
  }

  function Versions(summaries: seq<Summary>): seq<nat> {
    seq(|summaries|, i requires 0 <= i < |summaries| => summaries[i].version)
  }

  /** The summary with the greatest version. */
  function LatestSummary(summaries: seq<Summary>): Option<Summary> {
    if summaries == [] then None
    else
      var rest, last := LatestSummary(summaries[..|summaries| - 1]), summaries[|summaries| - 1];
      if rest.Some? && rest.value.version > last.version then rest else Some(last)
  }

  function NumberOf(messages: seq<Message>, id: MessageId): Option<nat> {
    if messages == [] then None
    else if messages[0].id == id then Some(messages[0].number)
    else NumberOf(messages[1..], id)
  }

  /** How far the latest summary reaches; zero without one or when its message is gone. */
  function SummaryWatermark(t: Thread): nat {
    var latest := LatestSummary(t.summaries);
    if latest.None? then 0
    else
      var n := NumberOf(t.messages, latest.value.through);
      if n.Some? then n.value else 0
  }

  function TokenSum(messages: seq<Message>): nat {
    if messages == [] then 0 else messages[0].tokens + TokenSum(messages[1..])
  }

  datatype Action =
    | Append(id: MessageId, tokens: nat)
    | Extract(rolledBack: bool)
    | Summarize(empty: bool, rolledBack: bool)

  function Appended(t: Thread, id: MessageId, tokens: nat): Thread {
    t.(messages := t.messages + [Message(id, NextOrdinal(Numbers(t.messages)), tokens)])
  }

  function Extracted(t: Thread): Thread {
    var delta := MessagesAfter(t.messages, t.extracted, MAX_DELTA);
    if delta == [] then t
    else
      var target := delta[|delta| - 1].number;
      t.(extracted := target, extractions := t.extractions + [Window(t.extracted, target)])
  }

  function Summarized(t: Thread, empty: bool): Thread {
    var after := SummaryWatermark(t);
    var delta := MessagesAfter(t.messages, after, MAX_DELTA);
    if delta == [] || (TokenSum(delta) < TRIGGER_TOKENS && |delta| < TRIGGER_MESSAGES) || empty then t
    else
      var last := delta[|delta| - 1];
      t.(summaries := t.summaries + [Summary(NextOrdinal(Versions(t.summaries)), last.id)],
         coverage := t.coverage + [Window(after, last.number)])
  }

  predicate Possible(t: Thread, a: Action) {
    a.Append? ==> forall i :: 0 <= i < |t.messages| ==> t.messages[i].id != a.id
  }

  /** One append or one enrichment pass; a pass that fails is rolled back whole. */
  function Act(t: Thread, a: Action): Thread {
    match a
    case Append(id, tokens) => Appended(t, id, tokens)
    case Extract(rolledBack) => if rolledBack then t else Extracted(t)
    case Summarize(empty, rolledBack) => if rolledBack then t else Summarized(t, empty)
  }

  /** The rows of one thread. */
  class ThreadStore {
    var messages: seq<Message>
    var extracted: nat
    var summaries: seq<Summary>
    ghost var extractions: seq<Window>
    ghost var coverage: seq<Window>

    ghost function State(): Thread
      reads this
    {
      Thread(messages, extracted, summaries, extractions, coverage)
    }

    constructor ()
      ensures State() == NewThread
    {
      messages, extracted, summaries := [], 0, [];
      extractions, coverage := [], [];
    }

    method AppendMessage(id: MessageId, tokens: nat)
      modifies this`messages
      ensures State() == Appended(old(State()), id, tokens)
    {
      messages := messages + [Message(id, NextOrdinal(Numbers(messages)), tokens)];
    }

    /** The watermark part of an extraction pass; `fails` is a model or database failure after it. */
    method ExtractAndStore(fails: bool)
      modifies this`extracted, this`extractions
      ensures State() == Act(old(State()), Extract(fails))
    {
      var (saved, delta) := (extracted, MessagesAfter(messages, extracted, MAX_DELTA));
      ghost var savedWindows := extractions;
      if delta == [] {
        return;
      }
      extracted := delta[|delta| - 1].number;
      extractions := extractions + [Window(saved, extracted)];
      if fails {
        extracted := saved;
        extractions := savedWindows;
      }
    }

    /** A rolling-summary pass; `empty` says that the model returned no text. */
    method MaybeRefreshSummary(empty: bool, fails: bool)
      modifies this`summaries, this`coverage
      ensures State() == Act(old(State()), Summarize(empty, fails))
    {
      var after := 0;
      var latest := LatestSummary(summaries);
      if latest.Some? {
        var n := NumberOf(messages, latest.value.through);
        if n.Some? {
          after := n.value;
        }
      }
      var delta := MessagesAfter(messages, after, MAX_DELTA);
      if delta == [] || (TokenSum(delta) < TRIGGER_TOKENS && |delta| < TRIGGER_MESSAGES) {
        return;
      }
      if empty || fails {
        return;
      }
      var last := delta[|delta| - 1];
      summaries := summaries + [Summary(NextOrdinal(Versions(summaries)), last.id)];
      coverage := coverage + [Window(after, last.number)];
    }
  }

  // ---- What every run keeps ----

  /** The windows are contiguous from zero, in order, each of one to a hundred messages, ending at `end`. */
  ghost predicate Tiles(windows: seq<Window>, end: nat) {
    && (forall i :: 0 <= i < |windows| ==> windows[i].from < windows[i].to <= windows[i].from + MAX_DELTA)
    && (windows != [] ==> windows[0].from == 0)
    && (forall i, j :: 0 <= i && j == i + 1 && j < |windows| ==> windows[j].from == windows[i].to)
    && end == if windows == [] then 0 else windows[|windows| - 1].to
  }

  ghost predicate Counted(messages: seq<Message>) {
    && CountsFromOne(Numbers(messages))
    && forall i, j :: 0 <= i < j < |messages| ==> messages[i].id != messages[j].id
  }

  ghost predicate Sound(t: Thread) {
    && Counted(t.messages)
    && t.extracted <= |t.messages| && Tiles(t.extractions, t.extracted)
    && SummaryWatermark(t) <= |t.messages| && Tiles(t.coverage, SummaryWatermark(t))
    && CountsFromOne(Versions(t.summaries))
    && (forall i :: 0 <= i < |t.summaries| ==> NumberOf(t.messages, t.summaries[i].through).Some?)
  }

  /** The number of messages, of those from position `from` on, that a query with this limit returns. */
  function Returned(count: nat, from: nat, limit: nat): nat {
    if count <= from then 0 else if count - from < limit then count - from else limit
  }

  ghost predicate NumberedFrom(messages: seq<Message>, first: nat) {
    forall i :: 0 <= i < |messages| ==> messages[i].number == first + i
  }

  /** `delta` is what a query with this limit returns: the messages from position `from` on. */
  ghost predicate IsSlice(delta: seq<Message>, messages: seq<Message>, from: nat, limit: nat) {
    && |delta| == Returned(|messages|, from, limit)
    && forall i :: 0 <= i < |delta| ==> delta[i] == messages[from + i]
  }

  lemma {:induction false} SliceTaken(delta: seq<Message>, messages: seq<Message>, limit: nat)
    requires messages != [] && limit > 0 && IsSlice(delta, messages[1..], 0, limit - 1)
    ensures IsSlice([messages[0]] + delta, messages, 0, limit)
  {
    assert forall i :: 0 <= i < |delta| ==> delta[i] == messages[1..][i] == messages[1 + i];
  }

  lemma {:induction false} SliceSkipped(delta: seq<Message>, messages: seq<Message>, from: nat, limit: nat)
    requires messages != [] && IsSlice(delta, messages[1..], from, limit)
    ensures IsSlice(delta, messages, from + 1, limit)
  {
    assert forall i :: 0 <= i < |delta| ==> delta[i] == messages[1..][from + i] == messages[1 + from + i];
  }

  lemma {:induction false} AfterIsSlice(messages: seq<Message>, first: nat, after: nat, limit: nat)
    requires NumberedFrom(messages, first) && first > 0
    ensures IsSlice(MessagesAfter(messages, after, limit), messages,
                    if after < first then 0 else after - first + 1, limit)
    decreases |messages|
  {
    if messages != [] && limit > 0 {
      var rest := messages[1..];
      assert NumberedFrom(rest, first + 1);
      if first > after {
        AfterIsSlice(rest, first + 1, after, limit - 1);
        SliceTaken(MessagesAfter(rest, after, limit - 1), messages, limit);
      } else {
        AfterIsSlice(rest, first + 1, after, limit);
        SliceSkipped(MessagesAfter(rest, after, limit), messages, after - first, limit);
      }
    }
  }

  /** The delta of a watermark is the next block of messages: it starts right after the watermark. */
  lemma {:induction false} DeltaIsNextBlock(messages: seq<Message>, after: nat)
    requires Counted(messages) && after <= |messages|
    ensures var delta := MessagesAfter(messages, after, MAX_DELTA);
            && |delta| == (if |messages| - after < MAX_DELTA then |messages| - after else MAX_DELTA)
            && forall i :: 0 <= i < |delta| ==> delta[i] == messages[after + i] && delta[i].number == after + i + 1
  {
    forall i | 0 <= i < |messages| ensures messages[i].number == 1 + i {
      assert Numbers(messages)[i] == i + 1;
    }
    AfterIsSlice(messages, 1, after, MAX_DELTA);
  }

  lemma {:induction false} NumberOfFinds(messages: seq<Message>, i: nat)
    requires forall j, k :: 0 <= j < k < |messages| ==> messages[j].id != messages[k].id
    requires i < |messages|
    ensures NumberOf(messages, messages[i].id) == Some(messages[i].number)
    decreases |messages|
  {
    if i > 0 {
      NumberOfFinds(messages[1..], i - 1);
    }
  }

  lemma {:induction false} NumberOfPersists(messages: seq<Message>, m: Message, id: MessageId)
    requires NumberOf(messages, id).Some?
    ensures NumberOf(messages + [m], id) == NumberOf(messages, id)
    decreases |messages|
  {
    assert (messages + [m])[1..] == messages[1..] + [m];
    if messages[0].id != id {
      NumberOfPersists(messages[1..], m, id);
    }
  }

  lemma {:induction false} LatestIsLast(summaries: seq<Summary>)
    requires CountsFromOne(Versions(summaries))
    ensures LatestSummary(summaries) == if summaries == [] then None else Some(summaries[|summaries| - 1])
    decreases |summaries|
  {
    if |summaries| > 1 {
      var init := summaries[..|summaries| - 1];
      forall i | 0 <= i < |init| ensures Versions(init)[i] == i + 1 {
        assert Versions(summaries)[i] == i + 1;
      }
      LatestIsLast(init);
      assert Versions(summaries)[|summaries| - 1] == |summaries|;
      assert Versions(summaries)[|summaries| - 2] == |summaries| - 1;
    }
  }

  lemma {:induction false} AppendKeeps(t: Thread, id: MessageId, tokens: nat)
    requires Sound(t) && Possible(t, Append(id, tokens))
    ensures Sound(Appended(t, id, tokens)) && SummaryWatermark(Appended(t, id, tokens)) == SummaryWatermark(t)
  {
    var u := Appended(t, id, tokens);
    var m := u.messages[|t.messages|];
    NextOrdinalKeepsCount(Numbers(t.messages));
    assert Numbers(u.messages) == Numbers(t.messages) + [m.number];
    forall i | 0 <= i < |t.summaries|
      ensures NumberOf(u.messages, t.summaries[i].through) == NumberOf(t.messages, t.summaries[i].through)
    {
      NumberOfPersists(t.messages, m, t.summaries[i].through);
    }
    LatestIsLast(t.summaries);
  }

  lemma {:induction false} ExtractKeeps(t: Thread)
    requires Sound(t)
    ensures Sound(Extracted(t))
  {
    DeltaIsNextBlock(t.messages, t.extracted);
  }

  lemma {:induction false} TilesGrow(windows: seq<Window>, end: nat, to: nat)
    requires Tiles(windows, end) && end < to <= end + MAX_DELTA
    ensures Tiles(windows + [Window(end, to)], to)
  {
  }

  /** A committed summary covers exactly the delta, so the watermark moves to its last message. */
  lemma {:induction false} SummaryReachesDelta(t: Thread, u: Thread, last: Message)
    requires Counted(t.messages) && CountsFromOne(Versions(t.summaries)) && last in t.messages
    requires u == t.(summaries := u.summaries, coverage := u.coverage)
    requires u.summaries == t.summaries + [Summary(NextOrdinal(Versions(t.summaries)), last.id)]
    ensures CountsFromOne(Versions(u.summaries)) && SummaryWatermark(u) == last.number
    ensures NumberOf(u.messages, last.id).Some?
  {
    var i :| 0 <= i < |t.messages| && t.messages[i] == last;
    NumberOfFinds(t.messages, i);
    NextOrdinalKeepsCount(Versions(t.summaries));
    assert Versions(u.summaries) == Versions(t.summaries) + [NextOrdinal(Versions(t.summaries))];
    LatestIsLast(u.summaries);
  }

  lemma {:induction false} SummarizeKeeps(t: Thread, empty: bool)
    requires Sound(t)
    ensures Sound(Summarized(t, empty))
  {
    var after := SummaryWatermark(t);
    var delta := MessagesAfter(t.messages, after, MAX_DELTA);
    DeltaIsNextBlock(t.messages, after);
    var u := Summarized(t, empty);
    if u != t {
      var last := delta[|delta| - 1];
      assert last == t.messages[after + |delta| - 1];
      SummaryReachesDelta(t, u, last);
      TilesGrow(t.coverage, after, last.number);
    }
  }

  ghost predicate Run(t: Thread, acts: seq<Action>)
    decreases |acts|
  {
    acts == [] || (Possible(t, acts[0]) && Run(Act(t, acts[0]), acts[1..]))
  }

  ghost function After(t: Thread, acts: seq<Action>): Thread
    decreases |acts|
  {
    if acts == [] then t else After(Act(t, acts[0]), acts[1..])
  }

  lemma {:induction false} RunsStaySound(t: Thread, acts: seq<Action>)
    requires Sound(t) && Run(t, acts)
    ensures Sound(After(t, acts))
    decreases |acts|
  {
    if acts != [] {
      match acts[0] {
        case Append(id, tokens) => AppendKeeps(t, id, tokens);
        case Extract(_) => ExtractKeeps(t);
        case Summarize(empty, _) => SummarizeKeeps(t, empty);
      }
      RunsStaySound(Act(t, acts[0]), acts[1..]);
    }
  }

  /** However appends and passes interleave and whichever passes roll back: messages are numbered 1 to n,
      and the committed extraction windows, and separately the summary windows, tile a prefix of them. */
  lemma {:induction false} WindowsTileTheThread(acts: seq<Action>)
    requires Run(NewThread, acts)
    ensures var t := After(NewThread, acts);
            && CountsFromOne(Numbers(t.messages))
            && Tiles(t.extractions, t.extracted) && t.extracted <= |t.messages|
            && Tiles(t.coverage, SummaryWatermark(t)) && SummaryWatermark(t) <= |t.messages|
  {
    RunsStaySound(NewThread, acts);
  }

  /** No message is skipped: each one up to the watermark lies in exactly one committed window. */
  lemma {:induction false} EveryMessageIsInOneWindow(windows: seq<Window>, end: nat, n: nat) returns (k: nat)
    requires Tiles(windows, end) && 0 < n <= end
    ensures k < |windows| && windows[k].from < n <= windows[k].to
    ensures forall j :: 0 <= j < |windows| && windows[j].from < n <= windows[j].to ==> j == k
    decreases |windows|
  {
    var last := |windows| - 1;
    if windows[last].from < n {
      k := last;
    } else {
      InitTiles(windows, end);
      k := EveryMessageIsInOneWindow(windows[..last], windows[last].from, n);
    }
    forall j | 0 <= j < |windows| && windows[j].from < n <= windows[j].to ensures j == k {
      WindowsInOrder(windows, end, j, k);
      WindowsInOrder(windows, end, k, j);
    }
  }

  lemma {:induction false} InitTiles(windows: seq<Window>, end: nat)
    requires Tiles(windows, end) && windows != []
    ensures Tiles(windows[..|windows| - 1], windows[|windows| - 1].from)
  {
    var last := |windows| - 1;
    assert last > 0 ==> windows[last].from == windows[last - 1].to;
    assert last > 0 ==> windows[..last][0] == windows[0];
  }

  lemma {:induction false} WindowsInOrder(windows: seq<Window>, end: nat, j: nat, k: nat)
    requires Tiles(windows, end)
    ensures j < k < |windows| ==> windows[j].to <= windows[k].from
    decreases k
  {
    if j + 1 < k < |windows| {
      WindowsInOrder(windows, end, j, k - 1);
    }
  }

  function Taken(waiting: nat): nat {
    if waiting < MAX_DELTA then waiting else MAX_DELTA
  }

  /** A pass that is rolled back leaves the thread as it was, so the next pass covers the same messages; a
      committed extraction pass takes up everything new, up to a hundred messages. */
  lemma {:induction false} ExtractionMakesProgress(t: Thread)
    requires Sound(t)
    ensures Act(t, Extract(true)) == t
    ensures Act(t, Extract(false)).extracted == t.extracted + Taken(|t.messages| - t.extracted)
  {
    DeltaIsNextBlock(t.messages, t.extracted);
  }

  /** Where the delta of the summary watermark ends. */
  lemma {:induction false} DeltaEnds(messages: seq<Message>, after: nat)
    requires Counted(messages) && after < |messages|
    ensures var delta := MessagesAfter(messages, after, MAX_DELTA);
            && |delta| == Taken(|messages| - after)
            && delta[|delta| - 1] in messages && delta[|delta| - 1].number == after + |delta|
  {
    var delta := MessagesAfter(messages, after, MAX_DELTA);
    DeltaIsNextBlock(messages, after);
    assert delta[|delta| - 1] == messages[after + |delta| - 1];
  }

  /** A due summary pass with text adds one version that reaches to the end of its delta. */
  lemma {:induction false} DueSummary(t: Thread, delta: seq<Message>)
    requires Sound(t) && delta == MessagesAfter(t.messages, SummaryWatermark(t), MAX_DELTA)
    requires |delta| >= TRIGGER_MESSAGES && delta[|delta| - 1] in t.messages
    ensures SummaryWatermark(Summarized(t, false)) == delta[|delta| - 1].number
  {
    var u, last := Summarized(t, false), delta[|delta| - 1];
    assert u.summaries == t.summaries + [Summary(NextOrdinal(Versions(t.summaries)), last.id)];
    SummaryReachesDelta(t, u, last);
  }

  /** So does a committed summary pass once enough messages wait. */
  lemma {:induction false} SummariesMakeProgress(t: Thread, empty: bool)
    requires Sound(t)
    ensures Act(t, Summarize(empty, true)) == t
    ensures var after := SummaryWatermark(t);
            |t.messages| - after >= TRIGGER_MESSAGES && !empty ==>
              SummaryWatermark(Act(t, Summarize(empty, false))) == after + Taken(|t.messages| - after)
  {
    var after := SummaryWatermark(t);
    if |t.messages| - after >= TRIGGER_MESSAGES && !empty {
      DeltaEnds(t.messages, after);
      DueSummary(t, MessagesAfter(t.messages, after, MAX_DELTA));
    }
  }

  // ---- When a summary is due, and what each pass leaves alone ----

  /** The weight of a list of messages is the sum of theirs. */
  lemma {:induction false} TokenSumAdds(a: seq<Message>, b: seq<Message>)
    ensures TokenSum(a + b) == TokenSum(a) + TokenSum(b)
    ensures TokenSum([]) == 0 && forall m: Message :: TokenSum([m]) == m.tokens
  {
    if a == [] {
      assert a + b == b;
    } else {
      TokenSumAdds(a[1..], b);
      assert (a + b)[1..] == a[1..] + b;
    }
    forall m: Message ensures TokenSum([m]) == m.tokens {
      assert TokenSum([m][1..]) == 0;
    }
  }

  /** The messages that a summary pass looks at: those after the watermark, at most a hundred. */
  function NextBlock(t: Thread): seq<Message>
    requires SummaryWatermark(t) <= |t.messages|
  {
    t.messages[SummaryWatermark(t)..SummaryWatermark(t) + Taken(|t.messages| - SummaryWatermark(t))]
  }

  lemma {:induction false} DeltaIsBlock(t: Thread)
    requires Sound(t)
    ensures MessagesAfter(t.messages, SummaryWatermark(t), MAX_DELTA) == NextBlock(t)
  {
    DeltaIsNextBlock(t.messages, SummaryWatermark(t));
  }

  predicate SummaryDue(block: seq<Message>, empty: bool) {
    block != [] && (|block| >= 6 || TokenSum(block) >= 500) && !empty
  }

  lemma {:induction false} SummarizeBlock(t: Thread, empty: bool, block: seq<Message>)
    requires block == MessagesAfter(t.messages, SummaryWatermark(t), MAX_DELTA)
    ensures !SummaryDue(block, empty) ==> Summarized(t, empty) == t
    ensures SummaryDue(block, empty) ==>
      var last := block[|block| - 1];
      Summarized(t, empty) == t.(summaries := t.summaries + [Summary(NextOrdinal(Versions(t.summaries)), last.id)],
                                 coverage := t.coverage + [Window(SummaryWatermark(t), last.number)])
  {
  }

  lemma {:induction false} BlockEnds(t: Thread)
    requires Sound(t)
    ensures var block := NextBlock(t);
            block != [] ==> block[|block| - 1].number == SummaryWatermark(t) + |block|
  {
    DeltaIsBlock(t);
    DeltaIsNextBlock(t.messages, SummaryWatermark(t));
  }

  /** The thread after a new summary that covers a block. */
  function WithSummary(t: Thread, block: seq<Message>): Thread
    requires block != []
  {
    var from := SummaryWatermark(t);
    t.(summaries := t.summaries + [Summary(|t.summaries| + 1, block[|block| - 1].id)],
       coverage := t.coverage + [Window(from, from + |block|)])
  }

  /** A committed pass adds a summary exactly when the model returned text and at least six messages wait, or
      fewer that weigh at least 500 tokens. The new version is the next number and reaches to the end of the
      block; nothing else changes, and nothing at all when no summary is due. */
  lemma {:induction false} SummaryIsAddedIff(t: Thread, empty: bool)
    requires Sound(t)
    ensures var block := NextBlock(t);
            Act(t, Summarize(empty, false)) == if SummaryDue(block, empty) then WithSummary(t, block) else t
  {
    DeltaIsBlock(t);
    BlockEnds(t);
    SummarizeBlock(t, empty, NextBlock(t));
    NextOrdinalKeepsCount(Versions(t.summaries));
  }

  /** An append stores the message under the next number, and an extraction pass moves its own watermark; neither
      touches anything else. */
  lemma {:induction false} EachTouchesItsOwn(t: Thread, id: MessageId, tokens: nat)
    requires Sound(t)
    ensures Act(t, Append(id, tokens)) == t.(messages := t.messages + [Message(id, |t.messages| + 1, tokens)])
    ensures var u := Act(t, Extract(false));
            && (u.messages, u.summaries, u.coverage) == (t.messages, t.summaries, t.coverage)
            && u.extractions == if |t.messages| == t.extracted then t.extractions
                                else t.extractions
                                     + [Window(t.extracted, t.extracted + Taken(|t.messages| - t.extracted))]
  {
    NextOrdinalKeepsCount(Numbers(t.messages));
    DeltaIsNextBlock(t.messages, t.extracted);
  }
}
