/** History compression (compressor.rs). */
module Compressor {
  import opened Messages
  import opened Text

  const TRUNCATE_CHARS: nat := 200

  datatype CompressionResult = CompressionResult(
    compressed: bool,
    originalTokens: nat,
    compressedTokens: nat,
    messagesRemoved: nat)

  datatype ContextCompressor = ContextCompressor(maxContextTokens: nat, historyShare: real, show: Show) {
    /** `(max as f32 * share) as usize`: rounds down, a negative product saturates at zero. */
    function Budget(): nat {
      Saturated(Share())
    }

    function Share(): real { maxContextTokens as real * historyShare }

    predicate Overflows(conversation: seq<Message>) {
      TotalTokens(conversation, show) > Budget()
    }
  }

  function Saturated(x: real): nat { if x < 0.0 then 0 else x.Floor }

  function Cut(content: string): string {
    if |content| > TRUNCATE_CHARS then content[..TRUNCATE_CHARS] + "..." else content
  }

  function CallLine(tc: ToolCall, show: Show): string {
    Format(["Called tool '", tc.name, "' with args: ", show(tc.input)])
  }

  function ResultLine(m: Message): string
    requires m.ToolResult?
  {
    Format(["Tool '", m.name, "' [", if m.isError then "ERROR" else "OK", "]: ", Cut(m.content)])
  }

  /** What the summary records of one message. */
  function Lines(m: Message, show: Show): (lines: seq<string>)
    ensures |lines| == if m.Assistant? then |m.toolCalls| else if m.ToolResult? then 1 else 0
  {
    match m
    case Assistant(_, calls) => seq(|calls|, i requires 0 <= i < |calls| => CallLine(calls[i], show))
    case ToolResult(_, _, _, _, _) => [ResultLine(m)]
    case _ => []
  }

  type LinesOf = Message -> seq<string>

  /** The lines of all messages, in order. */
  function Flat(ms: seq<Message>, lines: LinesOf): seq<string> {
    if |ms| == 0 then [] else lines(ms[0]) + Flat(ms[1..], lines)
  }

  function Recorded(show: Show): LinesOf {
    m => Lines(m, show)
  }

  function SummaryLines(ms: seq<Message>, show: Show): seq<string> {
    Flat(ms, Recorded(show))
  }

  lemma {:induction false} FlatSplit(a: seq<Message>, b: seq<Message>, lines: LinesOf)
    ensures Flat(a + b, lines) == Flat(a, lines) + Flat(b, lines)
  {
    if |a| == 0 {
      assert a + b == b;
    } else {
      assert (a + b)[1..] == a[1..] + b;
      FlatSplit(a[1..], b, lines);
    }
  }

  lemma FlatOneMore(ms: seq<Message>, k: nat, lines: LinesOf)
    requires k < |ms|
    ensures Flat(ms[..k + 1], lines) == Flat(ms[..k], lines) + lines(ms[k])
  {
    assert ms[..k + 1] == ms[..k] + [ms[k]];
    FlatSplit(ms[..k], [ms[k]], lines);
    FlatOne(ms[k], lines);
  }

  lemma FlatOne(m: Message, lines: LinesOf)
    ensures Flat([m], lines) == lines(m)
  {
    assert [m][1..] == [] && lines(m) + [] == lines(m);
  }

  /** What the messages before, at and after one contribute. */
  lemma FlatAround(before: seq<Message>, m: Message, after: seq<Message>, lines: LinesOf)
    ensures Flat(before + [m] + after, lines) == Flat(before, lines) + lines(m) + Flat(after, lines)
  {
    FlatSplit(before + [m], after, lines);
    FlatSplit(before, [m], lines);
    FlatOne(m, lines);
  }

  /** The message that stands for removed ones. */
  function SummaryOf(removed: nat, parts: seq<string>): Message {
    User(Format(["[Compressed history — ", Decimal(removed), " previous interactions]\n", Join(parts, "\n")]))
  }

  function Summary(removed: seq<Message>, show: Show): Message {
    SummaryOf(|removed|, SummaryLines(removed, show))
  }

  /** The conversation that `check_and_compress` leaves behind. */
  function Compressed(c: ContextCompressor, conversation: seq<Message>): seq<Message> {
    if !c.Overflows(conversation) || |conversation| <= 4 then conversation
    else
      var removeEnd := |conversation| - 4;
      [conversation[0], Summary(conversation[1..removeEnd], c.show)] + conversation[removeEnd..]
  }

  /** The summary lines of one removed message. */
  method MessageLines(m: Message, show: Show) returns (lines: seq<string>)
    ensures lines == Lines(m, show)
  {
    lines := [];
    match m {
      case Assistant(_, calls) =>
        for j := 0 to |calls|
          invariant lines == Lines(m, show)[..j]
        {
          lines := lines + [CallLine(calls[j], show)];
        }
      case ToolResult(_, _, content, _, _) =>
        lines := [ResultLine(m)];
      case _ =>
    }
  }

  /** The summary lines of the removed messages. */
  method SummaryParts(removed: seq<Message>, show: Show) returns (parts: seq<string>)
    ensures parts == SummaryLines(removed, show)
  {
    parts := [];
    for k := 0 to |removed|
      invariant parts == SummaryLines(removed[..k], show)
    {
      FlatOneMore(removed, k, Recorded(show));
      var lines := MessageLines(removed[k], show);
      parts := parts + lines;
    }
    assert removed[..|removed|] == removed;
  }

  method CheckAndCompress(c: ContextCompressor, conversation: seq<Message>)
    returns (next: seq<Message>, result: CompressionResult)
    ensures next == Compressed(c, conversation)
    ensures result.compressed <==> c.Overflows(conversation) && |conversation| > 4
    ensures result.originalTokens == TotalTokens(conversation, c.show)
    ensures result.compressedTokens == TotalTokens(next, c.show)
    ensures |conversation| + (if result.compressed then 1 else 0) == |next| + result.messagesRemoved
  {
    var originalTokens := TotalTokens(conversation, c.show);
    if originalTokens <= c.Budget() || |conversation| <= 4 {
      return conversation, CompressionResult(false, originalTokens, originalTokens, 0);
    }
    var keepTail := if 4 < |conversation| - 1 then 4 else |conversation| - 1;
    var removeStart, removeEnd := 1, |conversation| - keepTail;
    var parts := SummaryParts(conversation[removeStart..removeEnd], c.show);
    var summary := SummaryOf(removeEnd - removeStart, parts);
    next := [conversation[0]];
    next := next + [summary];
    next := next + conversation[removeEnd..];
    var compressedTokens := TotalTokens(next, c.show);
    result := CompressionResult(true, originalTokens, compressedTokens, removeEnd - removeStart);
  }

  /** After compression the conversation fits, or it is six messages at most. */
  lemma FitsOrSmall(c: ContextCompressor, conversation: seq<Message>)
    ensures !c.Overflows(Compressed(c, conversation)) || |Compressed(c, conversation)| <= 6
    ensures |conversation| == 5 && c.Overflows(conversation) ==> |Compressed(c, conversation)| == 6
  {
  }

  /** Head and the last four messages survive verbatim. */
  lemma KeepsEnds(c: ContextCompressor, conversation: seq<Message>)
    requires |conversation| > 0
    ensures var next := Compressed(c, conversation);
            && |next| > 0
            && next[0] == conversation[0]
            && (|conversation| >= 4 ==>
                  |next| >= 4 && next[|next| - 4..] == conversation[|conversation| - 4..])
            && (|conversation| < 4 ==> next == conversation)
  {
    var next := Compressed(c, conversation);
    if |conversation| > 4 && c.Overflows(conversation) {
      assert next[2..] == conversation[|conversation| - 4..];
    }
  }

  /** How many summary lines a message takes. */
  function LineCount(m: Message): nat {
    match m
    case Assistant(_, calls) => |calls|
    case ToolResult(_, _, _, _, _) => 1
    case _ => 0
  }

  /** How many summary lines the messages before `k` take. */
  function LinesBefore(ms: seq<Message>, k: nat): nat
    requires k <= |ms|
  {
    if k == 0 then 0 else LinesBefore(ms, k - 1) + LineCount(ms[k - 1])
  }

  /** Message `k`'s lines sit in a block of their own, blocks in message order, nothing between. */
  lemma EachLineOnceInOrder(ms: seq<Message>, k: nat, show: Show)
    requires k < |ms|
    ensures |SummaryLines(ms, show)| == LinesBefore(ms, |ms|)
    ensures LinesBefore(ms, k) <= LinesBefore(ms, k + 1) <= |SummaryLines(ms, show)|
    ensures SummaryLines(ms, show)[LinesBefore(ms, k)..LinesBefore(ms, k + 1)] == Lines(ms[k], show)
  {
    FlatBlock(ms, k, Recorded(show));
  }

  lemma FlatBlock(ms: seq<Message>, k: nat, lines: LinesOf)
    requires k < |ms| && forall m :: |lines(m)| == LineCount(m)
    ensures |Flat(ms, lines)| == LinesBefore(ms, |ms|)
    ensures LinesBefore(ms, k) <= LinesBefore(ms, k + 1) <= |Flat(ms, lines)|
    ensures Flat(ms, lines)[LinesBefore(ms, k)..LinesBefore(ms, k + 1)] == lines(ms[k])
  {
    var before, after := ms[..k], ms[k + 1..];
    LinesBeforeCounts(ms, |ms|, lines);
    LinesBeforeCounts(ms, k, lines);
    assert ms[..|ms|] == ms;
    assert ms == before + [ms[k]] + after;
    FlatAround(before, ms[k], after, lines);
    BlockOf(Flat(before, lines), lines(ms[k]), Flat(after, lines));
  }

  lemma BlockOf(a: seq<string>, block: seq<string>, b: seq<string>)
    ensures (a + block + b)[|a|..|a| + |block|] == block
  {
  }

  lemma {:induction false} LinesBeforeCounts(ms: seq<Message>, k: nat, lines: LinesOf)
    requires k <= |ms| && forall m :: |lines(m)| == LineCount(m)
    ensures |Flat(ms[..k], lines)| == LinesBefore(ms, k)
  {
    if k > 0 {
      LinesBeforeCounts(ms, k - 1, lines);
      FlatOneMore(ms, k - 1, lines);
    }
  }

  /** A call's line has its name and arguments, a result's its name, whether it failed, and its content
      up to 200 characters. */
  lemma LinesSay(m: Message, show: Show)
    ensures m.Assistant? ==> forall i :: 0 <= i < |m.toolCalls| ==>
              HasPart(Lines(m, show)[i], m.toolCalls[i].name) && HasPart(Lines(m, show)[i], show(m.toolCalls[i].input))
    ensures m.ToolResult? ==>
              var line := Lines(m, show)[0];
              && HasPart(line, m.name) && HasPart(line, if m.isError then "ERROR" else "OK")
              && HasPart(line, if |m.content| <= 200 then m.content else m.content[..200] + "...")
  {
    if m.Assistant? {
      forall i | 0 <= i < |m.toolCalls|
        ensures HasPart(Lines(m, show)[i], m.toolCalls[i].name) && HasPart(Lines(m, show)[i], show(m.toolCalls[i].input))
      {
        var pieces := ["Called tool '", m.toolCalls[i].name, "' with args: ", show(m.toolCalls[i].input)];
        FormatHas(pieces, 1);
        FormatHas(pieces, 3);
      }
    }
    if m.ToolResult? {
      var pieces := ["Tool '", m.name, "' [", if m.isError then "ERROR" else "OK", "]: ", Cut(m.content)];
      FormatHas(pieces, 1);
      FormatHas(pieces, 3);
      FormatHas(pieces, 5);
    }
  }

  /** The one message a compression puts in: a user message with the number of messages it stands for
      and every line of theirs. */
  lemma SummarySays(c: ContextCompressor, conversation: seq<Message>)
    requires c.Overflows(conversation) && |conversation| > 4
    ensures var next, removed := Compressed(c, conversation), conversation[1..|conversation| - 4];
            && |next| == 6 && next[1].User?
            && HasPart(next[1].content, Decimal(|conversation| - 5))
            && forall line :: line in SummaryLines(removed, c.show) ==> HasPart(next[1].content, line)
  {
    var removed := conversation[1..|conversation| - 4];
    SummaryHas(|removed|, SummaryLines(removed, c.show));
  }

  lemma SummaryHas(n: nat, parts: seq<string>)
    ensures SummaryOf(n, parts).User? && HasPart(SummaryOf(n, parts).content, Decimal(n))
    ensures forall line :: line in parts ==> HasPart(SummaryOf(n, parts).content, line)
  {
    var pieces := ["[Compressed history — ", Decimal(n), " previous interactions]\n", Join(parts, "\n")];
    FormatHas(pieces, 1);
    FormatHas(pieces, 3);
    forall line | line in parts
      ensures HasPart(Format(pieces), line)
    {
      var k: nat :| k < |parts| && parts[k] == line;
      JoinHas(parts, "\n", k);
      HasPartOfPart(Format(pieces), Join(parts, "\n"), line);
    }
  }

  lemma HasPartOfPart(s: string, middle: string, part: string)
    requires HasPart(s, middle) && HasPart(middle, part)
    ensures HasPart(s, part)
  {
    var i :| PartAt(s, i, middle);
    assert s == s[..i] + middle + s[i + |middle|..];
    PartInside(s[..i], middle, s[i + |middle|..], part);
  }

  /** Over budget is over the real share, whatever is rounded. */
  lemma OverflowsIff(c: ContextCompressor, conversation: seq<Message>)
    ensures var tokens := TotalTokens(conversation, c.show) as real;
            c.Overflows(conversation) <==> tokens > c.Share() && tokens > 0.0
  {
    AboveSaturated(TotalTokens(conversation, c.show), c.Share());
  }

  lemma AboveSaturated(n: nat, x: real)
    ensures n > Saturated(x) <==> n as real > x && n as real > 0.0
  {
    if x >= 0.0 {
      var floor := x.Floor;
      assert floor as real <= x < (floor + 1) as real;
      assert n > floor ==> n as real >= (floor + 1) as real;
      assert n <= floor ==> n as real <= floor as real;
    }
  }

  /** A summary is a user message, so a later compression drops it without a trace: the new summary
      lists only what came after the old one. The old one stays exactly as long as what grew behind
      it fits. */
  lemma RecompressionForgets(c: ContextCompressor, conversation: seq<Message>, grown: seq<Message>)
    requires |conversation| > 4 && c.Overflows(conversation)
    ensures var tail := conversation[|conversation| - 4..] + grown;
            var once := Compressed(c, conversation) + grown;
            var twice := Compressed(c, once);
            && once[1] == Summary(conversation[1..|conversation| - 4], c.show)
            && (if c.Overflows(once) then
                  twice == [conversation[0], SummaryOf(|once| - 5, SummaryLines(tail[..|grown|], c.show))] + tail[|grown|..]
                else
                  twice == once)
            && (grown != [] ==> (twice == once <==> !c.Overflows(once)))
  {
    var tail := conversation[|conversation| - 4..] + grown;
    var once := Compressed(c, conversation) + grown;
    assert once[2..] == tail;
    if c.Overflows(once) {
      var removed := once[1..|once| - 4];
      assert removed[1..] == tail[..|grown|] && once[|once| - 4..] == tail[|grown|..];
      assert Lines(removed[0], c.show) == [];
      assert SummaryLines(removed, c.show) == SummaryLines(removed[1..], c.show);
    }
  }

  // ---- Results whose call is gone ----------------------------------------------

  predicate Calls(m: Message, id: string) {
    m.Assistant? && exists tc :: tc in m.toolCalls && tc.id == id
  }

  predicate CalledWithin(ms: seq<Message>, from: nat, to: nat, id: string)
    requires to <= |ms|
  {
    exists i :: from <= i < to && Calls(ms[i], id)
  }

  /** A result with no call anywhere before it. */
  predicate Orphan(ms: seq<Message>, k: nat)
    requires k < |ms|
  {
    ms[k].ToolResult? && !CalledWithin(ms, 0, k, ms[k].toolUseId)
  }

  predicate NoOrphans(ms: seq<Message>) {
    forall k :: 0 <= k < |ms| ==> !Orphan(ms, k)
  }

  /** Compression removes something, and what it keeps begins with a result. */
  predicate CutsAtResult(c: ContextCompressor, conversation: seq<Message>) {
    c.Overflows(conversation) && |conversation| > 4 && conversation[|conversation| - 4].ToolResult?
  }

  /** Compression takes the call from the first kept result exactly when it removes something and that
      call is in the removed middle and not at the head. */
  lemma FirstKeptOrphanedIff(c: ContextCompressor, conversation: seq<Message>)
    requires |conversation| >= 4
    ensures var next, end := Compressed(c, conversation), |conversation| - 4;
            && |next| >= 4
            && ((Orphan(next, |next| - 4) && !Orphan(conversation, end)) <==>
                && CutsAtResult(c, conversation)
                && CalledWithin(conversation, 1, end, conversation[end].toolUseId)
                && !Calls(conversation[0], conversation[end].toolUseId))
  {
    var next, end := Compressed(c, conversation), |conversation| - 4;
    if CutsAtResult(c, conversation) {
      var id := conversation[end].toolUseId;
      assert next[2] == conversation[end];
      assert next[0] == conversation[0] && !Calls(next[1], id);
      assert CalledWithin(next, 0, 2, id) <==> Calls(conversation[0], id) by {
        if Calls(conversation[0], id) {
          assert Calls(next[0], id);
        }
      }
    }
  }

  /** A result of one of the calls of the last message before it that is not a result. */
  predicate FollowsCall(ms: seq<Message>, k: nat)
    requires k < |ms| && ms[k].ToolResult?
  {
    exists i :: 0 <= i < k && Calls(ms[i], ms[k].toolUseId) && forall j :: i < j < k ==> ms[j].ToolResult?
  }

  /** Results stand right behind the message that calls for them, and the head is neither: how
      both loops build a conversation. */
  predicate CallsFirst(ms: seq<Message>) {
    && |ms| > 0
    && (ms[0].System? || ms[0].User?)
    && (forall k :: 0 <= k < |ms| && ms[k].ToolResult? ==> FollowsCall(ms, k))
  }

  lemma CallsFirstHasNoOrphans(ms: seq<Message>)
    requires CallsFirst(ms)
    ensures NoOrphans(ms)
  {
    forall k | 0 <= k < |ms| && ms[k].ToolResult?
      ensures CalledWithin(ms, 0, k, ms[k].toolUseId)
    {
      assert FollowsCall(ms, k);
    }
  }

  /** Compressing such a conversation leaves such a one, or one with an orphan, and the
      latter exactly when what it keeps begins with a result. */
  lemma CallsKeptIff(c: ContextCompressor, conversation: seq<Message>)
    requires CallsFirst(conversation)
    ensures var next := Compressed(c, conversation);
            && (NoOrphans(next) <==> !CutsAtResult(c, conversation))
            && (CallsFirst(next) <==> !CutsAtResult(c, conversation))
  {
    var next, end := Compressed(c, conversation), |conversation| - 4;
    if CutsAtResult(c, conversation) {
      assert Orphan(next, 2);
      if CallsFirst(next) {
        CallsFirstHasNoOrphans(next);
      }
    } else {
      if next != conversation {
        forall k | 0 <= k < |next| && next[k].ToolResult?
          ensures FollowsCall(next, k)
        {
          KeptFollowsCall(conversation, next, end, k);
        }
      }
      CallsFirstHasNoOrphans(next);
    }
  }

  lemma KeptFollowsCall(conversation: seq<Message>, next: seq<Message>, end: nat, k: nat)
    requires CallsFirst(conversation) && 0 < end < |conversation| && !conversation[end].ToolResult?
    requires |next| >= 2 && next[0] == conversation[0] && !next[1].ToolResult? && next[2..] == conversation[end..]
    requires k < |next| && next[k].ToolResult?
    ensures FollowsCall(next, k)
  {
    var shift := end - 2;
    assert forall j :: 2 <= j < |next| ==> next[j] == next[2..][j - 2] == conversation[j + shift];
    assert FollowsCall(conversation, k + shift);
    var i :| 0 <= i < k + shift && Calls(conversation[i], next[k].toolUseId)
             && forall j :: i < j < k + shift ==> conversation[j].ToolResult?;
    assert i >= end;
    assert Calls(next[i - shift], next[k].toolUseId);
  }
}
