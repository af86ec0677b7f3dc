/** Accumulating a streamed LLM response (runtime.rs). */
module Stream {
  import opened Messages

  datatype StopReason = EndTurn | ToolUse | MaxTokens | StopSequence | Unknown

  datatype StreamEvent =
    | MessageStart
    | ContentBlockStart(index: nat)
    | TextDelta(text: string)
    | ToolUseStart(id: string, name: string)
    | ToolInputDelta(json: string)
    | ThinkingDelta(thought: string)
    | ContentBlockStop(index: nat)
    | MessageDelta(stopReason: StopReason)
    | MessageStop
    | Ping

  /** One item of the provider's stream: an event or a transport error. */
  datatype Item = Event(event: StreamEvent) | Failed

  /** How the buffered input of a call becomes a value. */
  type ParseInput = string -> Json

  datatype Accumulator = Accumulator(
    text: string,
    calls: seq<ToolCall>,
    id: string,
    name: string,
    input: string,
    stop: StopReason)

  const START := Accumulator("", [], "", "", "", EndTurn)

  function Close(a: Accumulator, parse: ParseInput): Accumulator {
    if a.name == "" then a
    else a.(calls := a.calls + [ToolCall(a.id, a.name, parse(a.input))], name := "", input := "")
  }

  function Feed(a: Accumulator, e: StreamEvent, parse: ParseInput): Accumulator {
    match e
    case TextDelta(text) => a.(text := a.text + text)
    case ToolUseStart(id, name) => a.(id := id, name := name, input := "")
    case ToolInputDelta(json) => a.(input := a.input + json)
    case ContentBlockStop(_) => Close(a, parse)
    case MessageDelta(stop) => Close(a.(stop := stop), parse)
    case _ => a
  }

  function FeedAll(a: Accumulator, events: seq<StreamEvent>, parse: ParseInput): Accumulator {
    if |events| == 0 then a
    else Feed(FeedAll(a, events[..|events| - 1], parse), events[|events| - 1], parse)
  }

  /** The whole response: feed everything, then close a call that was left open. */
  function Response(events: seq<StreamEvent>, parse: ParseInput): Accumulator {
    Close(FeedAll(START, events, parse), parse)
  }

  /** The events before the first transport error. */
  function Received(items: seq<Item>): (events: seq<StreamEvent>)
    ensures |events| <= |items|
  {
    if |items| == 0 || items[0].Failed? then [] else [items[0].event] + Received(items[1..])
  }

  predicate Broke(items: seq<Item>) {
    exists i :: 0 <= i < |items| && items[i].Failed?
  }

  lemma {:induction false} ReceivedStep(items: seq<Item>, k: nat)
    requires k < |items| && !Broke(items[..k])
    ensures Broke(items[..k + 1]) <==> items[k].Failed?
    ensures items[k].Failed? ==> Received(items) == Received(items[..k]) && Broke(items)
    ensures items[k].Event? ==> Received(items[..k + 1]) == Received(items[..k]) + [items[k].event]
  {
    assert forall i :: 0 <= i < k ==> items[..k][i] == items[i];
    assert forall i :: 0 <= i < k + 1 ==> items[..k + 1][i] == items[i];
    if k > 0 {
      var rest := items[1..];
      assert items[..k][1..] == rest[..k - 1] && items[..k + 1][1..] == rest[..k];
      ReceivedStep(rest, k - 1);
    } else {
      assert items[..1][1..] == [];
    }
  }

  lemma FeedAllStep(events: seq<StreamEvent>, e: StreamEvent, parse: ParseInput)
    ensures FeedAll(START, events + [e], parse) == Feed(FeedAll(START, events, parse), e, parse)
  {
    assert (events + [e])[..|events|] == events;
  }

  /** What the loop does with one event. */
  method HandleEvent(e: StreamEvent, text: string, calls: seq<ToolCall>, id: string, name: string, input: string,
                     stop: StopReason, parse: ParseInput)
    returns (text': string, calls': seq<ToolCall>, id': string, name': string, input': string, stop': StopReason)
    ensures Accumulator(text', calls', id', name', input', stop')
         == Feed(Accumulator(text, calls, id, name, input, stop), e, parse)
  {
    text', calls', id', name', input', stop' := text, calls, id, name, input, stop;
    match e {
      case TextDelta(delta) =>
        text' := text' + delta;
      case ToolUseStart(newId, newName) =>
        id', name', input' := newId, newName, "";
      case ToolInputDelta(json) =>
        input' := input' + json;
      case ContentBlockStop(_) =>
        if name != "" {
          calls' := calls' + [ToolCall(id, name, parse(input))];
          name', input' := "", "";
        }
      case MessageDelta(reason) =>
        stop' := reason;
        if name != "" {
          calls' := calls' + [ToolCall(id, name, parse(input))];
          name', input' := "", "";
        }
      case _ =>
    }
  }

  /** The event loop shared by `run_task` and `run_turn`; it stops at a transport error. */
  method Accumulate(items: seq<Item>, parse: ParseInput) returns (a: Accumulator, broke: bool)
    ensures broke <==> Broke(items)
    ensures a == Response(Received(items), parse)
  {
    var text, calls := "", [];
    var id, name, input := "", "", "";
    var stop := EndTurn;
    broke := false;
    var k := 0;
    while k < |items| && !broke
      invariant k <= |items|
      invariant if broke then Broke(items) && Received(items) == Received(items[..k]) else !Broke(items[..k])
      invariant Accumulator(text, calls, id, name, input, stop) == FeedAll(START, Received(items[..k]), parse)
      decreases |items| - k, !broke
    {
      ReceivedStep(items, k);
      if items[k].Failed? {
        broke := true;
      } else {
        FeedAllStep(Received(items[..k]), items[k].event, parse);
        text, calls, id, name, input, stop := HandleEvent(items[k].event, text, calls, id, name, input, stop, parse);
        k := k + 1;
      }
    }
    assert !broke ==> items[..k] == items;
    if name != "" {
      calls := calls + [ToolCall(id, name, parse(input))];
      name, input := "", "";
    }
    a := Accumulator(text, calls, id, name, input, stop);
  }

  // ---- What a provider sends -------------------------------------------------

  datatype Closer = ByStop(index: nat) | ByMessageDelta(stop: StopReason) | AtEnd

  /** A response as the provider composes it. */
  datatype Block =
    | Loose(event: StreamEvent)
    | Call(id: string, name: string, body: seq<StreamEvent>, closer: Closer)

  predicate Closes(e: StreamEvent) { e.ContentBlockStop? || e.MessageDelta? }

  predicate WellFormedBlock(b: Block) {
    match b
    case Loose(e) => !e.ToolUseStart?
    case Call(_, name, body, _) =>
      name != "" && forall i :: 0 <= i < |body| ==> !body[i].ToolUseStart? && !Closes(body[i])
  }

  /** Only the last block may wait for the end of the stream. */
  predicate WellFormed(blocks: seq<Block>) {
    && (forall i :: 0 <= i < |blocks| ==> WellFormedBlock(blocks[i]))
    && (forall i :: 0 <= i < |blocks| - 1 ==> blocks[i].Call? ==> !blocks[i].closer.AtEnd?)
  }

  function EncodeBlock(b: Block): seq<StreamEvent> {
    match b
    case Loose(e) => [e]
    case Call(id, name, body, closer) =>
      [ToolUseStart(id, name)] + body
      + (match closer
         case ByStop(index) => [ContentBlockStop(index)]
         case ByMessageDelta(stop) => [MessageDelta(stop)]
         case AtEnd => [])
  }

  function Encode(blocks: seq<Block>): seq<StreamEvent> {
    if |blocks| == 0 then [] else Encode(blocks[..|blocks| - 1]) + EncodeBlock(blocks[|blocks| - 1])
  }

  function InputOf(body: seq<StreamEvent>): string {
    if |body| == 0 then ""
    else InputOf(body[..|body| - 1]) + (match body[|body| - 1] case ToolInputDelta(j) => j case _ => "")
  }

  function CallsOf(blocks: seq<Block>, parse: ParseInput): seq<ToolCall> {
    if |blocks| == 0 then []
    else CallsOf(blocks[..|blocks| - 1], parse)
         + (match blocks[|blocks| - 1]
            case Call(id, name, body, _) => [ToolCall(id, name, parse(InputOf(body)))]
            case Loose(_) => [])
  }

  function TextOf(events: seq<StreamEvent>): string {
    if |events| == 0 then ""
    else TextOf(events[..|events| - 1]) + (match events[|events| - 1] case TextDelta(t) => t case _ => "")
  }

  function StopOf(events: seq<StreamEvent>): StopReason {
    if |events| == 0 then EndTurn
    else match events[|events| - 1] case MessageDelta(stop) => stop case _ => StopOf(events[..|events| - 1])
  }

  lemma {:induction false} FeedAllSplit(a: Accumulator, x: seq<StreamEvent>, y: seq<StreamEvent>, parse: ParseInput)
    ensures FeedAll(a, x + y, parse) == FeedAll(FeedAll(a, x, parse), y, parse)
  {
    if |y| == 0 {
      assert x + y == x;
    } else {
      assert (x + y)[..|x + y| - 1] == x + y[..|y| - 1];
      FeedAllSplit(a, x, y[..|y| - 1], parse);
    }
  }

  /** Text and stop reason are right for every stream, however its calls are broken up. */
  lemma {:induction false} TextAndStop(events: seq<StreamEvent>, parse: ParseInput)
    ensures var a := FeedAll(START, events, parse); a.text == TextOf(events) && a.stop == StopOf(events)
  {
    if |events| > 0 {
      TextAndStop(events[..|events| - 1], parse);
    }
  }

  /** While a call is open, its body only adds to the input buffer (and to the text). */
  lemma {:induction false} FeedBody(a: Accumulator, body: seq<StreamEvent>, parse: ParseInput)
    requires forall i :: 0 <= i < |body| ==> !body[i].ToolUseStart? && !Closes(body[i])
    ensures var b := FeedAll(a, body, parse);
            b.calls == a.calls && b.id == a.id && b.name == a.name && b.input == a.input + InputOf(body)
  {
    if |body| > 0 {
      FeedBody(a, body[..|body| - 1], parse);
    }
  }

  lemma FeedBlock(a: Accumulator, b: Block, parse: ParseInput)
    requires a.name == "" && WellFormedBlock(b)
    ensures var r := FeedAll(a, EncodeBlock(b), parse);
            && Close(r, parse).calls == a.calls + CallsOf([b], parse)
            && (b.Loose? || !b.closer.AtEnd? ==> r.name == "")
  {
    assert [b][..0] == [];
    match b {
      case Loose(e) =>
        assert [e][..0] == [];
      case Call(id, name, body, closer) =>
        var opening := [ToolUseStart(id, name)];
        assert opening[..0] == [];
        var started := FeedAll(a, opening, parse);
        FeedAllSplit(a, opening, body, parse);
        FeedBody(started, body, parse);
        var full := FeedAll(started, body, parse);
        assert "" + InputOf(body) == InputOf(body);
        if closer.AtEnd? {
          assert EncodeBlock(b) == opening + body;
        } else {
          var closing := if closer.ByStop? then ContentBlockStop(closer.index) else MessageDelta(closer.stop);
          assert EncodeBlock(b) == (opening + body) + [closing];
          FeedAllSplit(a, opening + body, [closing], parse);
          assert [closing][..0] == [];
        }
    }
  }

  /** The blocks end with no call left open. */
  predicate EndsClosed(blocks: seq<Block>) {
    |blocks| == 0 || blocks[|blocks| - 1].Loose? || !blocks[|blocks| - 1].closer.AtEnd?
  }

  lemma FrontWellFormed(blocks: seq<Block>)
    requires WellFormed(blocks) && |blocks| > 0
    ensures WellFormed(blocks[..|blocks| - 1]) && EndsClosed(blocks[..|blocks| - 1])
  {
    var front := blocks[..|blocks| - 1];
    assert |front| > 0 ==> front[|front| - 1] == blocks[|blocks| - 2];
  }

  lemma {:induction false} CallsInverted(blocks: seq<Block>, parse: ParseInput)
    requires WellFormed(blocks)
    ensures Response(Encode(blocks), parse).calls == CallsOf(blocks, parse)
    ensures EndsClosed(blocks) ==> FeedAll(START, Encode(blocks), parse).name == ""
  {
    if |blocks| > 0 {
      var front, last := blocks[..|blocks| - 1], blocks[|blocks| - 1];
      FrontWellFormed(blocks);
      CallsInverted(front, parse);
      FeedAllSplit(START, Encode(front), EncodeBlock(last), parse);
      FeedBlock(FeedAll(START, Encode(front), parse), last, parse);
      assert [last][..0] == [];
    }
  }

  /** Accumulation inverts the encoding. */
  lemma AccumulateInvertsEncode(blocks: seq<Block>, parse: ParseInput)
    requires WellFormed(blocks)
    ensures var r := Response(Encode(blocks), parse);
            && r.calls == CallsOf(blocks, parse)
            && r.text == TextOf(Encode(blocks))
            && r.stop == StopOf(Encode(blocks))
  {
    TextAndStop(Encode(blocks), parse);
    CallsInverted(blocks, parse);
  }

  // ---- Which streams lose a call ---------------------------------------------

  function Starts(events: seq<StreamEvent>): nat {
    if |events| == 0 then 0
    else Starts(events[..|events| - 1]) + (if events[|events| - 1].ToolUseStart? then 1 else 0)
  }

  /** A named call is open after these events. */
  predicate IsOpen(events: seq<StreamEvent>) {
    |events| > 0
    && match events[|events| - 1]
       case ToolUseStart(_, name) => name != ""
       case ContentBlockStop(_) => false
       case MessageDelta(_) => false
       case _ => IsOpen(events[..|events| - 1])
  }

  /** Every start is named and none arrives while another call is open. */
  predicate Tidy(events: seq<StreamEvent>) {
    forall i :: 0 <= i < |events| && events[i].ToolUseStart? ==> events[i].name != "" && !IsOpen(events[..i])
  }

  lemma {:induction false} StartsCounted(events: seq<StreamEvent>, parse: ParseInput)
    ensures var a := FeedAll(START, events, parse);
            && (a.name != "" <==> IsOpen(events))
            && |a.calls| + (if IsOpen(events) then 1 else 0) <= Starts(events)
            && (|a.calls| + (if IsOpen(events) then 1 else 0) == Starts(events) <==> Tidy(events))
  {
    if |events| > 0 {
      var front := events[..|events| - 1];
      StartsCounted(front, parse);
      assert forall i :: 0 <= i <= |front| ==> front[..i] == events[..i];
      assert Tidy(events) <==>
        Tidy(front) && (events[|front|].ToolUseStart? ==> events[|front|].name != "" && !IsOpen(front)) by {
        assert events[..|front|] == front;
        assert forall i :: 0 <= i < |front| ==> front[i] == events[i];
      }
    }
  }

  /** One call comes out per start exactly when the stream is tidy; otherwise some are lost. */
  lemma OneCallPerStart(events: seq<StreamEvent>, parse: ParseInput)
    ensures |Response(events, parse).calls| <= Starts(events)
    ensures |Response(events, parse).calls| == Starts(events) <==> Tidy(events)
  {
    StartsCounted(events, parse);
  }
}
