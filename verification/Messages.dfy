/** Conversation messages (message.rs). */
module Messages {
  import opened Text
  import opened Wrappers

  /** A JSON value as the tool layer carries it. */
  datatype Json =
    | Null
    | Bool(b: bool)
    | Number(repr: string)
    | Str(text: string)
    | Array(items: seq<Json>)
    | Object(fields: map<string, Json>)
  {
    /** `value.get(key).and_then(as_str)`. */
    function TextAt(key: string): Option<string> {
      if Object? && key in fields && fields[key].Str? then Some(fields[key].text) else None
    }
  }

  datatype ToolCall = ToolCall(id: string, name: string, input: Json)

  datatype ImageData = ImageData(base64: string, mediaType: string)

  datatype Message =
    | System(content: string)
    | User(content: string)
    | Assistant(text: Option<string>, toolCalls: seq<ToolCall>)
    | ToolResult(toolUseId: string, name: string, content: string, isError: bool, image: Option<ImageData>)

  /** `serde_json::Value` printing is a parameter: only its length and text are used. */
  type Show = Json -> string

  function CallTokens(calls: seq<ToolCall>, show: Show): nat {
    if |calls| == 0 then 0
    else (Bytes(calls[0].name) + Bytes(show(calls[0].input))) / 4 + CallTokens(calls[1..], show)
  }

  function EstimatedTokens(m: Message, show: Show): nat {
    match m
    case System(t) => Bytes(t) / 4
    case User(t) => Bytes(t) / 4
    case Assistant(text, calls) =>
      (if text.Some? then Bytes(text.value) / 4 else 0) + CallTokens(calls, show)
    case ToolResult(_, _, content, _, image) =>
      Bytes(content) / 4 + (if image.Some? then Bytes(image.value.base64) / 4 else 0)
  }

  function TotalTokens(ms: seq<Message>, show: Show): nat {
    if |ms| == 0 then 0 else EstimatedTokens(ms[0], show) + TotalTokens(ms[1..], show)
  }

  // ---- What is counted -------------------------------------------------------

  function CallBytes(calls: seq<ToolCall>, show: Show): nat {
    if |calls| == 0 then 0 else Bytes(calls[0].name) + Bytes(show(calls[0].input)) + CallBytes(calls[1..], show)
  }

  /** Every byte of a message that goes to the LLM: its text, its calls with their arguments, its image. */
  function MessageBytes(m: Message, show: Show): nat {
    (match m
     case System(text) => Bytes(text)
     case User(text) => Bytes(text)
     case Assistant(text, _) => if text.Some? then Bytes(text.value) else 0
     case ToolResult(_, _, content, _, _) => Bytes(content))
    + (if m.Assistant? then CallBytes(m.toolCalls, show) else 0)
    + (if m.ToolResult? && m.image.Some? then Bytes(m.image.value.base64) else 0)
  }

  /** The texts that are rounded one by one: the message's own, and each call or image. */
  function Parts(m: Message): nat {
    1 + (if m.Assistant? then |m.toolCalls| else 0) + (if m.ToolResult? && m.image.Some? then 1 else 0)
  }

  function TotalBytes(ms: seq<Message>, show: Show): nat {
    if |ms| == 0 then 0 else MessageBytes(ms[0], show) + TotalBytes(ms[1..], show)
  }

  function TotalParts(ms: seq<Message>): nat {
    if |ms| == 0 then 0 else Parts(ms[0]) + TotalParts(ms[1..])
  }

  lemma {:induction false} CallTokensCount(calls: seq<ToolCall>, show: Show)
    ensures 4 * CallTokens(calls, show) <= CallBytes(calls, show) <= 4 * CallTokens(calls, show) + 3 * |calls|
  {
    if |calls| > 0 {
      CallTokensCount(calls[1..], show);
    }
  }

  lemma TokensCount(m: Message, show: Show)
    ensures 4 * EstimatedTokens(m, show) <= MessageBytes(m, show) <= 4 * EstimatedTokens(m, show) + 3 * Parts(m)
  {
    if m.Assistant? {
      CallTokensCount(m.toolCalls, show);
    }
  }

  /** The estimate is a quarter of the bytes of the conversation, but for what rounding each part down
      can lose. */
  lemma {:induction false} TotalTokensCount(ms: seq<Message>, show: Show)
    ensures 4 * TotalTokens(ms, show) <= TotalBytes(ms, show) <= 4 * TotalTokens(ms, show) + 3 * TotalParts(ms)
  {
    if |ms| > 0 {
      TokensCount(ms[0], show);
      TotalTokensCount(ms[1..], show);
    }
  }
}
