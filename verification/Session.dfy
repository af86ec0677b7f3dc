/** The session log (session.rs) and rebuilding a conversation from it (task_queue.rs). */
module Session {
  import opened Messages
  import opened Ordering
  import opened Wrappers

  /** A row of the `messages` table. Times are the instants behind the RFC 3339 text. */
  datatype Row = Row(
    id: nat,
    sessionId: string,
    role: string,
    content: string,
    toolName: Option<string>,
    toolArgs: Option<string>,
    toolUseId: Option<string>,
    isError: bool,
    imageUrl: Option<string>,
    createdAt: int)

  datatype SessionRow = SessionRow(task: string, status: string, iterations: nat)

  /** How a list of tool calls is written to and read from the `tool_args` column. */
  datatype CallCodec = CallCodec(write: seq<ToolCall> -> string, read: string -> Option<seq<ToolCall>>) {
    ghost predicate Lawful() {
      forall calls :: read(write(calls)) == Some(calls)
    }
  }

  /** What one append puts in the log: a message and, for an image, the URL it was saved under. */
  datatype Entry = Entry(message: Message, imageUrl: Option<string>)

  function RowOf(sessionId: string, e: Entry, codec: CallCodec, id: nat, now: int): Row {
    match e.message
    case System(text) => Row(id, sessionId, "system", text, None, None, None, false, None, now)
    case User(text) => Row(id, sessionId, "user", text, None, None, None, false, None, now)
    case Assistant(text, calls) =>
      Row(id, sessionId, "assistant", if text.Some? then text.value else "", None,
          if |calls| == 0 then None else Some(codec.write(calls)), None, false, None, now)
    case ToolResult(toolUseId, name, content, isError, _) =>
      Row(id, sessionId, "tool_result", content, Some(name), None, Some(toolUseId), isError, e.imageUrl, now)
  }

  /** Rows appended for `entries`, ids and clock readings continuing from `from`. */
  function RowsOf(sessionId: string, entries: seq<Entry>, codec: CallCodec, clock: nat -> int, from: nat): (rows: seq<Row>)
    ensures |rows| == |entries|
  {
    seq(|entries|, i requires 0 <= i < |entries| => RowOf(sessionId, entries[i], codec, from + i, clock(from + i)))
  }

  class SessionStore {
    var sessions: map<string, SessionRow>
    var rows: seq<Row>
    const codec: CallCodec
    /** The clock at the n-th insert. */
    const clock: nat -> int

    constructor (codec: CallCodec, clock: nat -> int)
      ensures sessions == map[] && rows == [] && this.codec == codec && this.clock == clock
    {
      sessions, rows := map[], [];
      this.codec, this.clock := codec, clock;
    }

    method CreateSession(id: string, task: string)
      modifies this`sessions
      ensures sessions == old(sessions)[id := SessionRow(task, "running", 0)]
    {
      sessions := sessions[id := SessionRow(task, "running", 0)];
    }

    method AppendMessage(sessionId: string, m: Message)
      modifies this`rows
      ensures rows == old(rows) + RowsOf(sessionId, [Entry(m, None)], codec, clock, |old(rows)|)
      ensures var r := rows[|old(rows)|];
              && r.id == |old(rows)| && r.sessionId == sessionId && r.createdAt == clock(|old(rows)|) && r.imageUrl == None
              && r.content == (if m.Assistant? then m.text.UnwrapOr("") else m.content)
              && r.role == (if m.System? then "system" else if m.User? then "user"
                            else if m.Assistant? then "assistant" else "tool_result")
    {
      var id, now := |rows|, clock(|rows|);
      match m {
        case System(text) =>
          rows := rows + [Row(id, sessionId, "system", text, None, None, None, false, None, now)];
        case User(text) =>
          rows := rows + [Row(id, sessionId, "user", text, None, None, None, false, None, now)];
        case Assistant(text, toolCalls) =>
          var content := if text.Some? then text.value else "";
          var toolArgs := if |toolCalls| == 0 then None else Some(codec.write(toolCalls));
          rows := rows + [Row(id, sessionId, "assistant", content, None, toolArgs, None, false, None, now)];
        case ToolResult(toolUseId, name, content, isError, _) =>
          rows := rows + [Row(id, sessionId, "tool_result", content, Some(name), None, Some(toolUseId), isError, None, now)];
      }
    }

    method AppendToolResult(sessionId: string, toolUseId: string, toolName: string, content: string,
                            isError: bool, imageUrl: Option<string>, ghost image: Option<ImageData>)
      modifies this`rows
      ensures rows == old(rows)
                   + RowsOf(sessionId, [Entry(ToolResult(toolUseId, toolName, content, isError, image), imageUrl)],
                            codec, clock, |old(rows)|)
      ensures rows[|old(rows)|] == Row(|old(rows)|, sessionId, "tool_result", content, Some(toolName), None, Some(toolUseId),
                                       isError, imageUrl, clock(|old(rows)|))
    {
      rows := rows + [Row(|rows|, sessionId, "tool_result", content, Some(toolName), None, Some(toolUseId),
                          isError, imageUrl, clock(|rows|))];
    }

    method UpdateStatus(sessionId: string, status: string, iterations: nat)
      modifies this`sessions
      ensures sessions == if sessionId in old(sessions)
                          then old(sessions)[sessionId := SessionRow(old(sessions)[sessionId].task, status, iterations)]
                          else old(sessions)
    {
      if sessionId in sessions {
        sessions := sessions[sessionId := sessions[sessionId].(status := status, iterations := iterations)];
      }
    }
  }

  // ---- Reading back ----------------------------------------------------------

  function Of(rows: seq<Row>, sessionId: string): seq<Row> {
    if |rows| == 0 then []
    else if rows[0].sessionId == sessionId then [rows[0]] + Of(rows[1..], sessionId)
    else Of(rows[1..], sessionId)
  }

  function CreatedAt(r: Row): int { r.createdAt }

  /** Every answer `load_messages` may give: `ORDER BY created_at` leaves ties in any order. */
  predicate Loads(rows: seq<Row>, sessionId: string, loaded: seq<Row>) {
    Orders(Of(rows, sessionId), CreatedAt, loaded)
  }

  function RebuildRow(r: Row, codec: CallCodec): seq<Message> {
    if r.role == "user" then [User(r.content)]
    else if r.role == "assistant" then
      var parsed := if r.toolArgs.Some? then codec.read(r.toolArgs.value) else None;
      [Assistant(if r.content == "" then None else Some(r.content), if parsed.Some? then parsed.value else [])]
    else if r.role == "tool_result" then
      [ToolResult(if r.toolUseId.Some? then r.toolUseId.value else "",
                  if r.toolName.Some? then r.toolName.value else "",
                  r.content, r.isError, None)]
    else []
  }

  function Rebuilt(rows: seq<Row>, codec: CallCodec): seq<Message> {
    if |rows| == 0 then [] else Rebuilt(rows[..|rows| - 1], codec) + RebuildRow(rows[|rows| - 1], codec)
  }

  /** The loop in `execute_task` that turns stored rows into a conversation. */
  method Rebuild(messages: seq<Row>, codec: CallCodec) returns (conv: seq<Message>)
    ensures conv == Rebuilt(messages, codec)
  {
    conv := [];
    for k := 0 to |messages|
      invariant conv == Rebuilt(messages[..k], codec)
    {
      var m := messages[k];
      assert messages[..k + 1][..k] == messages[..k];
      if m.role == "user" {
        conv := conv + [User(m.content)];
      } else if m.role == "assistant" {
        var toolCalls := [];
        if m.toolArgs.Some? {
          var parsed := codec.read(m.toolArgs.value);
          if parsed.Some? { toolCalls := parsed.value; }
        }
        conv := conv + [Assistant(if m.content == "" then None else Some(m.content), toolCalls)];
      } else if m.role == "tool_result" {
        conv := conv + [ToolResult(if m.toolUseId.Some? then m.toolUseId.value else "",
                                   if m.toolName.Some? then m.toolName.value else "",
                                   m.content, m.isError, None)];
      }
    }
    assert messages[..|messages|] == messages;
  }

  /** What storage keeps of a message: no system text, no images, empty text as none. */
  function Normalise(m: Message): seq<Message> {
    match m
    case System(_) => []
    case User(_) => [m]
    case Assistant(text, calls) => [Assistant(if text == Some("") then None else text, calls)]
    case ToolResult(_, _, _, _, _) => [m.(image := None)]
  }

  function NormaliseAll(entries: seq<Entry>): seq<Message> {
    if |entries| == 0 then []
    else NormaliseAll(entries[..|entries| - 1]) + Normalise(entries[|entries| - 1].message)
  }

  /** The row is one append of the entry. */
  predicate Holds(r: Row, sessionId: string, e: Entry, codec: CallCodec) {
    r == RowOf(sessionId, e, codec, r.id, r.createdAt)
  }

  predicate HoldAll(rows: seq<Row>, sessionId: string, entries: seq<Entry>, codec: CallCodec) {
    |rows| == |entries| && forall i :: 0 <= i < |rows| ==> Holds(rows[i], sessionId, entries[i], codec)
  }

  /** The table holds, for this session, exactly the appends of `entries` in order. */
  predicate Records(rows: seq<Row>, sessionId: string, entries: seq<Entry>, codec: CallCodec) {
    HoldAll(Of(rows, sessionId), sessionId, entries, codec)
  }

  lemma {:induction false} RebuildNormalises(rows: seq<Row>, sessionId: string, entries: seq<Entry>, codec: CallCodec)
    requires codec.Lawful() && HoldAll(rows, sessionId, entries, codec)
    ensures Rebuilt(rows, codec) == NormaliseAll(entries)
  {
    if |rows| > 0 {
      var n := |rows| - 1;
      RebuildNormalises(rows[..n], sessionId, entries[..n], codec);
      var e := entries[n];
      assert Holds(rows[n], sessionId, e, codec);
      if e.message.Assistant? {
        assert codec.read(codec.write(e.message.toolCalls)) == Some(e.message.toolCalls);
      }
      assert RebuildRow(rows[n], codec) == Normalise(e.message);
    }
  }

  lemma {:induction false} OfSplit(a: seq<Row>, b: seq<Row>, sessionId: string)
    ensures Of(a + b, sessionId) == Of(a, sessionId) + Of(b, sessionId)
  {
    if |a| == 0 {
      assert a + b == b;
    } else {
      assert (a + b)[1..] == a[1..] + b;
      OfSplit(a[1..], b, sessionId);
    }
  }

  lemma {:induction false} OfAll(rows: seq<Row>, sessionId: string, mine: string)
    requires forall i :: 0 <= i < |rows| ==> rows[i].sessionId == mine
    ensures Of(rows, sessionId) == if mine == sessionId then rows else []
  {
    if |rows| > 0 {
      OfAll(rows[1..], sessionId, mine);
    }
  }

  lemma RowsHold(sessionId: string, entries: seq<Entry>, codec: CallCodec, clock: nat -> int, from: nat)
    ensures var rows := RowsOf(sessionId, entries, codec, clock, from);
            && HoldAll(rows, sessionId, entries, codec)
            && forall i :: 0 <= i < |rows| ==> rows[i].sessionId == sessionId
  {
  }

  /** What is appended extends this session's record by its own rows, whatever rows of other sessions
      fall among them. */
  lemma RecordsGrow(rows: seq<Row>, sessionId: string, history: seq<Entry>, appended: seq<Row>, entries: seq<Entry>,
                    codec: CallCodec)
    requires Records(rows, sessionId, history, codec) && Records(appended, sessionId, entries, codec)
    ensures Records(rows + appended, sessionId, history + entries, codec)
  {
    OfSplit(rows, appended, sessionId);
  }

  /** Appending a run's entries extends this session's record and leaves every other session's alone. */
  lemma RecordsAppend(rows: seq<Row>, sessionId: string, history: seq<Entry>, entries: seq<Entry>,
                      codec: CallCodec, clock: nat -> int)
    requires Records(rows, sessionId, history, codec)
    ensures Records(rows + RowsOf(sessionId, entries, codec, clock, |rows|), sessionId, history + entries, codec)
    ensures forall other :: other != sessionId ==>
              Of(rows + RowsOf(sessionId, entries, codec, clock, |rows|), other) == Of(rows, other)
  {
    var added := RowsOf(sessionId, entries, codec, clock, |rows|);
    RowsHold(sessionId, entries, codec, clock, |rows|);
    OfSplit(rows, added, sessionId);
    OfAll(added, sessionId, sessionId);
    assert Of(rows + added, sessionId) == Of(rows, sessionId) + added;
    forall other | other != sessionId
      ensures Of(rows + added, other) == Of(rows, other)
    {
      OfSplit(rows, added, other);
      OfAll(added, other, sessionId);
    }
  }

  /** The database gives insertion order, whatever it does with ties, exactly when the session's
      clock readings strictly increase. */
  lemma LoadOrderIsInsertionOrder(rows: seq<Row>, sessionId: string)
    requires Distinct(Of(rows, sessionId))
    ensures (forall loaded :: Loads(rows, sessionId, loaded) ==> loaded == Of(rows, sessionId))
            <==> StrictlyIncreasing(Of(rows, sessionId), CreatedAt)
  {
    var mine := Of(rows, sessionId);
    StoredOrderForced(mine, CreatedAt);
    assert forall loaded :: Loads(rows, sessionId, loaded) <==> Orders(mine, CreatedAt, loaded);
  }

  /** Storing and rebuilding is `NormaliseAll`, for every order the database may answer in. */
  lemma RebuildRoundTrip(rows: seq<Row>, sessionId: string, entries: seq<Entry>, codec: CallCodec, loaded: seq<Row>)
    requires codec.Lawful() && Records(rows, sessionId, entries, codec)
    requires StrictlyIncreasing(Of(rows, sessionId), CreatedAt) && Loads(rows, sessionId, loaded)
    ensures Rebuilt(loaded, codec) == NormaliseAll(entries)
  {
    SortedPermutationUnique(Of(rows, sessionId), loaded, CreatedAt);
    RebuildNormalises(loaded, sessionId, entries, codec);
  }
}
