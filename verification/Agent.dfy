/** One agent run as a value: what each LLM reply does to the conversation, the log and the
    counters (runtime.rs). The class in Runtime.dfy is proved to compute these functions. */
module Agent {
  import opened Compressor
  import opened Messages
  import opened Session
  import opened Stream
  import opened Text
  import opened Wrappers

  const MAX_ESCALATIONS: nat := 1
  const ESCALATE_TOOL_NAME := "escalate"

  /** What stays fixed during a run. */
  datatype Config = Config(
    compressor: ContextCompressor,
    maxIterations: nat,
    hasBrain: bool,
    localModel: string,
    fromStr: string -> Result<Json, string>)

  datatype Reply = CallFailed | Streamed(items: seq<Item>)

  datatype Outcome =
    | Returned(content: string, isError: bool, image: Option<ImageData>, imageUrl: Option<string>)
    | Raised(error: string)

  /** Everything the run cannot predict: the n-th LLM reply, the outcome of call j in it, whether
      someone interrupts before the n-th stop check, and whether someone does at the very end. */
  datatype World = World(
    reply: nat -> Reply,
    tool: (nat, nat) -> Outcome,
    interrupt: nat -> bool,
    interruptAtEnd: bool)

  datatype RunState = RunState(
    conversation: seq<Message>,
    log: seq<Entry>,
    sent: seq<seq<Message>>,
    iterations: nat,
    remaining: nat,
    interrupted: bool,
    escalations: nat,
    text: string,
    failed: bool)
  {
    /** LLM calls made so far. */
    function Round(): nat { |sent| }
  }

  function ToolOutcome(tc: ToolCall, o: Outcome): Entry {
    match o
    case Returned(content, isError, image, url) =>
      Entry(ToolResult(tc.id, tc.name, content, isError, image), if image.Some? then url else None)
    case Raised(error) =>
      Entry(ToolResult(tc.id, tc.name, "Error: " + error, true, None), None)
  }

  function AssistantMessage(a: Accumulator): Message {
    Assistant(if a.text == "" then None else Some(a.text), a.calls)
  }

  /** The reply ends the run: no calls, or end-of-turn with text. */
  predicate IsFinal(a: Accumulator) {
    |a.calls| == 0 || (a.stop == EndTurn && a.text != "")
  }

  function MessagesOf(entries: seq<Entry>): (ms: seq<Message>)
    ensures |ms| == |entries|
  {
    seq(|entries|, i requires 0 <= i < |entries| => entries[i].message)
  }

  /** An interrupt that arrived before this stop check. */
  function Signalled(w: World, s: RunState): RunState {
    s.(interrupted := s.interrupted || w.interrupt(s.Round()))
  }

  /** Compress, then send the conversation. */
  function Asked(cfg: Config, s: RunState): RunState {
    var conversation := Compressed(cfg.compressor, s.conversation);
    s.(conversation := conversation, sent := s.sent + [conversation])
  }

  /** The assistant message goes on the conversation and in the log. */
  function Answered(s: RunState, a: Accumulator): RunState {
    var m := AssistantMessage(a);
    s.(conversation := s.conversation + [m], log := s.log + [Entry(m, None)])
  }

  // ---- run_turn --------------------------------------------------------------

  /** `from_str(..).unwrap_or({})`. */
  function TurnInput(cfg: Config): ParseInput {
    (raw: string) => match cfg.fromStr(raw) case Ok(v) => v case Err(_) => Object(map[])
  }

  /** One result per call, in order. */
  function TurnResults(w: World, round: nat, calls: seq<ToolCall>): (results: seq<Entry>)
    ensures |results| == |calls|
  {
    seq(|calls|, j requires 0 <= j < |calls| => ToolOutcome(calls[j], w.tool(round, j)))
  }

  /** One pass of a loop: the run is over, or it goes round again. */
  datatype Pass = Stop(state: RunState) | Again(state: RunState)

  /** What `run_turn` does with a reply once it has been accumulated. */
  function TurnReplied(w: World, n: nat, s: RunState, a: Accumulator): (p: Pass)
    requires s.remaining > 0
    ensures p.Again? ==> p.state.remaining < s.remaining
  {
    var s := Answered(s, a);
    if IsFinal(a) then Stop(s.(text := a.text, iterations := s.iterations + 1))
    else
      var results := TurnResults(w, n, a.calls);
      Again(s.(conversation := s.conversation + MessagesOf(results), log := s.log + results,
               iterations := s.iterations + 1, remaining := s.remaining - 1))
  }

  /** The `run_turn` loop body. */
  function TurnPass(cfg: Config, w: World, s: RunState): (p: Pass)
    ensures p.Again? ==> p.state.remaining < s.remaining
  {
    var s := Signalled(w, s);
    if s.interrupted || s.remaining == 0 then Stop(s)
    else
      var n := s.Round();
      var s := Asked(cfg, s);
      match w.reply(n)
      case CallFailed => Stop(s)
      case Streamed(items) =>
        TurnReplied(w, n, s, Response(Received(items), TurnInput(cfg)))
  }

  function RunTurn(cfg: Config, w: World, s: RunState): RunState
    decreases s.remaining
  {
    match TurnPass(cfg, w, s)
    case Stop(r) => r
    case Again(r) => RunTurn(cfg, w, r)
  }

  /** Where `run_turn` starts: the user message is on the conversation and in the log. */
  function TurnStart(cfg: Config, conversation: seq<Message>, input: string): RunState {
    RunState(conversation + [User(input)], [Entry(User(input), None)], [], 0, cfg.maxIterations, false, 0, "", false)
  }

  // ---- run_task --------------------------------------------------------------

  /** `parse_tool_input`: a malformed input becomes a marker object. */
  function TaskInput(cfg: Config): ParseInput {
    (raw: string) =>
      if raw == "" then Object(map[])
      else match cfg.fromStr(raw)
           case Ok(v) => v
           case Err(e) => Object(map["__parse_error" := Str(e), "__raw" := Str(raw)])
  }

  function MalformedNotice(name: string, err: string, raw: string): string {
    Format(["malformed JSON for tool '", name, "': ", err, ". Got first 200 chars: ",
            if |raw| > 200 then raw[..200] else raw, if |raw| > 200 then "…" else "",
            " Please retry the call with valid JSON."])
  }

  function TaskOutcome(tc: ToolCall, o: Outcome): Entry {
    match tc.input.TextAt("__parse_error")
    case Some(err) =>
      var raw := match tc.input.TextAt("__raw") case Some(r) => r case None => "";
      Entry(ToolResult(tc.id, tc.name, MalformedNotice(tc.name, err, raw), true, None), None)
    case None => ToolOutcome(tc, o)
  }

  /** `build_escalation_context`. */
  function EscalationContext(task: string, reason: string, analysis: Option<string>, localModel: string): string {
    Format(["[Escalated from local model (", localModel, ")]\nReason: ", reason, "\nOriginal task: ", task]
           + (if analysis.Some? && analysis.value != "" then ["\n\nLocal model's analysis:\n", analysis.value] else [])
           + ["\n\nPlease complete this task. The local model's analysis above may be helpful context."])
  }

  function EscalationMessage(cfg: Config, task: string, tc: ToolCall): Message {
    var reason := match tc.input.TextAt("reason") case Some(r) => r case None => "local model requested escalation";
    User(EscalationContext(task, reason, tc.input.TextAt("analysis"), cfg.localModel))
  }

  /** What calls of a task turn into: whether a stronger model is there to escalate to, the context it
      would get, and the result of a call. */
  datatype Kit = Kit(hasBrain: bool, context: ToolCall -> Message, outcome: (ToolCall, Outcome) -> Entry) {
    ghost predicate Loggable() {
      forall tc, o :: HasPath(outcome(tc, o))
    }
  }

  /** Only an image result carries the URL of an image. */
  predicate HasPath(e: Entry) {
    e.imageUrl.Some? ==> e.message.ToolResult? && e.message.image.Some?
  }

  function TaskKit(cfg: Config, task: string): Kit {
    Kit(cfg.hasBrain, (tc: ToolCall) => EscalationMessage(cfg, task, tc), (tc: ToolCall, o: Outcome) => TaskOutcome(tc, o))
  }

  /** The result rows of one reply, and the context to restart with if it escalated. */
  datatype Dispatched = Dispatched(results: seq<Entry>, escalation: Option<Message>) {
    function After(done: seq<Entry>): Dispatched {
      Dispatched(done + results, escalation)
    }
  }

  lemma AfterOne(d: Dispatched, e: Entry, done: seq<Entry>)
    ensures Dispatched([e] + d.results, d.escalation).After(done) == d.After(done + [e])
  {
    assert done + ([e] + d.results) == (done + [e]) + d.results;
  }

  predicate Refused(tc: ToolCall, escalations: nat) {
    tc.name == ESCALATE_TOOL_NAME && escalations >= MAX_ESCALATIONS
  }

  predicate Escalates(kit: Kit, tc: ToolCall, escalations: nat) {
    tc.name == ESCALATE_TOOL_NAME && escalations < MAX_ESCALATIONS && kit.hasBrain
  }

  /** Calls `j..`, in order: a refused escalation is skipped, an accepted one drops the rest. */
  function Dispatch(kit: Kit, w: World, round: nat, calls: seq<ToolCall>, j: nat, escalations: nat): (d: Dispatched)
    requires j <= |calls|
    ensures d.escalation.Some? ==> escalations < MAX_ESCALATIONS
    decreases |calls| - j
  {
    if j == |calls| then Dispatched([], None)
    else if Refused(calls[j], escalations) then Dispatch(kit, w, round, calls, j + 1, escalations)
    else if Escalates(kit, calls[j], escalations) then Dispatched([], Some(kit.context(calls[j])))
    else
      var rest := Dispatch(kit, w, round, calls, j + 1, escalations);
      rest.(results := [kit.outcome(calls[j], w.tool(round, j))] + rest.results)
  }

  lemma TaskKitLoggable(cfg: Config, task: string)
    ensures TaskKit(cfg, task).Loggable()
  {
    forall tc, o
      ensures HasPath(TaskKit(cfg, task).outcome(tc, o))
    {
    }
  }

  lemma DispatchSkipped(kit: Kit, w: World, round: nat, calls: seq<ToolCall>, j: nat, escalations: nat)
    requires j < |calls| && Refused(calls[j], escalations)
    ensures Dispatch(kit, w, round, calls, j, escalations) == Dispatch(kit, w, round, calls, j + 1, escalations)
  {
  }

  lemma DispatchStopped(kit: Kit, w: World, round: nat, calls: seq<ToolCall>, j: nat, escalations: nat, done: seq<Entry>)
    requires j < |calls| && Escalates(kit, calls[j], escalations)
    ensures Dispatch(kit, w, round, calls, j, escalations).After(done)
         == Dispatched(done, Some(kit.context(calls[j])))
  {
    assert done + [] == done;
  }

  lemma DispatchExecuted(kit: Kit, w: World, round: nat, calls: seq<ToolCall>, j: nat, escalations: nat, done: seq<Entry>)
    requires j < |calls| && !Refused(calls[j], escalations) && !Escalates(kit, calls[j], escalations)
    ensures Dispatch(kit, w, round, calls, j, escalations).After(done)
         == Dispatch(kit, w, round, calls, j + 1, escalations).After(done + [kit.outcome(calls[j], w.tool(round, j))])
  {
    AfterOne(Dispatch(kit, w, round, calls, j + 1, escalations), kit.outcome(calls[j], w.tool(round, j)), done);
  }

  /** What `run_task` does with a reply once it has been accumulated. */
  function TaskReplied(cfg: Config, w: World, task: string, n: nat, s: RunState, a: Accumulator): (p: Pass)
    requires s.remaining > 0
    ensures p.Again? ==>
              || (p.state.escalations == s.escalations + 1 && s.escalations < MAX_ESCALATIONS)
              || (p.state.escalations == s.escalations && p.state.remaining < s.remaining)
  {
    var s := Answered(s, a);
    if IsFinal(a) then Stop(s.(text := a.text, iterations := s.iterations + 1))
    else
      var d := Dispatch(TaskKit(cfg, task), w, n, a.calls, 0, s.escalations);
      var s := s.(log := s.log + d.results);
      match d.escalation
      case Some(context) =>
        Again(s.(conversation := [context], remaining := cfg.maxIterations, interrupted := false,
                 iterations := 0, escalations := s.escalations + 1))
      case None =>
        Again(s.(conversation := s.conversation + MessagesOf(d.results),
                 iterations := s.iterations + 1, remaining := s.remaining - 1))
  }

  /** The `run_task` loop body. */
  function TaskPass(cfg: Config, w: World, task: string, s: RunState): (p: Pass)
    ensures p.Again? ==>
              || (p.state.escalations == s.escalations + 1 && s.escalations < MAX_ESCALATIONS)
              || (p.state.escalations == s.escalations && p.state.remaining < s.remaining)
  {
    var s := Signalled(w, s);
    if s.interrupted || s.remaining == 0 then Stop(s)
    else
      var n := s.Round();
      var s := Asked(cfg, s);
      match w.reply(n)
      case CallFailed => Stop(s.(failed := true))
      case Streamed(items) =>
        if Broke(items) then Stop(s.(failed := true))
        else TaskReplied(cfg, w, task, n, s, Response(Received(items), TaskInput(cfg)))
  }

  function RunTask(cfg: Config, w: World, task: string, s: RunState): RunState
    requires s.escalations <= MAX_ESCALATIONS
    decreases MAX_ESCALATIONS - s.escalations, s.remaining
  {
    match TaskPass(cfg, w, task, s)
    case Stop(r) => r
    case Again(r) => RunTask(cfg, w, task, r)
  }

  /** A job to continue: its conversation, the iterations already spent, and its task. */
  datatype Resume = Resume(messages: seq<Message>, iterations: nat, task: string)

  function Entries(ms: seq<Message>): (entries: seq<Entry>)
    ensures |entries| == |ms|
  {
    seq(|ms|, i requires 0 <= i < |ms| => Entry(ms[i], None))
  }

  function TaskOf(input: string, resume: Option<Resume>): string {
    match resume case Some(r) => r.task case None => input
  }

  function TaskStart(cfg: Config, input: string, resume: Option<Resume>): RunState {
    var (conversation, iterations) :=
      match resume
      case Some(r) => (r.messages, r.iterations)
      case None => ([User(input)], 0);
    RunState(conversation, Entries(conversation), [], iterations, cfg.maxIterations, false, 0, "", false)
  }
}
