/** What holds of every agent run, whatever the LLM, the tools and the interrupts do. */
module AgentRuns {
  import opened Agent
  import opened Compressor
  import opened Messages
  import Ordering
  import opened Session
  import opened Stream
  import opened Wrappers

  // ---- Bounds ----------------------------------------------------------------

  /** From any point of a task: escalations, LLM calls and iterations still possible. */
  lemma {:induction false} TaskBounds(cfg: Config, w: World, task: string, s: RunState)
    requires s.escalations <= MAX_ESCALATIONS && s.remaining <= cfg.maxIterations
    ensures var r := RunTask(cfg, w, task, s);
            && s.escalations <= r.escalations <= MAX_ESCALATIONS
            && r.Round() <= s.Round() + s.remaining + (if r.escalations > s.escalations then cfg.maxIterations else 0)
            && r.iterations <= (if r.escalations > s.escalations then cfg.maxIterations else s.iterations + s.remaining)
    decreases MAX_ESCALATIONS - s.escalations, s.remaining
  {
    var p := TaskPass(cfg, w, task, s);
    if p.Again? {
      TaskBounds(cfg, w, task, p.state);
    }
  }

  /** A whole task: at most one escalation, at most twice the budget in LLM calls, and no more
      iterations reported than were resumed plus the budget. */
  lemma TaskTerminatesInBudget(cfg: Config, w: World, input: string, resume: Option<Resume>)
    ensures var r := RunTask(cfg, w, TaskOf(input, resume), TaskStart(cfg, input, resume));
            && r.escalations <= 1
            && r.Round() <= (1 + r.escalations) * cfg.maxIterations <= 2 * cfg.maxIterations
            && r.iterations <= (if resume.Some? then resume.value.iterations else 0) + cfg.maxIterations
            && (r.escalations == 1 ==> r.iterations <= cfg.maxIterations)
  {
    var start := TaskStart(cfg, input, resume);
    var r := RunTask(cfg, w, TaskOf(input, resume), start);
    TaskBounds(cfg, w, TaskOf(input, resume), start);
    assert start.Round() == 0 && start.remaining == cfg.maxIterations;
    OneOrTwo(r.escalations, cfg.maxIterations);
  }

  lemma OneOrTwo(escalations: nat, max: nat)
    requires escalations <= 1
    ensures (1 + escalations) * max == if escalations == 0 then max else max + max
  {
  }

  lemma {:induction false} TurnBounds(cfg: Config, w: World, s: RunState)
    ensures var r := RunTurn(cfg, w, s);
            r.Round() <= s.Round() + s.remaining && s.iterations <= r.iterations <= s.iterations + s.remaining
    decreases s.remaining
  {
    var p := TurnPass(cfg, w, s);
    if p.Again? {
      TurnBounds(cfg, w, p.state);
    }
  }

  // ---- What the LLM is shown -------------------------------------------------

  /** A request the budget allows: it fits, or it is six messages at most. */
  predicate Bounded(cfg: Config, request: seq<Message>) {
    !cfg.compressor.Overflows(request) || |request| <= 6
  }

  /** A user message built by `build_escalation_context` for this task. */
  ghost predicate IsEscalationContext(cfg: Config, task: string, m: Message) {
    exists reason, analysis :: m == User(EscalationContext(task, reason, analysis, cfg.localModel))
  }

  /** What requests are held to: their size, and the two kinds of first message. */
  datatype Rule = Rule(bounded: seq<Message> -> bool, first: Message, isContext: Message -> bool) {
    predicate HeadedBy(escalated: bool, request: seq<Message>) {
      |request| > 0 && (if escalated then isContext(request[0]) else request[0] == first)
    }

    /** Compression and escalation follow the rule. */
    ghost predicate Follows(cfg: Config, task: string) {
      && (forall conversation :: bounded(Compressed(cfg.compressor, conversation)))
      && (forall tc :: isContext(EscalationMessage(cfg, task, tc)))
    }
  }

  /** All requests are bounded; the first `m` are headed by the first message, the others, sent after
      the escalation, by its context. */
  predicate RequestsOk(rule: Rule, s: RunState, m: nat) {
    && m <= |s.sent| && (s.escalations == 0 ==> m == |s.sent|)
    && forall k :: 0 <= k < |s.sent| ==> rule.bounded(s.sent[k]) && rule.HeadedBy(k >= m, s.sent[k])
  }

  predicate HeadOk(rule: Rule, s: RunState) {
    rule.HeadedBy(s.escalations > 0, s.conversation)
  }

  lemma DispatchEscalates(kit: Kit, w: World, round: nat, calls: seq<ToolCall>, j: nat, escalations: nat, rule: Rule)
    requires j <= |calls| && forall tc :: rule.isContext(kit.context(tc))
    ensures var d := Dispatch(kit, w, round, calls, j, escalations);
            d.escalation.Some? ==> rule.isContext(d.escalation.value)
    decreases |calls| - j
  {
    if j < |calls| {
      DispatchEscalates(kit, w, round, calls, j + 1, escalations, rule);
    }
  }

  lemma AskedRequests(cfg: Config, task: string, rule: Rule, s: RunState, m: nat) returns (m': nat)
    requires rule.Follows(cfg, task) && RequestsOk(rule, s, m) && HeadOk(rule, s)
    ensures RequestsOk(rule, Asked(cfg, s), m') && HeadOk(rule, Asked(cfg, s))
  {
    KeepsEnds(cfg.compressor, s.conversation);
    m' := if s.escalations == 0 then m + 1 else m;
  }

  lemma RepliedRequests(cfg: Config, w: World, task: string, rule: Rule, n: nat, s: RunState, a: Accumulator, m: nat)
    requires s.remaining > 0 && rule.Follows(cfg, task) && RequestsOk(rule, s, m) && HeadOk(rule, s)
    ensures var p := TaskReplied(cfg, w, task, n, s, a);
            RequestsOk(rule, p.state, m) && (p.Again? ==> HeadOk(rule, p.state))
  {
    var p := TaskReplied(cfg, w, task, n, s, a);
    assert p.state.sent == s.sent && p.state.escalations >= s.escalations;
    if p.Again? {
      var d := Dispatch(TaskKit(cfg, task), w, n, a.calls, 0, s.escalations);
      DispatchEscalates(TaskKit(cfg, task), w, n, a.calls, 0, s.escalations, rule);
      if d.escalation.None? {
        assert p.state.conversation == Answered(s, a).conversation + MessagesOf(d.results);
      } else {
        assert p.state.conversation[0] == d.escalation.value;
      }
    }
  }

  lemma TaskPassRequests(cfg: Config, w: World, task: string, rule: Rule, s: RunState, m: nat) returns (m': nat)
    requires rule.Follows(cfg, task) && RequestsOk(rule, s, m) && HeadOk(rule, s)
    ensures var p := TaskPass(cfg, w, task, s);
            RequestsOk(rule, p.state, m') && (p.Again? ==> HeadOk(rule, p.state))
  {
    var t := Signalled(w, s);
    m' := m;
    if !t.interrupted && t.remaining > 0 {
      m' := AskedRequests(cfg, task, rule, t, m);
      match w.reply(s.Round()) {
        case CallFailed =>
        case Streamed(items) =>
          if !Broke(items) {
            RepliedRequests(cfg, w, task, rule, s.Round(), Asked(cfg, t), Response(Received(items), TaskInput(cfg)), m');
          }
      }
    }
  }

  lemma {:induction false} TaskRequests(cfg: Config, w: World, task: string, rule: Rule, s: RunState, m: nat) returns (m': nat)
    requires s.escalations <= MAX_ESCALATIONS
    requires rule.Follows(cfg, task) && RequestsOk(rule, s, m) && HeadOk(rule, s)
    ensures RequestsOk(rule, RunTask(cfg, w, task, s), m')
    decreases MAX_ESCALATIONS - s.escalations, s.remaining
  {
    m' := TaskPassRequests(cfg, w, task, rule, s, m);
    var p := TaskPass(cfg, w, task, s);
    if p.Again? {
      m' := TaskRequests(cfg, w, task, rule, p.state, m');
    }
  }

  ghost function TaskRule(cfg: Config, task: string, head: Message): Rule {
    Rule(request => Bounded(cfg, request), head, m => IsEscalationContext(cfg, task, m))
  }

  lemma TaskRuleFollows(cfg: Config, task: string, head: Message)
    ensures TaskRule(cfg, task, head).Follows(cfg, task)
  {
    var rule := TaskRule(cfg, task, head);
    forall conversation
      ensures rule.bounded(Compressed(cfg.compressor, conversation))
    {
      FitsOrSmall(cfg.compressor, conversation);
    }
    forall tc
      ensures rule.isContext(EscalationMessage(cfg, task, tc))
    {
      MessageIsContext(cfg, task, tc);
    }
  }

  lemma MessageIsContext(cfg: Config, task: string, tc: ToolCall)
    ensures IsEscalationContext(cfg, task, EscalationMessage(cfg, task, tc))
  {
    var reason := match tc.input.TextAt("reason") case Some(r) => r case None => "local model requested escalation";
    assert EscalationMessage(cfg, task, tc)
        == User(EscalationContext(task, reason, tc.input.TextAt("analysis"), cfg.localModel));
  }

  /** At every LLM call of a task the conversation fits the budget or is six messages at most; the
      first `m` calls are headed by the task or the first resumed message, and all later ones by the
      escalation context, of which there are none unless the run escalated. */
  lemma EveryRequestOk(cfg: Config, w: World, input: string, resume: Option<Resume>) returns (m: nat)
    requires resume.Some? ==> |resume.value.messages| > 0
    ensures var start, task := TaskStart(cfg, input, resume), TaskOf(input, resume);
            var opening := if resume.Some? then resume.value.messages else [User(input)];
            RequestsOk(TaskRule(cfg, task, opening[0]), RunTask(cfg, w, task, start), m)
  {
    var start, task := TaskStart(cfg, input, resume), TaskOf(input, resume);
    TaskRuleFollows(cfg, task, start.conversation[0]);
    m := TaskRequests(cfg, w, task, TaskRule(cfg, task, start.conversation[0]), start, 0);
  }

  predicate TurnRequestsOk(rule: Rule, s: RunState) {
    forall k :: 0 <= k < |s.sent| ==> rule.bounded(s.sent[k]) && rule.HeadedBy(false, s.sent[k])
  }

  /** Compression follows the rule. */
  ghost predicate Bounds(rule: Rule, cfg: Config) {
    forall conversation :: rule.bounded(Compressed(cfg.compressor, conversation))
  }

  lemma AskedTurn(cfg: Config, rule: Rule, s: RunState)
    requires Bounds(rule, cfg) && TurnRequestsOk(rule, s) && rule.HeadedBy(false, s.conversation)
    ensures TurnRequestsOk(rule, Asked(cfg, s)) && rule.HeadedBy(false, Asked(cfg, s).conversation)
  {
    KeepsEnds(cfg.compressor, s.conversation);
    OneMoreRequest(rule, s, Asked(cfg, s), Compressed(cfg.compressor, s.conversation));
  }

  lemma OneMoreRequest(rule: Rule, s: RunState, t: RunState, request: seq<Message>)
    requires TurnRequestsOk(rule, s) && t.sent == s.sent + [request]
    requires rule.bounded(request) && rule.HeadedBy(false, request)
    ensures TurnRequestsOk(rule, t)
  {
  }

  lemma RepliedTurn(rule: Rule, w: World, n: nat, s: RunState, a: Accumulator)
    requires s.remaining > 0 && TurnRequestsOk(rule, s) && rule.HeadedBy(false, s.conversation)
    ensures var p := TurnReplied(w, n, s, a);
            TurnRequestsOk(rule, p.state) && rule.HeadedBy(false, p.state.conversation)
  {
  }

  lemma TurnPassRequests(cfg: Config, w: World, rule: Rule, s: RunState)
    requires Bounds(rule, cfg) && TurnRequestsOk(rule, s) && rule.HeadedBy(false, s.conversation)
    ensures var p := TurnPass(cfg, w, s);
            TurnRequestsOk(rule, p.state) && rule.HeadedBy(false, p.state.conversation)
  {
    var t := Signalled(w, s);
    if !t.interrupted && t.remaining > 0 {
      AskedTurn(cfg, rule, t);
      match w.reply(s.Round()) {
        case CallFailed =>
        case Streamed(items) =>
          RepliedTurn(rule, w, s.Round(), Asked(cfg, t), Response(Received(items), TurnInput(cfg)));
      }
    }
  }

  lemma {:induction false} TurnRunRequests(cfg: Config, w: World, rule: Rule, s: RunState)
    requires Bounds(rule, cfg) && TurnRequestsOk(rule, s) && rule.HeadedBy(false, s.conversation)
    ensures TurnRequestsOk(rule, RunTurn(cfg, w, s))
    decreases s.remaining
  {
    TurnPassRequests(cfg, w, rule, s);
    var p := TurnPass(cfg, w, s);
    if p.Again? {
      TurnRunRequests(cfg, w, rule, p.state);
    }
  }

  /** The same bound for `run_turn`, which also keeps the first message of the session. */
  lemma TurnRequests(cfg: Config, w: World, conversation: seq<Message>, input: string)
    ensures var start := TurnStart(cfg, conversation, input);
            forall request :: request in RunTurn(cfg, w, start).sent ==>
              Bounded(cfg, request) && |request| > 0 && request[0] == start.conversation[0]
  {
    var start := TurnStart(cfg, conversation, input);
    var rule := Rule(request => Bounded(cfg, request), start.conversation[0], m => false);
    forall c
      ensures rule.bounded(Compressed(cfg.compressor, c))
    {
      FitsOrSmall(cfg.compressor, c);
    }
    TurnRunRequests(cfg, w, rule, start);
  }

  // ---- Calls and results in the log ------------------------------------------

  /** The results answer the calls one for one, same ids and names, same order. */
  predicate Answers(calls: seq<ToolCall>, results: seq<Entry>) {
    && |results| == |calls|
    && forall j :: 0 <= j < |calls| ==>
         results[j].message.ToolResult? && results[j].message.toolUseId == calls[j].id && results[j].message.name == calls[j].name
  }

  /** Blocks of one assistant message and its results; only the last may lack them. */
  predicate Paired(log: seq<Entry>)
    decreases |log|
  {
    |log| == 0
    || (&& log[0].message.Assistant?
        && (|log| == 1
            || (var n := |log[0].message.toolCalls|;
                0 < n < |log| && Answers(log[0].message.toolCalls, log[1..n + 1]) && Paired(log[n + 1..]))))
  }

  function Replies(log: seq<Entry>): nat {
    if |log| == 0 then 0 else Replies(log[1..]) + (if log[0].message.Assistant? then 1 else 0)
  }

  lemma {:induction false} RepliesSplit(a: seq<Entry>, b: seq<Entry>)
    ensures Replies(a + b) == Replies(a) + Replies(b)
  {
    if |a| == 0 {
      assert a + b == b;
    } else {
      assert (a + b)[1..] == a[1..] + b;
      RepliesSplit(a[1..], b);
    }
  }

  lemma {:induction false} NoReplies(log: seq<Entry>)
    requires forall j :: 0 <= j < |log| ==> log[j].message.ToolResult?
    ensures Replies(log) == 0
  {
    if |log| > 0 {
      NoReplies(log[1..]);
    }
  }

  /** A whole block: an assistant message and one result for each of its calls. */
  predicate IsBlock(log: seq<Entry>) {
    |log| > 1 && log[0].message.Assistant? && Answers(log[0].message.toolCalls, log[1..])
  }

  lemma ResultsAnswer(w: World, round: nat, calls: seq<ToolCall>)
    ensures Answers(calls, TurnResults(w, round, calls))
  {
    var results := TurnResults(w, round, calls);
    forall j | 0 <= j < |calls|
      ensures results[j].message.ToolResult? && results[j].message.toolUseId == calls[j].id && results[j].message.name == calls[j].name
    {
      assert results[j] == ToolOutcome(calls[j], w.tool(round, j));
    }
  }

  lemma BlockReplies(m: Message, results: seq<Entry>)
    requires m.Assistant? && Answers(m.toolCalls, results)
    ensures Replies([Entry(m, None)] + results) == 1
  {
    NoReplies(results);
    assert ([Entry(m, None)] + results)[1..] == results;
  }

  /** What one reply of `run_turn` adds to the log. */
  lemma TurnRepliedLog(w: World, n: nat, s: RunState, a: Accumulator) returns (added: seq<Entry>)
    requires s.remaining > 0
    ensures var p := TurnReplied(w, n, s, a);
            && p.state.log == s.log + added
            && p.state.iterations == s.iterations + Replies(added)
            && (p.Stop? ==> |added| <= 1 && Paired(added))
            && (p.Again? ==> IsBlock(added))
  {
    var m := AssistantMessage(a);
    var results := if IsFinal(a) then [] else TurnResults(w, n, a.calls);
    added := [Entry(m, None)] + results;
    Regroup(s.log, [Entry(m, None)], results);
    assert added[1..] == results;
    if !IsFinal(a) {
      ResultsAnswer(w, n, a.calls);
      BlockReplies(m, results);
    }
  }

  /** What one pass of `run_turn` adds to the log. */
  lemma TurnPassLog(cfg: Config, w: World, s: RunState) returns (added: seq<Entry>)
    ensures var p := TurnPass(cfg, w, s);
            && p.state.log == s.log + added
            && p.state.iterations == s.iterations + Replies(added)
            && (p.Stop? ==> |added| <= 1 && Paired(added))
            && (p.Again? ==> IsBlock(added))
  {
    var t := Signalled(w, s);
    added := [];
    if !t.interrupted && t.remaining > 0 {
      match w.reply(s.Round()) {
        case CallFailed =>
        case Streamed(items) =>
          added := TurnRepliedLog(w, s.Round(), Asked(cfg, t), Response(Received(items), TurnInput(cfg)));
      }
    }
  }

  /** The rows of a `run_turn`: call/result blocks with only the last assistant message possibly
      unanswered, and one reported iteration per assistant message. */
  lemma {:induction false} TurnLogPaired(cfg: Config, w: World, s: RunState) returns (added: seq<Entry>)
    ensures var r := RunTurn(cfg, w, s);
            && r.log == s.log + added
            && Paired(added)
            && r.iterations == s.iterations + Replies(added)
    decreases s.remaining
  {
    added := TurnPassLog(cfg, w, s);
    TurnUnfolds(cfg, w, s);
    var p := TurnPass(cfg, w, s);
    if p.Again? {
      var rest := TurnLogPaired(cfg, w, p.state);
      BlockThenPaired(added, rest);
      RepliesSplit(added, rest);
      Regroup(s.log, added, rest);
      added := added + rest;
    }
  }

  lemma Regroup<T>(a: seq<T>, b: seq<T>, c: seq<T>)
    ensures (a + b) + c == a + (b + c)
  {
  }

  lemma TurnUnfolds(cfg: Config, w: World, s: RunState)
    ensures var p := TurnPass(cfg, w, s);
            RunTurn(cfg, w, s) == if p.Stop? then p.state else RunTurn(cfg, w, p.state)
  {
  }

  lemma BlockThenPaired(block: seq<Entry>, rest: seq<Entry>)
    requires IsBlock(block) && Paired(rest)
    ensures Paired(block + rest)
  {
    var log, n := block + rest, |block[0].message.toolCalls|;
    assert log[0] == block[0];
    assert log[1..n + 1] == block[1..];
    assert log[n + 1..] == rest;
    if rest == [] {
      assert n + 1 == |log|;
    }
  }

  /** Entry `e` is a result of call `tc`. */
  predicate AnswersCall(e: Entry, tc: ToolCall) {
    e.message.ToolResult? && e.message.toolUseId == tc.id && e.message.name == tc.name
  }

  /** The results answer the calls at these positions, in order. */
  predicate AnswersAt(calls: seq<ToolCall>, results: seq<Entry>, answered: seq<nat>, from: nat, stop: nat) {
    && |answered| == |results| && stop <= |calls|
    && (forall i :: 0 <= i < |answered| ==> from <= answered[i] < stop && AnswersCall(results[i], calls[answered[i]]))
    && (forall i, k :: 0 <= i < k < |answered| ==> answered[i] < answered[k])
  }

  lemma AnswersOneMore(calls: seq<ToolCall>, results: seq<Entry>, answered: seq<nat>, from: nat, stop: nat, e: Entry)
    requires from < stop <= |calls| && AnswersAt(calls, results, answered, from + 1, stop) && AnswersCall(e, calls[from])
    ensures AnswersAt(calls, [e] + results, [from] + answered, from, stop)
  {
  }

  lemma OutcomeAnswers(tc: ToolCall, o: Outcome)
    ensures AnswersCall(TaskOutcome(tc, o), tc)
  {
  }

  lemma {:induction false} DispatchAnswers(kit: Kit, w: World, round: nat, calls: seq<ToolCall>, j: nat, escalations: nat)
    returns (answered: seq<nat>, stop: nat)
    requires j <= |calls| && forall tc, o :: AnswersCall(kit.outcome(tc, o), tc)
    ensures var d := Dispatch(kit, w, round, calls, j, escalations);
            && j <= stop && AnswersAt(calls, d.results, answered, j, stop)
            && (d.escalation.Some? <==> stop < |calls|)
            && (stop < |calls| ==> Escalates(kit, calls[stop], escalations))
            && (forall i :: j <= i < stop ==> (i in answered <==> !Refused(calls[i], escalations)))
    decreases |calls| - j
  {
    if j == |calls| {
      answered, stop := [], j;
    } else if Refused(calls[j], escalations) {
      answered, stop := DispatchAnswers(kit, w, round, calls, j + 1, escalations);
      assert j !in answered;
    } else if Escalates(kit, calls[j], escalations) {
      answered, stop := [], j;
    } else {
      var rest, end := DispatchAnswers(kit, w, round, calls, j + 1, escalations);
      var d := Dispatch(kit, w, round, calls, j + 1, escalations);
      AnswersOneMore(calls, d.results, rest, j, end, kit.outcome(calls[j], w.tool(round, j)));
      answered, stop := [j] + rest, end;
    }
  }

  /** Which calls of a `run_task` reply get a result: in order, all but refused escalations, up to
      an accepted one. `answered` lists their positions. */
  lemma TaskReplyAnswers(cfg: Config, w: World, task: string, round: nat, calls: seq<ToolCall>, escalations: nat)
    returns (answered: seq<nat>, stop: nat)
    ensures var kit := TaskKit(cfg, task);
            var d := Dispatch(kit, w, round, calls, 0, escalations);
            && AnswersAt(calls, d.results, answered, 0, stop)
            && (d.escalation.Some? <==> stop < |calls|)
            && (stop < |calls| ==> calls[stop].name == "escalate" && escalations < 1 && cfg.hasBrain)
            && (forall i :: 0 <= i < stop ==> (i in answered <==> !(calls[i].name == "escalate" && escalations >= 1)))
  {
    var kit := TaskKit(cfg, task);
    forall tc, o
      ensures AnswersCall(kit.outcome(tc, o), tc)
    {
      OutcomeAnswers(tc, o);
    }
    answered, stop := DispatchAnswers(kit, w, round, calls, 0, escalations);
  }

  /** A `run_task` reply is fully answered exactly when none of its calls is an escalation that the
      run refuses or accepts. */
  lemma TaskReplyAnswered(kit: Kit, w: World, round: nat, calls: seq<ToolCall>, escalations: nat)
    ensures |Dispatch(kit, w, round, calls, 0, escalations).results| == |calls|
            <==> forall i :: 0 <= i < |calls| && calls[i].name == "escalate" ==> escalations < 1 && !kit.hasBrain
  {
    DispatchCount(kit, w, round, calls, 0, escalations);
  }

  lemma {:induction false} DispatchCount(kit: Kit, w: World, round: nat, calls: seq<ToolCall>, j: nat, escalations: nat)
    requires j <= |calls|
    ensures var d := Dispatch(kit, w, round, calls, j, escalations);
            && |d.results| <= |calls| - j
            && (|d.results| == |calls| - j <==>
                forall i :: j <= i < |calls| ==> !Refused(calls[i], escalations) && !Escalates(kit, calls[i], escalations))
    decreases |calls| - j
  {
    if j < |calls| {
      DispatchCount(kit, w, round, calls, j + 1, escalations);
    }
  }

  // ---- The log of a task -----------------------------------------------------

  /** One reply of a task that did not end it, the results it got, the positions of the calls they
      answer, and where dispatching stopped. */
  datatype Block = Block(reply: Message, results: seq<Entry>, answered: seq<nat>, stop: nat) {
    /** The reply escalated, which cut its remaining calls off. */
    predicate Cut() { reply.Assistant? && stop < |reply.toolCalls| }

    function Log(): seq<Entry> { [Entry(reply, None)] + results }
  }

  /** Exactly the calls before the stop that are no refused escalations are answered, in order, and
      only an accepted escalation stops. */
  predicate BlockOk(kit: Kit, escalations: nat, b: Block) {
    && b.reply.Assistant?
    && AnswersAt(b.reply.toolCalls, b.results, b.answered, 0, b.stop)
    && (b.Cut() ==> Escalates(kit, b.reply.toolCalls[b.stop], escalations))
    && (forall i :: 0 <= i < b.stop ==> (i in b.answered <==> !Refused(b.reply.toolCalls[i], escalations)))
  }

  function EscalationsAfter(escalations: nat, b: Block): nat {
    if b.Cut() then escalations + 1 else escalations
  }

  predicate BlocksOk(kit: Kit, escalations: nat, blocks: seq<Block>)
    decreases |blocks|
  {
    |blocks| > 0 ==> BlockOk(kit, escalations, blocks[0]) && BlocksOk(kit, EscalationsAfter(escalations, blocks[0]), blocks[1..])
  }

  function LogOf(blocks: seq<Block>): seq<Entry> {
    if |blocks| == 0 then [] else blocks[0].Log() + LogOf(blocks[1..])
  }

  function Cuts(blocks: seq<Block>): nat {
    if |blocks| == 0 then 0 else (if blocks[0].Cut() then 1 else 0) + Cuts(blocks[1..])
  }

  /** What one reply that does not end the task adds to the log. */
  lemma RepliedBlock(cfg: Config, w: World, task: string, n: nat, s: RunState, a: Accumulator) returns (b: Block)
    requires s.remaining > 0 && TaskReplied(cfg, w, task, n, s, a).Again?
    ensures var p := TaskReplied(cfg, w, task, n, s, a);
            && p.state.log == s.log + b.Log()
            && BlockOk(TaskKit(cfg, task), s.escalations, b)
            && p.state.escalations == EscalationsAfter(s.escalations, b)
  {
    var d := Dispatch(TaskKit(cfg, task), w, n, a.calls, 0, s.escalations);
    var answered, stop := TaskReplyAnswers(cfg, w, task, n, a.calls, s.escalations);
    b := Block(AssistantMessage(a), d.results, answered, stop);
    Regroup(s.log, [Entry(b.reply, None)], d.results);
  }

  /** A pass of a task: a block and another pass, or an end with at most one unanswered reply. */
  lemma TaskPassLog(cfg: Config, w: World, task: string, s: RunState) returns (blocks: seq<Block>, last: seq<Entry>)
    ensures var p := TaskPass(cfg, w, task, s);
            && p.state.log == s.log + (LogOf(blocks) + last)
            && (p.Again? ==> |blocks| == 1 && last == [] && BlockOk(TaskKit(cfg, task), s.escalations, blocks[0])
                             && p.state.escalations == EscalationsAfter(s.escalations, blocks[0]))
            && (p.Stop? ==> blocks == [] && |last| <= 1 && p.state.escalations == s.escalations
                            && forall e <- last :: e.message.Assistant?)
  {
    blocks, last := [], [];
    var t := Signalled(w, s);
    if !t.interrupted && t.remaining > 0 && w.reply(s.Round()).Streamed? && !Broke(w.reply(s.Round()).items) {
      var a := Response(Received(w.reply(s.Round()).items), TaskInput(cfg));
      if IsFinal(a) {
        last := [Entry(AssistantMessage(a), None)];
      } else {
        var b := RepliedBlock(cfg, w, task, s.Round(), Asked(cfg, t), a);
        blocks := [b];
        assert blocks[1..] == [] && b.Log() + [] == b.Log();
      }
    }
  }

  lemma BlockThenBlocks(b: Block, rest: seq<Block>, last: seq<Entry>)
    ensures ([b] + rest)[1..] == rest
    ensures LogOf([b] + rest) + last == b.Log() + (LogOf(rest) + last)
    ensures Cuts([b] + rest) == (if b.Cut() then 1 else 0) + Cuts(rest)
  {
    assert ([b] + rest)[1..] == rest;
  }

  /** The rows of a `run_task` after its opening ones: blocks, each answered up to its stop but for
      refused escalations, then at most one unanswered last reply. As many blocks are cut by an
      escalation as the run escalated. */
  lemma {:induction false} TaskLogBlocks(cfg: Config, w: World, task: string, s: RunState)
    returns (blocks: seq<Block>, last: seq<Entry>)
    requires s.escalations <= MAX_ESCALATIONS
    ensures var r := RunTask(cfg, w, task, s);
            && r.log == s.log + (LogOf(blocks) + last)
            && BlocksOk(TaskKit(cfg, task), s.escalations, blocks)
            && |last| <= 1 && (forall e <- last :: e.message.Assistant?)
            && r.escalations == s.escalations + Cuts(blocks)
    decreases MAX_ESCALATIONS - s.escalations, s.remaining
  {
    blocks, last := TaskPassLog(cfg, w, task, s);
    TaskUnfolds(cfg, w, task, s);
    var p := TaskPass(cfg, w, task, s);
    if p.Again? {
      var b := blocks[0];
      assert blocks[1..] == [] && LogOf(blocks) + last == b.Log();
      var rest;
      rest, last := TaskLogBlocks(cfg, w, task, p.state);
      BlockThenBlocks(b, rest, last);
      Regroup(s.log, b.Log(), LogOf(rest) + last);
      blocks := [b] + rest;
    }
  }

  lemma TaskUnfolds(cfg: Config, w: World, task: string, s: RunState)
    requires s.escalations <= MAX_ESCALATIONS
    ensures var p := TaskPass(cfg, w, task, s);
            RunTask(cfg, w, task, s) == if p.Stop? then p.state else RunTask(cfg, w, task, p.state)
  {
  }

  /** The whole log of a task, resumed or not: the opening messages, then the blocks, of which an
      escalation cuts one at most. */
  lemma TaskLogShape(cfg: Config, w: World, input: string, resume: Option<Resume>)
    returns (blocks: seq<Block>, last: seq<Entry>)
    ensures var start, task := TaskStart(cfg, input, resume), TaskOf(input, resume);
            var opening := if resume.Some? then resume.value.messages else [User(input)];
            && RunTask(cfg, w, task, start).log == Entries(opening) + (LogOf(blocks) + last)
            && BlocksOk(TaskKit(cfg, task), 0, blocks) && Cuts(blocks) <= 1
            && |last| <= 1 && (forall e <- last :: e.message.Assistant?)
  {
    var start, task := TaskStart(cfg, input, resume), TaskOf(input, resume);
    blocks, last := TaskLogBlocks(cfg, w, task, start);
    TaskBounds(cfg, w, task, start);
  }

  // ---- A session over many turns ---------------------------------------------

  /** One queued turn on the session: rows other sessions appended before it, the order the database
      answered in, the input, the world the turn ran in, and everything the table got while it ran,
      rows of other sessions among its own. */
  datatype Turn = Turn(others: seq<Row>, loaded: seq<Row>, input: string, world: World, appended: seq<Row>)

  datatype Store = Store(cfg: Config, sessionId: string, codec: CallCodec)

  function TurnLog(st: Store, t: Turn): seq<Entry> {
    RunTurn(st.cfg, t.world, TurnStart(st.cfg, Rebuilt(t.loaded, st.codec), t.input)).log
  }

  /** The turns could have happened in this order, each loading the session before it starts and
      appending its log; the session's rows carry strictly increasing times. */
  predicate Possible(st: Store, rows: seq<Row>, turns: seq<Turn>)
    decreases |turns|
  {
    |turns| == 0
    || (var t := turns[0];
        && (forall i :: 0 <= i < |t.others| ==> t.others[i].sessionId != st.sessionId)
        && Ordering.StrictlyIncreasing(Of(rows + t.others, st.sessionId), CreatedAt)
        && Loads(rows + t.others, st.sessionId, t.loaded)
        && Records(t.appended, st.sessionId, TurnLog(st, t), st.codec)
        && Possible(st, rows + t.others + t.appended, turns[1..]))
  }

  /** Every turn starts from the whole history so far, normalised, and adds its user message and
      paired blocks to it. */
  ghost predicate SeesHistory(st: Store, turns: seq<Turn>, history: seq<Entry>)
    decreases |turns|
  {
    |turns| == 0
    || (var t := turns[0];
        && Rebuilt(t.loaded, st.codec) == NormaliseAll(history)
        && (exists blocks :: Paired(blocks) && TurnLog(st, t) == [Entry(User(t.input), None)] + blocks)
        && SeesHistory(st, turns[1..], history + TurnLog(st, t)))
  }

  /** Storage keeps the message: it is no system message, and has no image and no text that is empty. */
  predicate Plain(m: Message) {
    !m.System? && (m.Assistant? ==> m.text != Some("")) && (m.ToolResult? ==> m.image == None)
  }

  lemma PlainIff(m: Message)
    ensures Normalise(m) == [m] <==> Plain(m)
    ensures |Normalise(m)| <= 1 && (|Normalise(m)| == 0 <==> m.System?)
  {
  }

  lemma {:induction false} StoredLength(entries: seq<Entry>)
    ensures |NormaliseAll(entries)| <= |entries|
  {
    if |entries| > 0 {
      StoredLength(entries[..|entries| - 1]);
      PlainIff(entries[|entries| - 1].message);
    }
  }

  /** A history comes back from storage word for word exactly when every message of it is plain. */
  lemma {:induction false} StorageKeepsIff(entries: seq<Entry>)
    ensures NormaliseAll(entries) == MessagesOf(entries) <==> forall e <- entries :: Plain(e.message)
  {
    if |entries| > 0 {
      var n := |entries| - 1;
      var front, e := entries[..n], entries[n];
      StorageKeepsIff(front);
      StoredLength(front);
      PlainIff(e.message);
      assert MessagesOf(entries) == MessagesOf(front) + [e.message];
      assert entries == front + [e];
      if NormaliseAll(entries) == MessagesOf(entries) {
        LastsEqual(NormaliseAll(front), Normalise(e.message), MessagesOf(front), e.message);
      }
    }
  }

  lemma LastsEqual(a: seq<Message>, x: seq<Message>, b: seq<Message>, m: Message)
    requires a + x == b + [m] && |a| <= |b| && |x| <= 1
    ensures a == b && x == [m]
  {
    assert |a + x| == |b| + 1;
    assert a == (a + x)[..|a|] && b == (b + [m])[..|b|];
    assert x == (a + x)[|a|..];
  }

  lemma {:induction false} OfOthers(rows: seq<Row>, sessionId: string)
    requires forall i :: 0 <= i < |rows| ==> rows[i].sessionId != sessionId
    ensures Of(rows, sessionId) == []
  {
    if |rows| > 0 {
      OfOthers(rows[1..], sessionId);
    }
  }

  /** However long the session, however often memory was compressed, however the database breaks ties
      and wherever rows of other sessions fall, every turn starts from the full normalised history. */
  lemma {:induction false} EveryTurnSeesHistory(st: Store, rows: seq<Row>, turns: seq<Turn>, history: seq<Entry>)
    requires st.codec.Lawful()
    requires Records(rows, st.sessionId, history, st.codec) && Possible(st, rows, turns)
    ensures SeesHistory(st, turns, history)
    decreases |turns|
  {
    if |turns| > 0 {
      var t := turns[0];
      var seen := rows + t.others;
      OfSplit(rows, t.others, st.sessionId);
      OfOthers(t.others, st.sessionId);
      assert Of(seen, st.sessionId) == Of(rows, st.sessionId);
      RebuildRoundTrip(seen, st.sessionId, history, st.codec, t.loaded);
      var start := TurnStart(st.cfg, Rebuilt(t.loaded, st.codec), t.input);
      var blocks := TurnLogPaired(st.cfg, t.world, start);
      assert TurnLog(st, t) == [Entry(User(t.input), None)] + blocks;
      RecordsGrow(seen, st.sessionId, history, t.appended, TurnLog(st, t), st.codec);
      EveryTurnSeesHistory(st, seen + t.appended, turns[1..], history + TurnLog(st, t));
    }
  }
}
