/** Which requests of a run show the LLM a result without its call: compression is the only cause. */
module AgentCalls {
  import opened Agent
  import opened AgentRuns
  import opened Compressor
  import opened Messages
  import opened Session
  import opened Stream
  import opened Wrappers

  /** From the given request on, every result that was sent had its call sent with it. */
  predicate KeepsCalls(s: RunState, from: nat) {
    forall k :: from <= k < |s.sent| ==> NoOrphans(s.sent[k])
  }

  lemma KeepsOneMore(s: RunState, r: RunState, request: seq<Message>)
    requires s.sent + [request] <= r.sent
    ensures KeepsCalls(r, |s.sent|) <==> NoOrphans(request) && KeepsCalls(r, |s.sent| + 1)
  {
    assert r.sent[|s.sent|] == (s.sent + [request])[|s.sent|] == request;
  }

  // ---- What the loops append -------------------------------------------------

  /** Results of calls of this message. */
  predicate ResultsOf(m: Message, results: seq<Message>) {
    forall r :: r in results ==> r.ToolResult? && Calls(m, r.toolUseId)
  }

  lemma BlockExtends(ms: seq<Message>, m: Message, results: seq<Message>)
    requires CallsFirst(ms) && m.Assistant? && ResultsOf(m, results)
    ensures CallsFirst(ms + [m] + results)
  {
    var all := ms + [m] + results;
    forall k | 0 <= k < |all| && all[k].ToolResult?
      ensures FollowsCall(all, k)
    {
      if k < |ms| {
        assert FollowsCall(ms, k);
        var i :| 0 <= i < k && Calls(ms[i], ms[k].toolUseId) && forall j :: i < j < k ==> ms[j].ToolResult?;
        assert Calls(all[i], all[k].toolUseId);
      } else {
        assert all[k] in results && all[|ms|] == m;
        assert Calls(all[|ms|], all[k].toolUseId);
      }
    }
  }

  lemma UserExtends(ms: seq<Message>, input: string)
    requires ms == [] || CallsFirst(ms)
    ensures CallsFirst(ms + [User(input)])
  {
    var all := ms + [User(input)];
    forall k | 0 <= k < |all| && all[k].ToolResult?
      ensures FollowsCall(all, k)
    {
      assert FollowsCall(ms, k);
      var i :| 0 <= i < k && Calls(ms[i], ms[k].toolUseId) && forall j :: i < j < k ==> ms[j].ToolResult?;
      assert Calls(all[i], all[k].toolUseId);
    }
  }

  lemma TurnReplyExtends(w: World, n: nat, s: RunState, a: Accumulator)
    requires s.remaining > 0 && CallsFirst(s.conversation)
    ensures var p := TurnReplied(w, n, s, a);
            p.state.sent == s.sent && (p.Again? ==> CallsFirst(p.state.conversation))
  {
    if !IsFinal(a) {
      var results := TurnResults(w, n, a.calls);
      ResultsAnswer(w, n, a.calls);
      forall r | r in MessagesOf(results)
        ensures r.ToolResult? && Calls(AssistantMessage(a), r.toolUseId)
      {
        var j :| 0 <= j < |results| && r == results[j].message;
        assert a.calls[j] in AssistantMessage(a).toolCalls;
      }
      BlockExtends(s.conversation, AssistantMessage(a), MessagesOf(results));
    }
  }

  lemma TaskReplyExtends(cfg: Config, w: World, task: string, n: nat, s: RunState, a: Accumulator)
    requires s.remaining > 0 && CallsFirst(s.conversation)
    ensures var p := TaskReplied(cfg, w, task, n, s, a);
            p.state.sent == s.sent && (p.Again? ==> CallsFirst(p.state.conversation))
  {
    if !IsFinal(a) {
      var kit := TaskKit(cfg, task);
      var d := Dispatch(kit, w, n, a.calls, 0, s.escalations);
      forall tc, o
        ensures AnswersCall(kit.outcome(tc, o), tc)
      {
        OutcomeAnswers(tc, o);
      }
      var answered, stop := DispatchAnswers(kit, w, n, a.calls, 0, s.escalations);
      forall r | r in MessagesOf(d.results)
        ensures r.ToolResult? && Calls(AssistantMessage(a), r.toolUseId)
      {
        var j :| 0 <= j < |d.results| && r == d.results[j].message;
        assert AnswersCall(d.results[j], a.calls[answered[j]]);
        assert a.calls[answered[j]] in AssistantMessage(a).toolCalls;
      }
      if d.escalation.Some? {
        var rule := Rule(request => true, User(""), (m: Message) => m.User?);
        DispatchEscalates(kit, w, n, a.calls, 0, s.escalations, rule);
        LoneUser(d.escalation.value);
      } else {
        BlockExtends(s.conversation, AssistantMessage(a), MessagesOf(d.results));
      }
    }
  }

  lemma LoneUser(m: Message)
    requires m.User?
    ensures CallsFirst([m])
  {
  }

  function ResultOf(tc: ToolCall): Message {
    ToolResult(tc.id, tc.name, "", false, None)
  }

  /** A question, a reply with two calls, and one with a third. */
  function TwoThenOne(question: string, a: ToolCall, b: ToolCall, c: ToolCall): seq<Message> {
    [User(question)] + [Assistant(None, [a, b])] + [ResultOf(a), ResultOf(b)] + [Assistant(None, [c])] + [ResultOf(c)]
  }

  /** Such a conversation loses the two calls, and not their results, under a budget of nothing. */
  lemma ResultsLoseCalls(question: string, a: ToolCall, b: ToolCall, c: ToolCall, show: Show)
    requires |question| >= 4
    ensures var compressor, ms := ContextCompressor(0, 1.0, show), TwoThenOne(question, a, b, c);
            && CallsFirst(ms)
            && CutsAtResult(compressor, ms)
            && !NoOrphans(Compressed(compressor, ms))
  {
    var compressor, ms := ContextCompressor(0, 1.0, show), TwoThenOne(question, a, b, c);
    var two, one := Assistant(None, [a, b]), Assistant(None, [c]);
    assert a in two.toolCalls && b in two.toolCalls && c in one.toolCalls;
    LoneUser(User(question));
    BlockExtends([User(question)], two, [ResultOf(a), ResultOf(b)]);
    BlockExtends([User(question)] + [two] + [ResultOf(a), ResultOf(b)], one, [ResultOf(c)]);
    assert EstimatedTokens(ms[0], show) > 0;
    CallsKeptIff(compressor, ms);
  }

  // ---- One turn --------------------------------------------------------------

  /** At no LLM call of the turn does compression keep a tail that begins with a result. */
  predicate TurnNeverCuts(cfg: Config, w: World, s: RunState)
    decreases s.remaining
  {
    var t := Signalled(w, s);
    t.interrupted || t.remaining == 0
    || (!CutsAtResult(cfg.compressor, s.conversation)
        && (match TurnPass(cfg, w, s) case Stop(_) => true case Again(r) => TurnNeverCuts(cfg, w, r)))
  }

  /** One pass asks at most once, and asks with the compressed conversation. */
  predicate AsksOnce(cfg: Config, w: World, s: RunState, p: Pass) {
    var t := Signalled(w, s);
    if t.interrupted || t.remaining == 0 then p.Stop? && p.state.sent == s.sent
    else p.state.sent == s.sent + [Compressed(cfg.compressor, s.conversation)]
  }

  lemma TurnAsksOnce(cfg: Config, w: World, s: RunState)
    ensures AsksOnce(cfg, w, s, TurnPass(cfg, w, s))
  {
  }

  lemma TurnPassExtends(cfg: Config, w: World, s: RunState)
    requires CallsFirst(s.conversation) && !CutsAtResult(cfg.compressor, s.conversation)
    ensures var p := TurnPass(cfg, w, s);
            p.Again? ==> CallsFirst(p.state.conversation)
  {
    var t := Signalled(w, s);
    if !t.interrupted && t.remaining > 0 {
      CallsKeptIff(cfg.compressor, s.conversation);
      match w.reply(s.Round()) {
        case CallFailed =>
        case Streamed(items) =>
          TurnReplyExtends(w, s.Round(), Asked(cfg, t), Response(Received(items), TurnInput(cfg)));
      }
    }
  }

  lemma {:induction false} TurnSentGrows(cfg: Config, w: World, s: RunState)
    ensures s.sent <= RunTurn(cfg, w, s).sent
    decreases s.remaining
  {
    TurnAsksOnce(cfg, w, s);
    TurnUnfolds(cfg, w, s);
    var p := TurnPass(cfg, w, s);
    if p.Again? {
      TurnSentGrows(cfg, w, p.state);
    }
  }

  /** From a well-formed conversation, every request of the turn has the calls of all its results
      exactly when no compression on the way cuts at a result. */
  lemma {:induction false} TurnKeepsCallsIff(cfg: Config, w: World, s: RunState)
    requires CallsFirst(s.conversation)
    ensures KeepsCalls(RunTurn(cfg, w, s), |s.sent|) <==> TurnNeverCuts(cfg, w, s)
    decreases s.remaining
  {
    var t, p, r := Signalled(w, s), TurnPass(cfg, w, s), RunTurn(cfg, w, s);
    TurnAsksOnce(cfg, w, s);
    TurnUnfolds(cfg, w, s);
    if !t.interrupted && t.remaining > 0 {
      TurnSentGrows(cfg, w, s);
      if p.Again? {
        TurnSentGrows(cfg, w, p.state);
      }
      KeepsOneMore(s, r, Compressed(cfg.compressor, s.conversation));
      CallsKeptIff(cfg.compressor, s.conversation);
      if p.Again? && !CutsAtResult(cfg.compressor, s.conversation) {
        TurnPassExtends(cfg, w, s);
        TurnKeepsCallsIff(cfg, w, p.state);
      }
    }
  }

  // ---- One task --------------------------------------------------------------

  predicate TaskNeverCuts(cfg: Config, w: World, task: string, s: RunState)
    requires s.escalations <= MAX_ESCALATIONS
    decreases MAX_ESCALATIONS - s.escalations, s.remaining
  {
    var t := Signalled(w, s);
    t.interrupted || t.remaining == 0
    || (!CutsAtResult(cfg.compressor, s.conversation)
        && (match TaskPass(cfg, w, task, s) case Stop(_) => true case Again(r) => TaskNeverCuts(cfg, w, task, r)))
  }

  lemma TaskAsksOnce(cfg: Config, w: World, task: string, s: RunState)
    ensures AsksOnce(cfg, w, s, TaskPass(cfg, w, task, s))
  {
  }

  lemma TaskPassExtends(cfg: Config, w: World, task: string, s: RunState)
    requires CallsFirst(s.conversation) && !CutsAtResult(cfg.compressor, s.conversation)
    ensures var p := TaskPass(cfg, w, task, s);
            p.Again? ==> CallsFirst(p.state.conversation)
  {
    var t := Signalled(w, s);
    if !t.interrupted && t.remaining > 0 {
      CallsKeptIff(cfg.compressor, s.conversation);
      match w.reply(s.Round()) {
        case CallFailed =>
        case Streamed(items) =>
          if !Broke(items) {
            TaskReplyExtends(cfg, w, task, s.Round(), Asked(cfg, t), Response(Received(items), TaskInput(cfg)));
          }
      }
    }
  }

  lemma TaskUnfolds(cfg: Config, w: World, task: string, s: RunState)
    requires s.escalations <= MAX_ESCALATIONS
    ensures var p := TaskPass(cfg, w, task, s);
            RunTask(cfg, w, task, s) == if p.Stop? then p.state else RunTask(cfg, w, task, p.state)
  {
  }

  lemma {:induction false} TaskSentGrows(cfg: Config, w: World, task: string, s: RunState)
    requires s.escalations <= MAX_ESCALATIONS
    ensures s.sent <= RunTask(cfg, w, task, s).sent
    decreases MAX_ESCALATIONS - s.escalations, s.remaining
  {
    TaskAsksOnce(cfg, w, task, s);
    TaskUnfolds(cfg, w, task, s);
    var p := TaskPass(cfg, w, task, s);
    if p.Again? {
      TaskSentGrows(cfg, w, task, p.state);
    }
  }

  /** The same for a task, which may start over from an escalation on the way. */
  lemma {:induction false} TaskKeepsCallsIff(cfg: Config, w: World, task: string, s: RunState)
    requires s.escalations <= MAX_ESCALATIONS && CallsFirst(s.conversation)
    ensures KeepsCalls(RunTask(cfg, w, task, s), |s.sent|) <==> TaskNeverCuts(cfg, w, task, s)
    decreases MAX_ESCALATIONS - s.escalations, s.remaining
  {
    var t, p, r := Signalled(w, s), TaskPass(cfg, w, task, s), RunTask(cfg, w, task, s);
    TaskAsksOnce(cfg, w, task, s);
    TaskUnfolds(cfg, w, task, s);
    if !t.interrupted && t.remaining > 0 {
      TaskSentGrows(cfg, w, task, s);
      if p.Again? {
        TaskSentGrows(cfg, w, task, p.state);
      }
      KeepsOneMore(s, r, Compressed(cfg.compressor, s.conversation));
      CallsKeptIff(cfg.compressor, s.conversation);
      if p.Again? && !CutsAtResult(cfg.compressor, s.conversation) {
        TaskPassExtends(cfg, w, task, s);
        TaskKeepsCallsIff(cfg, w, task, p.state);
      }
    }
  }

  // ---- A session over many turns ---------------------------------------------

  lemma {:induction false} NormaliseSplit(a: seq<Entry>, b: seq<Entry>)
    ensures NormaliseAll(a + b) == NormaliseAll(a) + NormaliseAll(b)
  {
    if |b| == 0 {
      assert a + b == a;
    } else {
      var n := |b| - 1;
      assert (a + b)[..|a + b| - 1] == a + b[..n] && (a + b)[|a + b| - 1] == b[n];
      NormaliseSplit(a, b[..n]);
      Regroup(NormaliseAll(a), NormaliseAll(b[..n]), Normalise(b[n].message));
    }
  }

  lemma NormaliseOne(e: Entry)
    ensures NormaliseAll([e]) == Normalise(e.message)
  {
    assert [e][..0] == [];
  }

  lemma {:induction false} NormalisedAnswer(m: Message, results: seq<Entry>)
    requires m.Assistant?
    requires forall e :: e in results ==> e.message.ToolResult? && Calls(m, e.message.toolUseId)
    ensures ResultsOf(m, NormaliseAll(results))
  {
    if |results| > 0 {
      NormalisedAnswer(m, results[..|results| - 1]);
    }
  }

  lemma BlockNormalised(block: seq<Entry>) returns (m: Message, results: seq<Message>)
    requires |block| > 0 && block[0].message.Assistant?
    requires |block| == 1 || Answers(block[0].message.toolCalls, block[1..])
    ensures NormaliseAll(block) == [m] + results && m.Assistant? && ResultsOf(m, results)
  {
    m := Normalise(block[0].message)[0];
    var rest := block[1..];
    results := NormaliseAll(rest);
    forall e | e in rest
      ensures e.message.ToolResult? && Calls(m, e.message.toolUseId)
    {
      var j :| 0 <= j < |rest| && e == rest[j];
      assert m.toolCalls[j] in m.toolCalls;
    }
    NormalisedAnswer(m, rest);
    assert block == [block[0]] + rest;
    NormaliseSplit([block[0]], rest);
    NormaliseOne(block[0]);
  }

  /** Stored blocks extend a conversation. */
  lemma {:induction false} PairedExtends(ms: seq<Message>, log: seq<Entry>)
    requires CallsFirst(ms) && Paired(log)
    ensures CallsFirst(ms + NormaliseAll(log))
    decreases |log|
  {
    if |log| == 0 {
      assert ms + [] == ms;
    } else {
      var n := if |log| == 1 then 0 else |log[0].message.toolCalls|;
      var block, rest := log[..n + 1], log[n + 1..];
      assert block[1..] == log[1..n + 1];
      var m, results := BlockNormalised(block);
      BlockExtends(ms, m, results);
      PairedExtends(ms + [m] + results, rest);
      assert log == block + rest;
      NormaliseSplit(block, rest);
      Regroup(ms, [m], results);
      Regroup(ms, NormaliseAll(block), NormaliseAll(rest));
    }
  }

  lemma TurnExtends(history: seq<Entry>, input: string, blocks: seq<Entry>)
    requires history == [] || CallsFirst(NormaliseAll(history))
    requires Paired(blocks)
    ensures CallsFirst(NormaliseAll(history) + [User(input)])
    ensures CallsFirst(NormaliseAll(history + ([Entry(User(input), None)] + blocks)))
  {
    var past, e := NormaliseAll(history), Entry(User(input), None);
    UserExtends(past, input);
    PairedExtends(past + [User(input)], blocks);
    NormaliseSplit(history, [e] + blocks);
    NormaliseSplit([e], blocks);
    NormaliseOne(e);
    Regroup(past, [User(input)], NormaliseAll(blocks));
  }

  /** The turn's requests keep their calls exactly when it never cuts at a result. */
  predicate KeepsCallsIff(st: Store, t: Turn) {
    var start := TurnStart(st.cfg, Rebuilt(t.loaded, st.codec), t.input);
    KeepsCalls(RunTurn(st.cfg, t.world, start), 0) <==> TurnNeverCuts(st.cfg, t.world, start)
  }

  lemma {:induction false} SeenTurnsKeepCallsIff(st: Store, turns: seq<Turn>, history: seq<Entry>)
    requires history == [] || CallsFirst(NormaliseAll(history))
    requires SeesHistory(st, turns, history)
    ensures forall t :: t in turns ==> KeepsCallsIff(st, t)
    decreases |turns|
  {
    if |turns| > 0 {
      var t := turns[0];
      var blocks :| Paired(blocks) && TurnLog(st, t) == [Entry(User(t.input), None)] + blocks;
      TurnExtends(history, t.input, blocks);
      TurnKeepsCallsIff(st.cfg, t.world, TurnStart(st.cfg, NormaliseAll(history), t.input));
      SeenTurnsKeepCallsIff(st, turns[1..], history + TurnLog(st, t));
    }
  }

  /** Storage heals a cut: what compression did to one turn's conversation is gone from the next one,
      so in every turn of a session only that turn's own compressions matter. */
  lemma EveryTurnKeepsCallsIff(st: Store, rows: seq<Row>, turns: seq<Turn>, history: seq<Entry>)
    requires history == [] || CallsFirst(NormaliseAll(history))
    requires st.codec.Lawful()
    requires Records(rows, st.sessionId, history, st.codec) && Possible(st, rows, turns)
    ensures forall t :: t in turns ==> KeepsCallsIff(st, t)
  {
    EveryTurnSeesHistory(st, rows, turns, history);
    SeenTurnsKeepCallsIff(st, turns, history);
  }
}
