/** The agent loops (runtime.rs), proved to compute the runs of Agent.dfy. */
module Runtime {
  import opened Agent
  import opened Budget
  import opened Compressor
  import opened Messages
  import opened Session
  import opened Stream
  import opened Wrappers

  datatype AgentResponse = AgentResponse(text: string, iterations: nat, sessionId: string)

  lemma RowsOfSplit(sessionId: string, a: seq<Entry>, b: seq<Entry>, codec: CallCodec, clock: nat -> int, from: nat)
    ensures RowsOf(sessionId, a + b, codec, clock, from)
         == RowsOf(sessionId, a, codec, clock, from) + RowsOf(sessionId, b, codec, clock, from + |a|)
  {
  }

  class AgentRuntime {
    const cfg: Config
    const budget: IterationBudget
    const session: SessionStore
    var resumeState: Option<Resume>

    ghost predicate Valid() {
      budget.max == cfg.maxIterations
    }

    constructor (cfg: Config, session: SessionStore, resumeState: Option<Resume>)
      ensures Valid() && fresh(budget)
      ensures this.cfg == cfg && this.session == session && this.resumeState == resumeState
    {
      this.cfg := cfg;
      this.session := session;
      this.resumeState := resumeState;
      this.budget := new IterationBudget(cfg.maxIterations);
    }

    /** The session holds what it held before the run, plus the rows of `log`. */
    twostate predicate Logged(sessionId: string, log: seq<Entry>)
      reads session
    {
      session.rows == old(session.rows)
                    + RowsOf(sessionId, log, session.codec, session.clock, |old(session.rows)|)
    }

    /** Append one entry, an image result by the path that keeps its URL. */
    method Append(sessionId: string, e: Entry, ghost before: seq<Row>, ghost log: seq<Entry>)
      requires session.rows == before + RowsOf(sessionId, log, session.codec, session.clock, |before|)
      requires HasPath(e)
      modifies session`rows
      ensures session.rows == before + RowsOf(sessionId, log + [e], session.codec, session.clock, |before|)
    {
      RowsOfSplit(sessionId, log, [e], session.codec, session.clock, |before|);
      if e.message.ToolResult? && e.message.image.Some? {
        var m := e.message;
        session.AppendToolResult(sessionId, m.toolUseId, m.name, m.content, m.isError, e.imageUrl, m.image);
      } else {
        session.AppendMessage(sessionId, e.message);
      }
    }

    /** Run every call of a `run_turn` reply. */
    method ExecuteCalls(w: World, n: nat, sessionId: string, calls: seq<ToolCall>, conversation: seq<Message>,
                        ghost before: seq<Row>, ghost log: seq<Entry>)
      returns (grown: seq<Message>)
      requires session.rows == before + RowsOf(sessionId, log, session.codec, session.clock, |before|)
      modifies session`rows
      ensures grown == conversation + MessagesOf(TurnResults(w, n, calls))
      ensures session.rows == before + RowsOf(sessionId, log + TurnResults(w, n, calls), session.codec, session.clock, |before|)
    {
      grown := conversation;
      ghost var results := TurnResults(w, n, calls);
      assert log + results[..0] == log;
      for j := 0 to |calls|
        invariant grown == conversation + MessagesOf(results)[..j]
        invariant session.rows == before + RowsOf(sessionId, log + results[..j], session.codec, session.clock, |before|)
      {
        var tc := calls[j];
        var e := ToolOutcome(tc, w.tool(n, j));
        assert results[..j + 1] == results[..j] + [e];
        assert log + results[..j + 1] == (log + results[..j]) + [e];
        grown := grown + [e.message];
        Append(sessionId, e, before, log + results[..j]);
      }
      assert results[..|calls|] == results;
    }

    method RunTurn(w: World, sessionId: string, conversation: seq<Message>, input: string)
      returns (grown: seq<Message>, response: AgentResponse)
      requires Valid()
      modifies budget, session
      ensures var r := Agent.RunTurn(cfg, w, TurnStart(cfg, conversation, input));
              && grown == r.conversation
              && response == AgentResponse(r.text, r.iterations, sessionId)
              && Logged(sessionId, r.log)
              && session.sessions ==
                 if sessionId in old(session.sessions) then
                   old(session.sessions)[sessionId := SessionRow(
                     old(session.sessions)[sessionId].task,
                     if r.interrupted || w.interruptAtEnd then "interrupted" else "completed", r.iterations)]
                 else old(session.sessions)
    {
      budget.Reset();
      ghost var before, start := session.rows, TurnStart(cfg, conversation, input);
      assert RowsOf(sessionId, [], session.codec, session.clock, |before|) == [];
      Append(sessionId, Entry(User(input), None), before, []);
      assert [] + [Entry(User(input), None)] == [Entry(User(input), None)];
      var finalText, totalIterations;
      grown, finalText, totalIterations := TurnLoop(w, sessionId, conversation + [User(input)], start, before);
      if w.interruptAtEnd {
        budget.Interrupt();
      }
      session.UpdateStatus(sessionId, if budget.interrupted then "interrupted" else "completed", totalIterations);
      response := AgentResponse(finalText, totalIterations, sessionId);
    }

    /** The `run_turn` loop, from the recorded user message to the last reply. */
    method TurnLoop(w: World, sessionId: string, conversation: seq<Message>, ghost first: RunState, ghost before: seq<Row>)
      returns (grown: seq<Message>, finalText: string, totalIterations: nat)
      requires Valid()
      requires first.conversation == conversation && first.iterations == 0 && first.sent == [] && first.text == ""
      requires first.remaining == budget.remaining && first.interrupted == budget.interrupted
      requires session.rows == before + RowsOf(sessionId, first.log, session.codec, session.clock, |before|)
      modifies budget, session`rows
      ensures var r := Agent.RunTurn(cfg, w, first);
              && grown == r.conversation && finalText == r.text && totalIterations == r.iterations
              && budget.interrupted == r.interrupted
              && session.rows == before + RowsOf(sessionId, r.log, session.codec, session.clock, |before|)
    {
      grown, totalIterations, finalText := conversation, 0, "";
      var calls := 0;  // LLM calls made, the index into the world
      ghost var s, run := first, Agent.RunTurn(cfg, w, first);
      while true
        invariant Agent.RunTurn(cfg, w, s) == run
        invariant s.conversation == grown && s.iterations == totalIterations && s.Round() == calls && s.text == finalText
        invariant s.remaining == budget.remaining && s.interrupted == budget.interrupted
        invariant session.rows == before + RowsOf(sessionId, s.log, session.codec, session.clock, |before|)
        decreases s.remaining
      {
        ghost var p := TurnPass(cfg, w, s);
        if w.interrupt(calls) {
          budget.Interrupt();
        }
        var stop := budget.ShouldStop();
        if stop {
          s := p.state;
          break;
        }
        ghost var asked := Asked(cfg, Signalled(w, s));
        var compressed, _ := CheckAndCompress(cfg.compressor, grown);
        grown := compressed;
        var reply := w.reply(calls);
        if reply.CallFailed? {
          s := p.state;
          break;
        }
        var a, _ := Accumulate(reply.items, TurnInput(cfg));
        calls := calls + 1;
        var m := AssistantMessage(a);
        grown := grown + [m];
        Append(sessionId, Entry(m, None), before, s.log);
        if |a.calls| == 0 {
          finalText := a.text;
          totalIterations := totalIterations + 1;
          s := p.state;
          break;
        }
        if a.stop == EndTurn && a.text != "" {
          finalText := a.text;
          totalIterations := totalIterations + 1;
          s := p.state;
          break;
        }
        grown := ExecuteCalls(w, calls - 1, sessionId, a.calls, grown, before, asked.log + [Entry(m, None)]);
        totalIterations := totalIterations + 1;
        s := p.state;
        var ok := budget.Decrement();
        if !ok {
          break;
        }
      }
    }

    /** Run one call of a `run_task` reply. */
    method ExecuteCall(kit: Kit, w: World, n: nat, j: nat, tc: ToolCall, sessionId: string, ghost start: seq<Message>,
                       ghost done: seq<Entry>, conversation: seq<Message>, ghost before: seq<Row>, ghost log: seq<Entry>)
      returns (grown: seq<Message>, ghost e: Entry)
      requires kit.Loggable() && conversation == start + MessagesOf(done)
      requires session.rows == before + RowsOf(sessionId, log + done, session.codec, session.clock, |before|)
      modifies session`rows
      ensures e == kit.outcome(tc, w.tool(n, j))
      ensures grown == start + MessagesOf(done + [e])
      ensures session.rows == before + RowsOf(sessionId, log + (done + [e]), session.codec, session.clock, |before|)
    {
      var outcome := kit.outcome(tc, w.tool(n, j));
      e := outcome;
      grown := conversation + [outcome.message];
      assert MessagesOf(done + [e]) == MessagesOf(done) + [e.message];
      Append(sessionId, outcome, before, log + done);
      assert (log + done) + [e] == log + (done + [e]);
    }

    /** Run the calls of a `run_task` reply until one escalates. */
    method DispatchCalls(kit: Kit, w: World, n: nat, sessionId: string, calls: seq<ToolCall>, escalations: nat,
                         conversation: seq<Message>, ghost before: seq<Row>, ghost log: seq<Entry>)
      returns (grown: seq<Message>, escalated: bool)
      requires kit.Loggable() && session.rows == before + RowsOf(sessionId, log, session.codec, session.clock, |before|)
      modifies session`rows
      ensures var d := Dispatch(kit, w, n, calls, 0, escalations);
              && escalated == d.escalation.Some?
              && grown == (if escalated then [d.escalation.value] else conversation + MessagesOf(d.results))
              && session.rows == before + RowsOf(sessionId, log + d.results, session.codec, session.clock, |before|)
    {
      grown, escalated := conversation, false;
      ghost var all := Dispatch(kit, w, n, calls, 0, escalations);
      ghost var done: seq<Entry> := [];
      assert log + done == log && all.After(done) == all;
      var j := 0;
      while j < |calls|
        invariant j <= |calls| && !escalated
        invariant grown == conversation + MessagesOf(done)
        invariant all == Dispatch(kit, w, n, calls, j, escalations).After(done)
        invariant session.rows == before + RowsOf(sessionId, log + done, session.codec, session.clock, |before|)
      {
        var tc := calls[j];
        if tc.name == ESCALATE_TOOL_NAME {
          if escalations >= MAX_ESCALATIONS {
            DispatchSkipped(kit, w, n, calls, j, escalations);
            j := j + 1;
            continue;
          }
          if kit.hasBrain {
            DispatchStopped(kit, w, n, calls, j, escalations, done);
            grown := [];
            grown := grown + [kit.context(tc)];
            escalated := true;
            return;
          }
        }
        DispatchExecuted(kit, w, n, calls, j, escalations, done);
        ghost var e;
        grown, e := ExecuteCall(kit, w, n, j, tc, sessionId, conversation, done, grown, before, log);
        done := done + [e];
        j := j + 1;
      }
      assert all == Dispatched(done, None) by {
        assert done + [] == done;
      }
    }

    /** The rest of the `run_task` loop body, once the reply is in. */
    method TakeReply(w: World, task: string, n: nat, sessionId: string, a: Accumulator, conversation: seq<Message>,
                     iterations: nat, escalations: nat, ghost s: RunState, ghost before: seq<Row>)
      returns (grown: seq<Message>, totalIterations: nat, escalationCount: nat, finalText: string, done: bool)
      requires Valid()
      requires s.conversation == conversation && s.iterations == iterations && s.escalations == escalations
      requires s.remaining == budget.remaining > 0 && s.interrupted == budget.interrupted && s.text == ""
      requires session.rows == before + RowsOf(sessionId, s.log, session.codec, session.clock, |before|)
      modifies budget, session`rows
      ensures var p := TaskReplied(cfg, w, task, n, s, a);
              && done == p.Stop?
              && grown == p.state.conversation && totalIterations == p.state.iterations
              && escalationCount == p.state.escalations && finalText == p.state.text
              && budget.remaining == p.state.remaining && budget.interrupted == p.state.interrupted
              && session.rows == before + RowsOf(sessionId, p.state.log, session.codec, session.clock, |before|)
    {
      totalIterations, escalationCount, finalText := iterations, escalations, "";
      var m := AssistantMessage(a);
      grown := conversation + [m];
      Append(sessionId, Entry(m, None), before, s.log);
      if |a.calls| == 0 {
        return grown, totalIterations + 1, escalationCount, a.text, true;
      }
      if a.stop == EndTurn && a.text != "" {
        return grown, totalIterations + 1, escalationCount, a.text, true;
      }
      TaskKitLoggable(cfg, task);
      var next, escalated := DispatchCalls(TaskKit(cfg, task), w, n, sessionId, a.calls, escalations, grown,
                                           before, s.log + [Entry(m, None)]);
      grown := next;
      if escalated {
        budget.Reset();
        totalIterations := 0;
        escalationCount := escalationCount + 1;
        return grown, totalIterations, escalationCount, "", false;
      }
      totalIterations := totalIterations + 1;
      var ok := budget.Decrement();
      done := !ok;
    }

    method AppendAll(sessionId: string, messages: seq<Message>, ghost before: seq<Row>)
      requires session.rows == before
      modifies session`rows
      ensures session.rows == before + RowsOf(sessionId, Entries(messages), session.codec, session.clock, |before|)
    {
      for k := 0 to |messages|
        invariant session.rows == before + RowsOf(sessionId, Entries(messages[..k]), session.codec, session.clock, |before|)
      {
        assert Entries(messages[..k + 1]) == Entries(messages[..k]) + [Entry(messages[k], None)];
        Append(sessionId, Entry(messages[k], None), before, Entries(messages[..k]));
      }
      assert messages[..|messages|] == messages;
    }

    /** The `run_task` loop, from the opened session to the last reply. */
    method TaskLoop(w: World, task: string, sessionId: string, start: seq<Message>, iterations: nat,
                    ghost first: RunState, ghost before: seq<Row>)
      returns (finalText: string, totalIterations: nat, failed: bool)
      requires Valid()
      requires first.conversation == start && first.iterations == iterations
      requires first.escalations == 0 && first.sent == [] && first.text == "" && !first.failed
      requires first.remaining == budget.remaining && first.interrupted == budget.interrupted
      requires session.rows == before + RowsOf(sessionId, first.log, session.codec, session.clock, |before|)
      modifies budget, session`rows
      ensures var r := Agent.RunTask(cfg, w, task, first);
              && failed == r.failed
              && (!failed ==> finalText == r.text && totalIterations == r.iterations && budget.interrupted == r.interrupted)
              && session.rows == before + RowsOf(sessionId, r.log, session.codec, session.clock, |before|)
    {
      ghost var s := first;
      var conversation := start;
      totalIterations, finalText, failed := iterations, "", false;
      var escalationCount, calls := 0, 0;
      while true
        invariant s.escalations == escalationCount <= MAX_ESCALATIONS
        invariant Agent.RunTask(cfg, w, task, s) == Agent.RunTask(cfg, w, task, first) && !s.failed
        invariant s.conversation == conversation && s.iterations == totalIterations && s.Round() == calls
        invariant s.text == finalText == ""
        invariant s.remaining == budget.remaining && s.interrupted == budget.interrupted
        invariant session.rows == before + RowsOf(sessionId, s.log, session.codec, session.clock, |before|)
        decreases MAX_ESCALATIONS - s.escalations, s.remaining
      {
        ghost var p := TaskPass(cfg, w, task, s);
        if w.interrupt(calls) {
          budget.Interrupt();
        }
        var stop := budget.ShouldStop();
        if stop {
          return;
        }
        ghost var asked := Asked(cfg, Signalled(w, s));
        var compressed, _ := CheckAndCompress(cfg.compressor, conversation);
        conversation := compressed;
        var reply := w.reply(calls);
        if reply.CallFailed? {
          failed := true;
          return;
        }
        var a, broke := Accumulate(reply.items, TaskInput(cfg));
        if broke {
          failed := true;
          return;
        }
        var done;
        conversation, totalIterations, escalationCount, finalText, done :=
          TakeReply(w, task, calls, sessionId, a, conversation, totalIterations, escalationCount, asked, before);
        calls := calls + 1;
        s := p.state;
        if done {
          return;
        }
      }
    }

    method RunTask(w: World, sessionId: string, userInput: string)
      returns (response: Result<AgentResponse, string>)
      requires Valid()
      modifies this, budget, session
      ensures resumeState == None
      ensures var start := TaskStart(cfg, userInput, old(resumeState));
              var task := if old(resumeState).Some? then old(resumeState).value.task else userInput;
              var r := Agent.RunTask(cfg, w, task, start);
              var begun := old(session.sessions)[sessionId := SessionRow(task, "running", 0)];
              && Logged(sessionId, r.log)
              && (response.Ok? <==> !r.failed)
              && (response.Ok? ==> response.value == AgentResponse(r.text, r.iterations, sessionId))
              && session.sessions ==
                 if r.failed then begun
                 else begun[sessionId := SessionRow(
                        task, if r.interrupted || w.interruptAtEnd then "interrupted" else "completed", r.iterations)]
    {
      budget.Reset();
      ghost var before, first := session.rows, TaskStart(cfg, userInput, resumeState);
      var resume := resumeState;
      resumeState := None;
      var conversation, iterations, task := [User(userInput)], 0, userInput;
      if resume.Some? {
        conversation, iterations, task := resume.value.messages, resume.value.iterations, resume.value.task;
      }
      session.CreateSession(sessionId, task);
      AppendAll(sessionId, conversation, before);
      var finalText, totalIterations, failed := TaskLoop(w, task, sessionId, conversation, iterations, first, before);
      if failed {
        return Err("LLM call or stream failed");
      }
      if w.interruptAtEnd {
        budget.Interrupt();
      }
      session.UpdateStatus(sessionId, if budget.interrupted then "interrupted" else "completed", totalIterations);
      response := Ok(AgentResponse(finalText, totalIterations, sessionId));
    }
  }
}
