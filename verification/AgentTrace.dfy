/** Runs told from outside: what was said in which round, what each request showed, what the answer is
    and why the run ended, for every turn and every task. */
module AgentTrace {
  import opened Agent
  import opened AgentRuns
  import opened Compressor
  import opened Messages
  import opened Session
  import opened Stream
  import opened Text
  import opened Wrappers

  /** A reply that did not end its run, and what came of its calls. */
  type Exchange = AgentRuns.Block

  // ---- What is said ----------------------------------------------------------

  /** The message of a streamed reply: the text of all its events if there is any, and its calls. */
  function Said(parse: ParseInput, items: seq<Item>): Message {
    var events := Received(items);
    Assistant(if TextOf(events) == "" then None else Some(TextOf(events)), Response(events, parse).calls)
  }

  /** A reply that ends the run: no calls, or an end of turn with text. */
  predicate Ends(parse: ParseInput, items: seq<Item>) {
    var events := Received(items);
    Response(events, parse).calls == [] || (StopOf(events) == EndTurn && TextOf(events) != "")
  }

  function TextIn(m: Message): string {
    if m.Assistant? && m.text.Some? then m.text.value else ""
  }

  lemma SaidIs(parse: ParseInput, items: seq<Item>)
    ensures var a := Response(Received(items), parse);
            && AssistantMessage(a) == Said(parse, items)
            && (IsFinal(a) <==> Ends(parse, items))
            && TextIn(Said(parse, items)) == a.text
  {
    TextAndStop(Received(items), parse);
  }

  /** The result carries what the tool returned, or its error. */
  predicate Carries(tc: ToolCall, o: Outcome, e: Entry) {
    && AnswersCall(e, tc)
    && (match o
        case Returned(content, isError, image, url) =>
          && e.message.content == content && e.message.isError == isError && e.message.image == image
          && e.imageUrl == (if image == None then None else url)
        case Raised(error) =>
          e.message.content == "Error: " + error && e.message.isError && e.message.image == None && e.imageUrl == None)
  }

  /** The input of the call could not be parsed. */
  predicate Malformed(tc: ToolCall) { tc.input.TextAt("__parse_error").Some? }

  /** The result says so, whatever the tool would have done. */
  ghost predicate Rejects(tc: ToolCall, e: Entry)
    requires Malformed(tc)
  {
    && AnswersCall(e, tc) && e.message.isError && e.message.image == None && e.imageUrl == None
    && HasPart(e.message.content, tc.name) && HasPart(e.message.content, tc.input.TextAt("__parse_error").value)
  }

  lemma TurnOutcome(tc: ToolCall, o: Outcome)
    ensures Carries(tc, o, ToolOutcome(tc, o))
  {
  }

  lemma NoticeHas(name: string, err: string, raw: string)
    ensures HasPart(MalformedNotice(name, err, raw), name) && HasPart(MalformedNotice(name, err, raw), err)
  {
    var pieces := ["malformed JSON for tool '", name, "': ", err, ". Got first 200 chars: ",
                   if |raw| > 200 then raw[..200] else raw, if |raw| > 200 then "…" else "",
                   " Please retry the call with valid JSON."];
    FormatHas(pieces, 1);
    FormatHas(pieces, 3);
  }

  lemma TaskOutcomeSays(tc: ToolCall, o: Outcome)
    ensures if Malformed(tc) then Rejects(tc, TaskOutcome(tc, o)) else Carries(tc, o, TaskOutcome(tc, o))
  {
    if Malformed(tc) {
      var raw := match tc.input.TextAt("__raw") case Some(r) => r case None => "";
      NoticeHas(tc.name, tc.input.TextAt("__parse_error").value, raw);
    }
  }

  /** How both loops read the input of a call: an input that parses is taken as it is. One that does not
      is nothing in a turn; in a task it is malformed and keeps the parser's words, unless it is missing. */
  lemma InputsRead(cfg: Config, raw: string, id: string, name: string)
    ensures cfg.fromStr(raw).Ok? ==>
              TurnInput(cfg)(raw) == cfg.fromStr(raw).value && (raw != "" ==> TaskInput(cfg)(raw) == cfg.fromStr(raw).value)
    ensures cfg.fromStr(raw).Err? ==> TurnInput(cfg)(raw) == Object(map[])
    ensures TaskInput(cfg)("") == Object(map[])
    ensures cfg.fromStr(raw).Err? && raw != "" ==>
              ToolCall(id, name, TaskInput(cfg)(raw)).input.TextAt("__parse_error") == Some(cfg.fromStr(raw).error)
  {
  }

  // ---- What differs between turns and tasks ----------------------------------

  datatype Loop = Loop(isTask: bool, parse: ParseInput, context: ToolCall -> Message, max: nat)

  function TurnOf(cfg: Config): Loop {
    Loop(false, TurnInput(cfg), tc => User(""), cfg.maxIterations)
  }

  function TaskLoop(cfg: Config, task: string): Loop {
    Loop(true, TaskInput(cfg), TaskKit(cfg, task).context, cfg.maxIterations)
  }

  /** The reply does not count: the call failed or, in a task, the stream broke. */
  predicate Lost(loop: Loop, reply: Reply) {
    reply.CallFailed? || (loop.isTask && Broke(reply.items))
  }

  ghost predicate ResultSays(loop: Loop, tc: ToolCall, o: Outcome, e: Entry) {
    if loop.isTask && Malformed(tc) then Rejects(tc, e) else Carries(tc, o, e)
  }

  /** The block is what round `n` said, did not end the run, and got these results. */
  ghost predicate BlockSays(loop: Loop, w: World, n: nat, b: Exchange) {
    && !Lost(loop, w.reply(n)) && !Ends(loop.parse, w.reply(n).items)
    && b.reply == Said(loop.parse, w.reply(n).items)
    && |b.answered| == |b.results| && b.stop <= |b.reply.toolCalls|
    && (!loop.isTask ==> b.stop == |b.results| == |b.reply.toolCalls|)
    && (forall i, k :: 0 <= i < k < |b.answered| ==> b.answered[i] < b.answered[k])
    && forall i :: 0 <= i < |b.answered| ==>
         && (if loop.isTask then b.answered[i] < b.stop else b.answered[i] == i)
         && b.answered[i] < |b.reply.toolCalls|
         && ResultSays(loop, b.reply.toolCalls[b.answered[i]], w.tool(n, b.answered[i]), b.results[i])
  }

  // ---- What is shown ---------------------------------------------------------

  /** The conversation, uncompressed, after one more block: an escalation starts over. */
  function GrownBy(loop: Loop, h: seq<Message>, b: Exchange): seq<Message> {
    if b.Cut() then [loop.context(b.reply.toolCalls[b.stop])] else h + [b.reply] + MessagesOf(b.results)
  }

  function Uncompressed(loop: Loop, h: seq<Message>, blocks: seq<Exchange>): seq<Message>
    decreases |blocks|
  {
    if |blocks| == 0 then h else Uncompressed(loop, GrownBy(loop, h, blocks[0]), blocks[1..])
  }

  /** The conversation is the history, or ends with its last four messages. */
  predicate Shows(conversation: seq<Message>, h: seq<Message>) {
    conversation == h
    || (|h| >= 4 && |conversation| >= 4 && conversation[|conversation| - 4..] == h[|h| - 4..])
  }

  lemma CompressedShows(c: ContextCompressor, conversation: seq<Message>, h: seq<Message>)
    requires Shows(conversation, h)
    ensures Shows(Compressed(c, conversation), h)
    ensures !c.Overflows(conversation) ==> Compressed(c, conversation) == conversation
  {
    if |conversation| > 0 {
      KeepsEnds(c, conversation);
    }
  }

  lemma ShowsMore(conversation: seq<Message>, h: seq<Message>, more: seq<Message>)
    requires Shows(conversation, h)
    ensures Shows(conversation + more, h + more)
  {
    if conversation != h {
      var n, m := |conversation| - 4, |h| - 4;
      assert (conversation + more)[n + |more|..] == (conversation[n..] + more)[|more|..];
      assert (h + more)[m + |more|..] == (h[m..] + more)[|more|..];
    }
  }

  /** The history never overflowed, up to and with these blocks. */
  predicate AlwaysFits(loop: Loop, c: ContextCompressor, h: seq<Message>, blocks: seq<Exchange>)
    decreases |blocks|
  {
    !c.Overflows(h) && (|blocks| > 0 ==> AlwaysFits(loop, c, GrownBy(loop, h, blocks[0]), blocks[1..]))
  }

  /** What one request shows: the end of the history, and all of it if compression never had a reason. */
  predicate RequestShows(loop: Loop, c: ContextCompressor, start: seq<Message>, h: seq<Message>, blocks: seq<Exchange>,
                         request: seq<Message>)
  {
    && Shows(request, Uncompressed(loop, h, blocks))
    && (start == h && AlwaysFits(loop, c, h, blocks) ==> request == Uncompressed(loop, h, blocks))
  }

  // ---- A run told from outside -----------------------------------------------

  function IterationsAfter(n: nat, blocks: seq<Exchange>): nat
    decreases |blocks|
  {
    if |blocks| == 0 then n else IterationsAfter(if blocks[0].Cut() then 0 else n + 1, blocks[1..])
  }

  /** The budget left: one a block, and all of it again after an escalation. */
  function LeftAfter(max: int, n: int, blocks: seq<Exchange>): int
    decreases |blocks|
  {
    if |blocks| == 0 then n else LeftAfter(max, if blocks[0].Cut() then max else n - 1, blocks[1..])
  }

  ghost predicate AllSay(loop: Loop, w: World, n: nat, blocks: seq<Exchange>) {
    forall k :: 0 <= k < |blocks| ==> BlockSays(loop, w, n + k, blocks[k])
  }

  /** Perhaps round `n` said something that ended the run. */
  predicate LastSays(loop: Loop, w: World, n: nat, last: seq<Entry>) {
    last != [] ==>
      var reply := w.reply(n);
      !Lost(loop, reply) && Ends(loop.parse, reply.items) && last == [Entry(Said(loop.parse, reply.items), None)]
  }

  /** The rows are the blocks, which rounds said one after another, and perhaps a last reply that ended
      the run; its text is the answer. */
  ghost predicate Replied(loop: Loop, w: World, s: RunState, blocks: seq<Exchange>, last: seq<Entry>, r: RunState) {
    && r.log == s.log + (LogOf(blocks) + last)
    && AllSay(loop, w, s.Round(), blocks)
    && LastSays(loop, w, s.Round() + |blocks|, last)
    && Tallied(loop, s, blocks, last, r)
  }

  /** The answer is the text of the last reply, and the counters count the blocks. */
  predicate Tallied(loop: Loop, s: RunState, blocks: seq<Exchange>, last: seq<Entry>, r: RunState) {
    && r.text == (if last == [] then s.text else TextIn(last[0].message))
    && r.iterations == IterationsAfter(s.iterations, blocks) + |last|
    && r.remaining == LeftAfter(loop.max, s.remaining, blocks)
  }

  /** Each request showed the history as it then was, and the conversation left behind does. */
  predicate Requested(loop: Loop, c: ContextCompressor, s: RunState, h: seq<Message>, blocks: seq<Exchange>, last: seq<Entry>,
                      r: RunState)
  {
    && |s.sent| <= |r.sent| <= |s.sent| + |blocks| + 1
    && r.sent[..|s.sent|] == s.sent
    && (|r.sent| > |s.sent| ==> r.sent[|s.sent|] == Compressed(c, s.conversation))
    && AllShow(loop, c, s.conversation, h, blocks, r.sent[|s.sent|..])
    && Shows(r.conversation, Uncompressed(loop, h, blocks) + MessagesOf(last))
  }

  predicate AllShow(loop: Loop, c: ContextCompressor, start: seq<Message>, h: seq<Message>, blocks: seq<Exchange>,
                    requests: seq<seq<Message>>)
  {
    && |requests| <= |blocks| + 1
    && forall k :: 0 <= k < |requests| ==> RequestShows(loop, c, start, h, blocks[..k], requests[k])
  }

  /** Nothing is asked after an interrupt; the run ended with a last reply, with one that was lost, or
      because of an interrupt or a budget that is spent. */
  predicate Ended(loop: Loop, w: World, s: RunState, blocks: seq<Exchange>, last: seq<Entry>, r: RunState) {
    var n := s.Round() + |blocks|;
    && (forall k :: s.Round() <= k < r.Round() ==> !w.interrupt(k))
    && (if last != [] then
          r.Round() == n + 1 && !r.failed && !r.interrupted
        else if r.Round() == n + 1 then
          Lost(loop, w.reply(n)) && r.failed == loop.isTask && !r.interrupted
        else
          && r.Round() == n && !r.failed && (r.interrupted || r.remaining == 0)
          && (r.interrupted <==> w.interrupt(n) || (s.interrupted && blocks == [])))
  }

  ghost predicate Told(loop: Loop, c: ContextCompressor, w: World, s: RunState, h: seq<Message>, blocks: seq<Exchange>,
                       last: seq<Entry>, r: RunState)
  {
    Replied(loop, w, s, blocks, last, r) && Requested(loop, c, s, h, blocks, last, r) && Ended(loop, w, s, blocks, last, r)
  }

  /** A pass that goes round again. */
  ghost predicate WentRound(loop: Loop, c: ContextCompressor, w: World, s: RunState, b: Exchange, t: RunState) {
    && !s.interrupted && s.remaining > 0 && !w.interrupt(s.Round())
    && BlockSays(loop, w, s.Round(), b)
    && t.log == s.log + b.Log()
    && t.sent == s.sent + [Compressed(c, s.conversation)]
    && t.conversation == GrownBy(loop, Compressed(c, s.conversation), b)
    && t.text == s.text && t.failed == s.failed && !t.interrupted
    && t.iterations == (if b.Cut() then 0 else s.iterations + 1)
    && t.remaining == (if b.Cut() then loop.max else s.remaining - 1)
  }

  lemma AllSayRound(loop: Loop, w: World, n: nat, b: Exchange, rest: seq<Exchange>)
    requires BlockSays(loop, w, n, b) && AllSay(loop, w, n + 1, rest)
    ensures AllSay(loop, w, n, [b] + rest)
  {
    forall k | 0 <= k < |[b] + rest|
      ensures BlockSays(loop, w, n + k, ([b] + rest)[k])
    {
      if k > 0 {
        assert BlockSays(loop, w, n + 1 + (k - 1), rest[k - 1]);
      }
    }
  }

  lemma TalliedRound(loop: Loop, s: RunState, b: Exchange, t: RunState, rest: seq<Exchange>, last: seq<Entry>, r: RunState)
    requires t.text == s.text && t.iterations == (if b.Cut() then 0 else s.iterations + 1)
    requires t.remaining == (if b.Cut() then loop.max else s.remaining - 1)
    requires Tallied(loop, t, rest, last, r)
    ensures Tallied(loop, s, [b] + rest, last, r)
  {
    assert ([b] + rest)[1..] == rest;
  }

  lemma LoggedRound(before: seq<Entry>, b: Exchange, rest: seq<Exchange>, last: seq<Entry>, log: seq<Entry>)
    requires log == before + b.Log() + (LogOf(rest) + last)
    ensures log == before + (LogOf([b] + rest) + last)
  {
    BlockThenBlocks(b, rest, last);
    Regroup(before, b.Log(), LogOf(rest) + last);
  }

  lemma RepliedRound(loop: Loop, w: World, s: RunState, b: Exchange, t: RunState, rest: seq<Exchange>,
                     last: seq<Entry>, r: RunState)
    requires BlockSays(loop, w, s.Round(), b) && t.Round() == s.Round() + 1 && t.log == s.log + b.Log()
    requires t.text == s.text && t.iterations == (if b.Cut() then 0 else s.iterations + 1)
    requires t.remaining == (if b.Cut() then loop.max else s.remaining - 1)
    requires Replied(loop, w, t, rest, last, r)
    ensures Replied(loop, w, s, [b] + rest, last, r)
  {
    assert LastSays(loop, w, s.Round() + |[b] + rest|, last) by {
      assert s.Round() + |[b] + rest| == t.Round() + |rest|;
    }
    assert r.log == s.log + (LogOf([b] + rest) + last) by {
      LoggedRound(s.log, b, rest, last, r.log);
    }
    AllSayRound(loop, w, s.Round(), b, rest);
    TalliedRound(loop, s, b, t, rest, last, r);
  }

  lemma RequestRound(loop: Loop, c: ContextCompressor, w: World, s: RunState, h: seq<Message>, b: Exchange, t: RunState,
                     front: seq<Exchange>, request: seq<Message>)
    requires WentRound(loop, c, w, s, b, t) && Shows(s.conversation, h)
    requires RequestShows(loop, c, t.conversation, GrownBy(loop, h, b), front, request)
    ensures RequestShows(loop, c, s.conversation, h, [b] + front, request)
  {
    assert ([b] + front)[1..] == front;
    CompressedShows(c, s.conversation, h);
  }

  lemma GrownShows(loop: Loop, conversation: seq<Message>, h: seq<Message>, b: Exchange)
    requires Shows(conversation, h)
    ensures Shows(GrownBy(loop, conversation, b), GrownBy(loop, h, b))
  {
    ShowsMore(conversation, h, [b.reply]);
    ShowsMore(conversation + [b.reply], h + [b.reply], MessagesOf(b.results));
  }

  lemma AllShowRound(loop: Loop, c: ContextCompressor, w: World, s: RunState, h: seq<Message>, b: Exchange, t: RunState,
                     rest: seq<Exchange>, requests: seq<seq<Message>>)
    requires WentRound(loop, c, w, s, b, t) && Shows(s.conversation, h)
    requires AllShow(loop, c, t.conversation, GrownBy(loop, h, b), rest, requests)
    ensures AllShow(loop, c, s.conversation, h, [b] + rest, [Compressed(c, s.conversation)] + requests)
  {
    var blocks, all := [b] + rest, [Compressed(c, s.conversation)] + requests;
    forall k | 0 <= k < |all|
      ensures RequestShows(loop, c, s.conversation, h, blocks[..k], all[k])
    {
      if k == 0 {
        CompressedShows(c, s.conversation, h);
      } else {
        assert RequestShows(loop, c, t.conversation, GrownBy(loop, h, b), rest[..k - 1], requests[k - 1]);
        RequestRound(loop, c, w, s, h, b, t, rest[..k - 1], requests[k - 1]);
        assert [b] + rest[..k - 1] == blocks[..k];
      }
    }
  }

  lemma SentSplit(before: seq<seq<Message>>, request: seq<Message>, sent: seq<seq<Message>>)
    requires |before| + 1 <= |sent| && sent[..|before| + 1] == before + [request]
    ensures sent[..|before|] == before && sent[|before|..] == [request] + sent[|before| + 1..]
  {
    assert sent[..|before|] == sent[..|before| + 1][..|before|];
    assert sent[|before|] == sent[..|before| + 1][|before|] == request;
  }

  lemma RequestedRound(loop: Loop, c: ContextCompressor, w: World, s: RunState, h: seq<Message>, b: Exchange, t: RunState,
                       rest: seq<Exchange>, last: seq<Entry>, r: RunState)
    requires WentRound(loop, c, w, s, b, t) && Shows(s.conversation, h)
    requires Requested(loop, c, t, GrownBy(loop, h, b), rest, last, r)
    ensures Requested(loop, c, s, h, [b] + rest, last, r)
  {
    assert ([b] + rest)[1..] == rest;
    SentSplit(s.sent, Compressed(c, s.conversation), r.sent);
    AllShowRound(loop, c, w, s, h, b, t, rest, r.sent[|t.sent|..]);
  }

  lemma EndedRound(loop: Loop, c: ContextCompressor, w: World, s: RunState, b: Exchange, t: RunState, rest: seq<Exchange>,
                   last: seq<Entry>, r: RunState)
    requires WentRound(loop, c, w, s, b, t) && Ended(loop, w, t, rest, last, r)
    ensures Ended(loop, w, s, [b] + rest, last, r)
  {
  }

  lemma ToldRound(loop: Loop, c: ContextCompressor, w: World, s: RunState, h: seq<Message>, b: Exchange, t: RunState,
                  rest: seq<Exchange>, last: seq<Entry>, r: RunState)
    requires WentRound(loop, c, w, s, b, t) && Shows(s.conversation, h)
    requires Told(loop, c, w, t, GrownBy(loop, h, b), rest, last, r)
    ensures Told(loop, c, w, s, h, [b] + rest, last, r)
  {
    RepliedRound(loop, w, s, b, t, rest, last, r);
    RequestedRound(loop, c, w, s, h, b, t, rest, last, r);
    EndedRound(loop, c, w, s, b, t, rest, last, r);
  }

  lemma CompressedGrownShows(loop: Loop, c: ContextCompressor, conversation: seq<Message>, h: seq<Message>, b: Exchange)
    requires Shows(conversation, h)
    ensures Shows(GrownBy(loop, Compressed(c, conversation), b), GrownBy(loop, h, b))
  {
    CompressedShows(c, conversation, h);
    GrownShows(loop, Compressed(c, conversation), h, b);
  }

  /** One request and no block. */
  lemma OneRequest(loop: Loop, c: ContextCompressor, s: RunState, h: seq<Message>, last: seq<Entry>, r: RunState)
    requires Shows(s.conversation, h) && r.sent == s.sent + [Compressed(c, s.conversation)]
    requires r.conversation == Compressed(c, s.conversation) + MessagesOf(last)
    ensures Requested(loop, c, s, h, [], last, r)
  {
    CompressedShows(c, s.conversation, h);
    ShowsMore(Compressed(c, s.conversation), h, MessagesOf(last));
    assert r.sent[|s.sent|..] == [Compressed(c, s.conversation)];
  }

  /** No block and perhaps a last reply. */
  lemma NoBlocks(loop: Loop, w: World, s: RunState, last: seq<Entry>, r: RunState)
    requires r.log == s.log + last && LastSays(loop, w, s.Round(), last) && r.remaining == s.remaining
    requires r.text == (if last == [] then s.text else TextIn(last[0].message))
    requires r.iterations == s.iterations + |last|
    ensures Replied(loop, w, s, [], last, r)
  {
    assert [] + last == last;
  }

  /** A run that ends at its stop check. */
  lemma ToldStopped(loop: Loop, c: ContextCompressor, w: World, s: RunState, h: seq<Message>, r: RunState)
    requires Shows(s.conversation, h) && !s.failed
    requires r == s.(interrupted := s.interrupted || w.interrupt(s.Round())) && (r.interrupted || r.remaining == 0)
    ensures Told(loop, c, w, s, h, [], [], r)
  {
    assert s.log + [] == s.log && h + MessagesOf([]) == h;
    NoBlocks(loop, w, s, [], r);
  }

  lemma EndedOnce(loop: Loop, w: World, s: RunState, last: seq<Entry>, r: RunState)
    requires r.Round() == s.Round() + 1 && !w.interrupt(s.Round()) && !r.interrupted
    requires if last != [] then !r.failed else Lost(loop, w.reply(s.Round())) && r.failed == loop.isTask
    ensures Ended(loop, w, s, [], last, r)
  {
  }

  /** A run that ends with a reply that was lost. */
  lemma ToldLost(loop: Loop, c: ContextCompressor, w: World, s: RunState, h: seq<Message>, r: RunState)
    requires Shows(s.conversation, h) && !s.failed && !s.interrupted && !w.interrupt(s.Round())
    requires Lost(loop, w.reply(s.Round()))
    requires var asked := Compressed(c, s.conversation);
             r == s.(conversation := asked, sent := s.sent + [asked], failed := loop.isTask)
    ensures Told(loop, c, w, s, h, [], [], r)
  {
    var none: seq<Entry> := [];
    assert r.conversation + MessagesOf(none) == r.conversation && s.log + none == s.log;
    OneRequest(loop, c, s, h, none, r);
    NoBlocks(loop, w, s, none, r);
    EndedOnce(loop, w, s, none, r);
  }

  /** A run that ends with a last reply. */
  lemma ToldLast(loop: Loop, c: ContextCompressor, w: World, s: RunState, h: seq<Message>, r: RunState)
    requires Shows(s.conversation, h) && !s.failed && !s.interrupted && !w.interrupt(s.Round())
    requires var reply := w.reply(s.Round()); !Lost(loop, reply) && Ends(loop.parse, reply.items)
    requires var asked, m := Compressed(c, s.conversation), Said(loop.parse, w.reply(s.Round()).items);
             r == s.(conversation := asked + [m], sent := s.sent + [asked], log := s.log + [Entry(m, None)],
                     text := TextIn(m), iterations := s.iterations + 1)
    ensures Told(loop, c, w, s, h, [], [Entry(Said(loop.parse, w.reply(s.Round()).items), None)], r)
  {
    var m := Said(loop.parse, w.reply(s.Round()).items);
    assert MessagesOf([Entry(m, None)]) == [m];
    OneRequest(loop, c, s, h, [Entry(m, None)], r);
    NoBlocks(loop, w, s, [Entry(m, None)], r);
    EndedOnce(loop, w, s, [Entry(m, None)], r);
  }

  // ---- Turns -----------------------------------------------------------------

  function Positions(n: nat): seq<nat> {
    seq(n, i requires 0 <= i < n => i)
  }

  lemma TurnWentRound(cfg: Config, w: World, s: RunState) returns (b: Exchange)
    requires TurnPass(cfg, w, s).Again?
    ensures WentRound(TurnOf(cfg), cfg.compressor, w, s, b, TurnPass(cfg, w, s).state)
  {
    var n, items := s.Round(), w.reply(s.Round()).items;
    var a := Response(Received(items), TurnInput(cfg));
    SaidIs(TurnInput(cfg), items);
    var results := TurnResults(w, n, a.calls);
    b := AgentRuns.Block(AssistantMessage(a), results, Positions(|a.calls|), |a.calls|);
    forall i | 0 <= i < |a.calls|
      ensures Carries(a.calls[i], w.tool(n, i), results[i])
    {
      TurnOutcome(a.calls[i], w.tool(n, i));
    }
    assert s.log + [Entry(b.reply, None)] + results == s.log + b.Log();
  }

  /** Every turn, from any point of it. */
  lemma {:induction false} TurnTold(cfg: Config, w: World, s: RunState, h: seq<Message>)
    returns (blocks: seq<Exchange>, last: seq<Entry>)
    requires Shows(s.conversation, h) && !s.failed
    ensures Told(TurnOf(cfg), cfg.compressor, w, s, h, blocks, last, RunTurn(cfg, w, s))
    decreases s.remaining
  {
    var p, loop, c := TurnPass(cfg, w, s), TurnOf(cfg), cfg.compressor;
    TurnUnfolds(cfg, w, s);
    if p.Again? {
      var b := TurnWentRound(cfg, w, s);
      CompressedGrownShows(loop, c, s.conversation, h, b);
      var rest;
      rest, last := TurnTold(cfg, w, p.state, GrownBy(loop, h, b));
      ToldRound(loop, c, w, s, h, b, p.state, rest, last, RunTurn(cfg, w, s));
      blocks := [b] + rest;
    } else {
      blocks := [];
      last := TurnEnds(cfg, w, s, h);
    }
  }

  lemma TurnEnds(cfg: Config, w: World, s: RunState, h: seq<Message>) returns (last: seq<Entry>)
    requires Shows(s.conversation, h) && !s.failed && TurnPass(cfg, w, s).Stop?
    ensures Told(TurnOf(cfg), cfg.compressor, w, s, h, [], last, TurnPass(cfg, w, s).state)
  {
    var p, loop, c := TurnPass(cfg, w, s), TurnOf(cfg), cfg.compressor;
    var reply := w.reply(s.Round());
    last := [];
    if s.interrupted || w.interrupt(s.Round()) || s.remaining == 0 {
      ToldStopped(loop, c, w, s, h, p.state);
    } else if reply.CallFailed? {
      ToldLost(loop, c, w, s, h, p.state);
    } else {
      SaidIs(TurnInput(cfg), reply.items);
      ToldLast(loop, c, w, s, h, p.state);
      last := [Entry(Said(TurnInput(cfg), reply.items), None)];
    }
  }

  // ---- Tasks -----------------------------------------------------------------

  lemma {:induction false} DispatchSays(kit: Kit, w: World, n: nat, calls: seq<ToolCall>, j: nat, escalations: nat)
    returns (answered: seq<nat>, stop: nat)
    requires j <= |calls|
    ensures var d := Dispatch(kit, w, n, calls, j, escalations);
            && j <= stop <= |calls| && |answered| == |d.results|
            && (forall i :: 0 <= i < |answered| ==>
                  j <= answered[i] < stop && d.results[i] == kit.outcome(calls[answered[i]], w.tool(n, answered[i])))
            && (forall i, k :: 0 <= i < k < |answered| ==> answered[i] < answered[k])
            && (d.escalation == if stop < |calls| then Some(kit.context(calls[stop])) else None)
    decreases |calls| - j
  {
    if j == |calls| || (!Refused(calls[j], escalations) && Escalates(kit, calls[j], escalations)) {
      answered, stop := [], j;
    } else {
      answered, stop := DispatchSays(kit, w, n, calls, j + 1, escalations);
      if !Refused(calls[j], escalations) {
        answered := [j] + answered;
      }
    }
  }

  lemma TaskBlockSays(cfg: Config, w: World, task: string, n: nat, escalations: nat) returns (b: Exchange)
    requires var reply := w.reply(n); !Lost(TaskLoop(cfg, task), reply) && !Ends(TaskInput(cfg), reply.items)
    ensures BlockSays(TaskLoop(cfg, task), w, n, b)
    ensures var a := Response(Received(w.reply(n).items), TaskInput(cfg));
            var d := Dispatch(TaskKit(cfg, task), w, n, a.calls, 0, escalations);
            && b.reply == AssistantMessage(a) && b.results == d.results
            && d.escalation == (if b.Cut() then Some(TaskKit(cfg, task).context(a.calls[b.stop])) else None)
  {
    var items := w.reply(n).items;
    var kit, a := TaskKit(cfg, task), Response(Received(items), TaskInput(cfg));
    SaidIs(TaskInput(cfg), items);
    var d := Dispatch(kit, w, n, a.calls, 0, escalations);
    var answered, stop := DispatchSays(kit, w, n, a.calls, 0, escalations);
    b := AgentRuns.Block(AssistantMessage(a), d.results, answered, stop);
    forall i | 0 <= i < |answered|
      ensures ResultSays(TaskLoop(cfg, task), a.calls[answered[i]], w.tool(n, answered[i]), d.results[i])
    {
      TaskOutcomeSays(a.calls[answered[i]], w.tool(n, answered[i]));
    }
  }

  lemma TaskWentRound(cfg: Config, w: World, task: string, s: RunState) returns (b: Exchange)
    requires TaskPass(cfg, w, task, s).Again?
    ensures WentRound(TaskLoop(cfg, task), cfg.compressor, w, s, b, TaskPass(cfg, w, task, s).state)
  {
    SaidIs(TaskInput(cfg), w.reply(s.Round()).items);
    b := TaskBlockSays(cfg, w, task, s.Round(), s.escalations);
    Regroup(s.log, [Entry(b.reply, None)], b.results);
  }

  lemma {:induction false} TaskTold(cfg: Config, w: World, task: string, s: RunState, h: seq<Message>)
    returns (blocks: seq<Exchange>, last: seq<Entry>)
    requires s.escalations <= MAX_ESCALATIONS && Shows(s.conversation, h) && !s.failed
    ensures Told(TaskLoop(cfg, task), cfg.compressor, w, s, h, blocks, last, RunTask(cfg, w, task, s))
    decreases MAX_ESCALATIONS - s.escalations, s.remaining
  {
    var p, loop, c := TaskPass(cfg, w, task, s), TaskLoop(cfg, task), cfg.compressor;
    TaskUnfolds(cfg, w, task, s);
    if p.Again? {
      var b := TaskWentRound(cfg, w, task, s);
      CompressedGrownShows(loop, c, s.conversation, h, b);
      var rest;
      rest, last := TaskTold(cfg, w, task, p.state, GrownBy(loop, h, b));
      ToldRound(loop, c, w, s, h, b, p.state, rest, last, RunTask(cfg, w, task, s));
      blocks := [b] + rest;
    } else {
      blocks := [];
      last := TaskEnds(cfg, w, task, s, h);
    }
  }

  lemma TaskEnds(cfg: Config, w: World, task: string, s: RunState, h: seq<Message>) returns (last: seq<Entry>)
    requires Shows(s.conversation, h) && !s.failed && TaskPass(cfg, w, task, s).Stop?
    ensures Told(TaskLoop(cfg, task), cfg.compressor, w, s, h, [], last, TaskPass(cfg, w, task, s).state)
  {
    var p, loop, c := TaskPass(cfg, w, task, s), TaskLoop(cfg, task), cfg.compressor;
    var reply := w.reply(s.Round());
    last := [];
    if s.interrupted || w.interrupt(s.Round()) || s.remaining == 0 {
      ToldStopped(loop, c, w, s, h, p.state);
    } else if Lost(loop, reply) {
      ToldLost(loop, c, w, s, h, p.state);
    } else {
      SaidIs(TaskInput(cfg), reply.items);
      ToldLast(loop, c, w, s, h, p.state);
      last := [Entry(Said(TaskInput(cfg), reply.items), None)];
    }
  }

  // ---- Whole runs ------------------------------------------------------------

  /** What a stronger model starts over from: a user message with the task, the model that gave up, its
      reason, and its analysis if it gave one. */
  lemma ContextSays(cfg: Config, task: string, tc: ToolCall)
    ensures var m, analysis := TaskLoop(cfg, task).context(tc), tc.input.TextAt("analysis");
            && m.User? && HasPart(m.content, task) && HasPart(m.content, cfg.localModel)
            && HasPart(m.content, tc.input.TextAt("reason").UnwrapOr("local model requested escalation"))
            && (analysis.Some? && analysis.value != "" ==> HasPart(m.content, analysis.value))
  {
    ContextHas(task, tc.input.TextAt("reason").UnwrapOr("local model requested escalation"), tc.input.TextAt("analysis"),
               cfg.localModel);
  }

  lemma ContextHas(task: string, reason: string, analysis: Option<string>, localModel: string)
    ensures var text := EscalationContext(task, reason, analysis, localModel);
            && HasPart(text, localModel) && HasPart(text, reason) && HasPart(text, task)
            && (analysis.Some? && analysis.value != "" ==> HasPart(text, analysis.value))
  {
    var head := ["[Escalated from local model (", localModel, ")]\nReason: ", reason, "\nOriginal task: ", task];
    var middle := if analysis.Some? && analysis.value != "" then ["\n\nLocal model's analysis:\n", analysis.value] else [];
    var pieces := head + middle
                  + ["\n\nPlease complete this task. The local model's analysis above may be helpful context."];
    FormatHas(pieces, 1);
    FormatHas(pieces, 3);
    FormatHas(pieces, 5);
    if analysis.Some? && analysis.value != "" {
      FormatHas(pieces, 7);
    }
  }

  /** A run told from its start: its opening is what it starts with. */
  ghost predicate ToldFrom(loop: Loop, c: ContextCompressor, w: World, opening: seq<Message>, spent: nat,
                           blocks: seq<Exchange>, last: seq<Entry>, r: RunState)
  {
    && AllSay(loop, w, 0, blocks) && LastSays(loop, w, |blocks|, last)
    && r.text == (if last == [] then "" else TextIn(last[0].message))
    && r.iterations == IterationsAfter(spent, blocks) + |last|
    && r.remaining == LeftAfter(loop.max, loop.max, blocks)
    && (r.sent != [] ==> r.sent[0] == Compressed(c, opening))
    && AllShow(loop, c, opening, opening, blocks, r.sent)
    && Shows(r.conversation, Uncompressed(loop, opening, blocks) + MessagesOf(last))
  }

  lemma ToldFromStart(loop: Loop, c: ContextCompressor, w: World, s: RunState, blocks: seq<Exchange>, last: seq<Entry>,
                      r: RunState)
    requires Told(loop, c, w, s, s.conversation, blocks, last, r)
    requires s.sent == [] && s.text == "" && s.remaining == loop.max
    ensures ToldFrom(loop, c, w, s.conversation, s.iterations, blocks, last, r)
  {
    RequestedFromStart(loop, c, s, blocks, last, r);
    RepliedFromStart(loop, w, s, blocks, last, r);
  }

  lemma RepliedFromStart(loop: Loop, w: World, s: RunState, blocks: seq<Exchange>, last: seq<Entry>, r: RunState)
    requires Replied(loop, w, s, blocks, last, r) && s.sent == []
    ensures AllSay(loop, w, 0, blocks) && LastSays(loop, w, |blocks|, last) && Tallied(loop, s, blocks, last, r)
  {
    assert s.Round() == 0 && s.Round() + |blocks| == |blocks|;
  }

  lemma RequestedFromStart(loop: Loop, c: ContextCompressor, s: RunState, blocks: seq<Exchange>, last: seq<Entry>, r: RunState)
    requires Requested(loop, c, s, s.conversation, blocks, last, r) && s.sent == []
    ensures r.sent != [] ==> r.sent[0] == Compressed(c, s.conversation)
    ensures AllShow(loop, c, s.conversation, s.conversation, blocks, r.sent)
    ensures Shows(r.conversation, Uncompressed(loop, s.conversation, blocks) + MessagesOf(last))
  {
    assert r.sent[0..] == r.sent;
  }

  /** Every task: a resumed one opens with all the messages of its checkpoint, any other with its input;
      the opening rows are those messages, and the first request shows them. */
  lemma EveryTask(cfg: Config, w: World, input: string, resume: Option<Resume>)
    returns (blocks: seq<Exchange>, last: seq<Entry>)
    ensures var opening := if resume.Some? then resume.value.messages else [User(input)];
            var spent := if resume.Some? then resume.value.iterations else 0;
            var task := if resume.Some? then resume.value.task else input;
            var r := RunTask(cfg, w, TaskOf(input, resume), TaskStart(cfg, input, resume));
            && r.log == Entries(opening) + (LogOf(blocks) + last)
            && ToldFrom(TaskLoop(cfg, task), cfg.compressor, w, opening, spent, blocks, last, r)
            && Ended(TaskLoop(cfg, task), w, TaskStart(cfg, input, resume), blocks, last, r)
  {
    var start, task := TaskStart(cfg, input, resume), TaskOf(input, resume);
    blocks, last := TaskTold(cfg, w, task, start, start.conversation);
    ToldFromStart(TaskLoop(cfg, task), cfg.compressor, w, start, blocks, last, RunTask(cfg, w, task, start));
  }

  /** Every turn: it opens with the conversation and the user's message. */
  lemma EveryTurn(cfg: Config, w: World, conversation: seq<Message>, input: string)
    returns (blocks: seq<Exchange>, last: seq<Entry>)
    ensures var start := TurnStart(cfg, conversation, input);
            var r := RunTurn(cfg, w, start);
            && r.log == [Entry(User(input), None)] + (LogOf(blocks) + last)
            && ToldFrom(TurnOf(cfg), cfg.compressor, w, conversation + [User(input)], 0, blocks, last, r)
            && r.iterations == |blocks| + |last| && r.remaining == cfg.maxIterations - |blocks|
            && Ended(TurnOf(cfg), w, start, blocks, last, r)
  {
    var start := TurnStart(cfg, conversation, input);
    blocks, last := TurnTold(cfg, w, start, start.conversation);
    ToldFromStart(TurnOf(cfg), cfg.compressor, w, start, blocks, last, RunTurn(cfg, w, start));
    NeverCut(TurnOf(cfg), w, 0, cfg.maxIterations, blocks, 0, cfg.maxIterations);
  }

  /** Without an escalation the counters count the blocks. */
  lemma {:induction false} NeverCut(loop: Loop, w: World, n: nat, max: int, blocks: seq<Exchange>, done: nat, left: int)
    requires !loop.isTask && AllSay(loop, w, n, blocks)
    ensures IterationsAfter(done, blocks) == done + |blocks| && LeftAfter(max, left, blocks) == left - |blocks|
    decreases |blocks|
  {
    if |blocks| > 0 {
      assert BlockSays(loop, w, n + 0, blocks[0]);
      forall k | 0 <= k < |blocks[1..]|
        ensures BlockSays(loop, w, n + 1 + k, blocks[1..][k])
      {
        assert BlockSays(loop, w, n + (k + 1), blocks[k + 1]);
      }
      NeverCut(loop, w, n + 1, max, blocks[1..], done + 1, left - 1);
    }
  }

  /** The answer of a turn is the text of its last row, if that is a reply, and nothing otherwise. */
  lemma TurnAnswer(cfg: Config, w: World, conversation: seq<Message>, input: string)
    ensures var r := RunTurn(cfg, w, TurnStart(cfg, conversation, input));
            r.log != [] && r.text == TextIn(r.log[|r.log| - 1].message)
  {
    var blocks, last := EveryTurn(cfg, w, conversation, input);
    var r := RunTurn(cfg, w, TurnStart(cfg, conversation, input));
    if last == [] && |blocks| > 0 {
      LastOfBlocks(TurnOf(cfg), w, 0, blocks);
    }
    assert last != [] ==> r.log[|r.log| - 1] == last[0];
  }

  /** A block that did not end a turn ends with a result. */
  lemma {:induction false} LastOfBlocks(loop: Loop, w: World, n: nat, blocks: seq<Exchange>)
    requires !loop.isTask && AllSay(loop, w, n, blocks) && |blocks| > 0
    ensures LogOf(blocks) != [] && LogOf(blocks)[|LogOf(blocks)| - 1].message.ToolResult?
    decreases |blocks|
  {
    var b := blocks[0];
    assert BlockSays(loop, w, n + 0, b);
    if |blocks| > 1 {
      forall k | 0 <= k < |blocks[1..]|
        ensures BlockSays(loop, w, n + 1 + k, blocks[1..][k])
      {
        assert BlockSays(loop, w, n + (k + 1), blocks[k + 1]);
      }
      LastOfBlocks(loop, w, n + 1, blocks[1..]);
    } else {
      assert |b.results| > 0 && LogOf(blocks) == b.Log() + [];
      assert ResultSays(loop, b.reply.toolCalls[b.answered[|b.results| - 1]],
                        w.tool(n, b.answered[|b.results| - 1]), b.results[|b.results| - 1]);
    }
  }
}
