# Peko: verified models of the agent's core

Dafny models of the parts of Peko that keep state across failures, restarts and long runs, with proofs
of what they promise. Each module models one component. A component that changes state in place is a
class or a method; it is proved equal to functions on values, and the promises are proved about those
functions, over all inputs, all runs or all reachable states.

- **Agent runs** (`Agent`, `AgentRuns`, `AgentTrace`, `AgentCalls`, `Runtime`, `Budget`, `Compressor`,
  `Stream`, `Session`): the ReAct loop of one task and of one chat turn. The LLM, the tools and the
  interrupts are arbitrary functions of the call number.
- **Background jobs** (`Checkpoints`, `BgJobs`, `BgRuns`, `BgStore`): the memory map over its table,
  checkpoints, re-opening and the resume scan.
- **Voice calls** (`CallProtocol`, `CallOutcomes`, `CallPipeline`): the durable effects of processing a
  call, with a crash possible between any two, what they leave, and the code that issues them.
- **Task queue** (`QueueProtocol`, `TaskQueue`): submitters and executor as interleaved steps.
- **Limits and drives** (`Windows`, `Limiters`, `TelegramLimiter`, `Motivation`, `DriveState`): sliding
  windows against the full record of a run, and the drives that make an idle agent explore.
- **Notes, skills, text formats** (`Wikilinks`, `Notebook`, `BrainStore`, `Skills`, `SkillStore`,
  `SkillDirectory`, `JsonScan`, `Cron`, `CronParser`, `CronGrammar`).
- **Pixel rotation** (`Rotation`, `Pixels`).
- `Text`, `Messages`, `Ordering`, `Division` and `Wrappers` hold shared definitions.

`dafny verify dfyconfig.toml` checks everything.

Where the code and its documentation disagree, the model follows the code:

- `docs/implementation/Context-Compression.md` keeps the first two messages; the code keeps the first.
  A summary does not survive the next compression (`Compressor.RecompressionForgets`).
- The comment at `runtime.rs:449-451` calls a refused escalation a no-op call; it gets no result
  (`AgentRuns.TaskReplyAnswered`).
- The header of `background.rs` says jobs of an earlier process are not in memory; `open` loads them.
- The comment at `life_loop.rs:347-350` says about 12 nudges reach the Explore bar; it takes 13.
- `BgStore` counters above 2^63 - 1 are lost on re-opening (`BgJobs.ThroughTableExact`); the JSON scanner
  starts late behind a non-ASCII prefix (`JsonScan.PrefixIsTransparentIff`); a day or month step of
  4294967295 admits zero (`CronGrammar.FieldTextMeaning`); a submitter dropped while it waits for room
  keeps the queue from ever being idle (`QueueProtocol.IdleAgainIff`); compression can keep a result
  and remove its call (`Compressor.CallsKeptIff`).

## Model

| member | source | states |
|---|---|---|
| AgentRuns.TaskTerminatesInBudget | crates/peko-core/src/runtime.rs:193-606 | For every LLM, tool and interrupt behaviour a `run_task` ends with at most one escalation, at most (1 + escalations) x budget <= 2 x budget LLM calls, and at most resumed + budget reported iterations (at most the budget after an escalation) |
| AgentRuns.TaskBounds | crates/peko-core/src/runtime.rs:218-606 | The same from any point of a run: what the escalations and the budget left still allow, by the measure (escalations left, budget left) across budget resets |
| AgentRuns.TurnBounds | crates/peko-core/src/runtime.rs:675-970 | `run_turn` makes at most as many LLM calls, and reports at most as many iterations, as its budget |
| AgentRuns.EveryRequestOk | crates/peko-core/src/runtime.rs:199-235 | At every LLM call of a task the conversation fits the token budget or has at most six messages; the calls up to the escalation are headed by the task or the first resumed message and all later ones by the escalation context |
| AgentRuns.TurnRequests | crates/peko-core/src/runtime.rs:675-700 | At every LLM call of a `run_turn` the conversation fits or has at most six messages, and starts with the first message of the session |
| AgentRuns.TurnLogPaired | crates/peko-core/src/runtime.rs:840-971 | The rows a `run_turn` appends after the user message are blocks of one assistant message and one result per call, same ids, names and order, only the last assistant message possibly unanswered; reported iterations count the assistant messages |
| AgentRuns.TaskReplyAnswers | crates/peko-core/src/runtime.rs:438-588 | Which calls of a `run_task` reply get a result: in order, exactly those before the accepted escalation that are not refused escalations |
| AgentRuns.TaskReplyAnswered | crates/peko-core/src/runtime.rs:440-453 | A `run_task` reply is fully answered if and only if no call of it is an escalation the run accepts or refuses |
| AgentRuns.TaskLogShape | crates/peko-core/src/runtime.rs:199-215 | The rows of a whole `run_task`, resumed or not: the opening messages, then blocks of a reply and its results, each answered as above, at most one of them cut by an accepted escalation, then at most one unanswered last reply |
| AgentRuns.TaskLogBlocks | crates/peko-core/src/runtime.rs:218-606 | The same from any point of a run, with as many blocks cut as the run escalates |
| AgentRuns.EveryTurnSeesHistory | crates/peko-core/src/task_queue.rs:347-371 | Over any number of turns on one session, with rows of other sessions anywhere among them, also inside a turn, however often memory was compressed and however ties are returned, each turn starts from the whole normalised history and extends it by its user message and paired blocks |
| AgentRuns.StorageKeepsIff | crates/peko-core/src/task_queue.rs:347-371 | A history comes back from storage word for word if and only if none of its messages is a system message, has an image, or has a text that is empty |
| AgentTrace.EveryTask | crates/peko-core/src/runtime.rs:193-634 | A whole `run_task` told from outside. A resumed one opens with all the messages and the iterations of its checkpoint, any other with its input; the rows are the opening, then what successive rounds said and the results their calls got, then at most one last reply; the answer is the text of that reply and empty without one; every request ends as the uncompressed history does, is all of it if nothing overflowed, and the first is the compressed opening; iterations and budget count the blocks since the escalation; nothing is asked after an interrupt, and the run ends only with a last reply, a lost one, an interrupt or a spent budget |
| AgentTrace.EveryTurn | crates/peko-core/src/runtime.rs:637-1011 | The same for a whole `run_turn`, which opens with the conversation and the user message |
| AgentTrace.TaskTold | crates/peko-core/src/runtime.rs:218-606 | The same from any point of a task, for any history its conversation ends like |
| AgentTrace.TurnTold | crates/peko-core/src/runtime.rs:675-971 | and of a turn |
| AgentTrace.TurnAnswer | crates/peko-core/src/runtime.rs:855-868 | The answer of a turn is the text of its last row if that is a reply, and empty otherwise |
| AgentTrace.TaskOutcomeSays | crates/peko-core/src/runtime.rs:484-520 | A result row of a task carries content, flag, image and URL the tool returned, or "Error: " and its error with the flag set; for an input that did not parse, a failure that names the tool and the parser's error, whatever the tool would have done |
| AgentTrace.TurnOutcome | crates/peko-core/src/runtime.rs:871-968 | and one of a turn carries what the tool returned, or its error |
| AgentTrace.InputsRead | crates/peko-core/src/runtime.rs:1224-1237 | An input that parses is taken as it is; one that does not is empty in a turn and marked with the parser's error in a task |
| AgentTrace.ContextSays | crates/peko-core/src/brain.rs:290-315 | The message an escalation starts over from has the task, the model that gave up, its reason and its analysis |
| Runtime.AgentRuntime.RunTask | crates/peko-core/src/runtime.rs:173-634 | The loop, escalation, resume and session writes compute exactly the run the results above speak of: response, appended rows, session status |
| Runtime.AgentRuntime.TaskLoop | crates/peko-core/src/runtime.rs:218-606 | The `run_task` loop with its in-place conversation, counters and budget leaves the rows, text and iterations of the specified run |
| Runtime.AgentRuntime.TakeReply | crates/peko-core/src/runtime.rs:418-606 | One accumulated reply: assistant row, final-text exits, calls, escalation restart, budget decrement |
| Runtime.AgentRuntime.DispatchCalls | crates/peko-core/src/runtime.rs:438-588 | The call loop: refused escalations skipped, an accepted one clears the conversation and drops the rest, every other call appends its result to conversation and log |
| Runtime.AgentRuntime.RunTurn | crates/peko-core/src/runtime.rs:637-985 | `run_turn` computes the specified turn: grown conversation, response, appended rows, session status |
| Runtime.AgentRuntime.TurnLoop | crates/peko-core/src/runtime.rs:675-971 | The `run_turn` loop leaves the conversation, text, iterations and rows of the specified turn |
| Runtime.AgentRuntime.ExecuteCalls | crates/peko-core/src/runtime.rs:871-968 | One result per call in order, on the conversation and in the log |
| Budget.IterationBudget.Decrement | crates/peko-core/src/budget.rs:20-28 | Decrements while something is left and fails without a change at zero |
| Budget.IterationBudget.ShouldStop | crates/peko-core/src/budget.rs:47-49 | Stops exactly when interrupted or exhausted |
| Budget.IterationBudget.Reset | crates/peko-core/src/budget.rs:42-45 | Restores the full budget and forgets the interrupt |
| Stream.Accumulate | crates/peko-core/src/runtime.rs:354-416 | The event loop with its six buffers yields the response of the events received before the first transport error, and reports whether there was one |
| Stream.AccumulateInvertsEncode | crates/peko-core/src/runtime.rs:362-416 | Accumulation inverts encoding: any list of named calls, their input split anywhere, interleaved with text and block stops and closed by a stop, by the message delta or (the last) by the end, comes back as exactly those calls in order, with the concatenated text and the last stop reason |
| Stream.TextAndStop | crates/peko-core/src/runtime.rs:362-402 | Text and stop reason are right for every stream, however its calls are broken up |
| Stream.OneCallPerStart | crates/peko-core/src/runtime.rs:366-416 | As many calls come out as starts went in if and only if every start is named and none arrives while a named call is open; otherwise fewer |
| Compressor.CheckAndCompress | crates/peko-core/src/compressor.rs:22-101 | Replaces the conversation by head, one summary and the last four messages exactly when it is over budget and longer than four; the reported counts are those of the two conversations |
| Compressor.FitsOrSmall | crates/peko-core/src/compressor.rs:22-101 | Afterwards the conversation fits or has at most six messages; five that are over budget become six |
| Compressor.KeepsEnds | crates/peko-core/src/compressor.rs:38-92 | The first and the last four messages survive verbatim |
| Compressor.EachLineOnceInOrder | crates/peko-core/src/compressor.rs:46-78 | The summary is one line per removed call and one per removed result (content cut at 200 characters), each in a block of its own, blocks in message order, nothing between |
| Compressor.LinesSay | crates/peko-core/src/compressor.rs:42-66 | A call's line has its name and arguments, a result's its name, whether it failed, and its content up to 200 characters |
| Compressor.SummarySays | crates/peko-core/src/compressor.rs:71-92 | The summary is the second of six messages, a user message with the number of messages it stands for and every line of theirs |
| Compressor.OverflowsIff | crates/peko-core/src/compressor.rs:22-30 | A conversation is over budget if and only if its tokens are more than the real share of the context, whatever is rounded, and not none |
| Messages.TotalTokensCount | crates/peko-core/src/message.rs:125-142 | The estimate is a quarter of all bytes of text, calls, arguments and images in the conversation, up to three bytes a part |
| Compressor.RecompressionForgets | crates/peko-core/src/compressor.rs:22-92 | A summary stays, and the conversation with it, exactly as long as what grew behind it fits; compressing again drops it without a trace: the new summary lists only what came after |
| Compressor.FirstKeptOrphanedIff | crates/peko-core/src/compressor.rs:38-92 | Compression takes the call from the first kept result if and only if it removes something and that call is in the removed middle and not at the head, for every conversation |
| Compressor.CallsKeptIff | crates/peko-core/src/compressor.rs:38-92 | Where results stand behind their calls, all four kept messages included, every result keeps its call, and the shape stays, if and only if compression removes nothing or what it keeps does not begin with a result |
| AgentCalls.ResultsLoseCalls | crates/peko-core/src/compressor.rs:38-92 | A conversation where that fails: a question, a reply with two calls and one with a third |
| AgentCalls.TurnKeepsCallsIff | crates/peko-core/src/runtime.rs:675-971 | Every request of a whole `run_turn` holds the calls of all its results if and only if no compression on the way keeps a tail that begins with a result |
| AgentCalls.TaskKeepsCallsIff | crates/peko-core/src/runtime.rs:218-606 | The same for `run_task`, across an escalation |
| AgentCalls.EveryTurnKeepsCallsIff | crates/peko-core/src/task_queue.rs:347-371 | Storage heals a cut: in every turn of a session only that turn's own compressions matter, whatever earlier ones did |
| Session.SessionStore.AppendMessage | crates/peko-core/src/session.rs:100-148 | Appends exactly the row of the message, stamped by the clock |
| Session.SessionStore.AppendToolResult | crates/peko-core/src/session.rs:150-168 | Appends exactly the row of an image result, with its URL |
| Session.Rebuild | crates/peko-core/src/task_queue.rs:347-371 | The rebuild loop turns loaded rows into messages row by row |
| Session.LoadOrderIsInsertionOrder | crates/peko-core/src/session.rs:179-199 | Ordering by time gives insertion order, whatever the database does with ties, if and only if the session's timestamps strictly increase |
| Session.RebuildRoundTrip | crates/peko-core/src/session.rs:100-199 | Storing entries and rebuilding from any permitted answer gives the normalised history: system messages and images dropped, empty text as none, everything else as it was |
| Session.RecordsAppend | crates/peko-core/src/session.rs:100-168 | Appending extends one session's record by exactly the new entries and leaves every other session alone |
| Checkpoints.Encode | crates/peko-core/src/background.rs:196-208 | Ends with the first message and a suffix of the rest, under the size cap or down to two messages, and no fewer dropped would have done |
| Checkpoints.DecodeStored | crates/peko-core/src/background.rs:180-231 | What is decoded from a stored checkpoint: same task and iterations, no images, first message and an unbroken tail; everything if it fits |
| Checkpoints.SanitisedSays | crates/peko-core/src/background.rs:213-231 | A message with an image keeps everything but it, its text and then a note; any other is unchanged |
| Checkpoints.FewestIsStored | crates/peko-core/src/background.rs:196-208 | There is one fewest number of removals that settles, and it determines what is stored |
| BgJobs.ThroughTableExact | crates/peko-core/src/background.rs:487-497 | A job's counters survive the signed 64-bit columns if and only if they are below 2^63 |
| BgJobs.EachOpAgrees | crates/peko-core/src/background.rs:433-735 | Every enqueue, mark, checkpoint, resume scan, prune and re-open keeps memory and table in agreement on each job memory holds |
| BgJobs.RunAgrees | crates/peko-core/src/background.rs:433-735 | So does every sequence of them |
| BgJobs.ReopenRestores | crates/peko-core/src/background.rs:281-347 | After any run, closing and re-opening a table of up to 500 rows gives every job back, and the identical state if the counters fit |
| BgJobs.ReopenKeepsNewest | crates/peko-core/src/background.rs:337-347 | With more rows 500 come back, each as it was, and no job left behind is newer in memory than one that came back |
| BgJobs.ReopenAgrees | crates/peko-core/src/background.rs:337-347 | After any run, with re-opens of any size in it, what comes back agrees with what memory held of it |
| BgJobs.ScanSplits | crates/peko-core/src/background.rs:562-626 | A resume scan splits the running rows: orphans are failed on disk and in memory, fresh ones stay as they are and are returned if memory holds them; no other row changes |
| BgJobs.NothingLeftBehind | crates/peko-core/src/background.rs:562-626 | Every running row is returned or failed if and only if memory holds all the fresh ones |
| BgJobs.SecondScanIdleIff | crates/peko-core/src/background.rs:562-626 | A second scan, at the same or a later time, changes nothing if and only if no fresh checkpoint has aged past its cutoff meanwhile |
| BgJobs.SecondScanReturns | crates/peko-core/src/background.rs:562-626 | and returns the same jobs but those that have; none have if the clock stood still |
| BgRuns.LastWriteStands | crates/peko-core/src/background.rs:433-720 | After any run, with any prunes, re-opens and scans in it, the job in memory and its row say, field by field, what the last write to them said: status, times, result, error, session, counters, checkpoint |
| BgRuns.RunKeepsIdentity | crates/peko-core/src/background.rs:433-720 | and no operation but its own enqueueing changes a job's task, name and creation time |
| BgRuns.CheckpointComesBack | crates/peko-core/src/background.rs:535-626 | A checkpoint of a running job comes back: after any operations on other jobs, prunes, re-opens that keep the job and scans that can read it, a scan whose cutoff is no later returns the job, running, with that checkpoint, and leaves its row alone |
| BgRuns.ScanFailsIff | crates/peko-core/src/background.rs:562-626 | A scan fails a running row, in both layers and with the matching reason, if and only if it has no checkpoint, or an old one, or one that cannot be decoded |
| BgRuns.PrunedIff | crates/peko-core/src/background.rs:708-735 | A prune takes a job, from both layers, if and only if its last write finished it before the cutoff |
| BgStore.BgStore.Open | crates/peko-core/src/background.rs:281-347 | Loads the newest 500 rows of the table |
| BgStore.BgStore.Enqueue | crates/peko-core/src/background.rs:433-453 | Adds the queued job to memory and table |
| BgStore.BgStore.MarkRunning | crates/peko-core/src/background.rs:455-470 | Sets status and start in memory if present, and in the table |
| BgStore.BgStore.MarkDone | crates/peko-core/src/background.rs:472-505 | Sets status, finish, result, session and counters in both |
| BgStore.BgStore.MarkFailed | crates/peko-core/src/background.rs:507-525 | Sets status, finish and error in both |
| BgStore.BgStore.MarkTimeout | crates/peko-core/src/background.rs:527-530 | Is a failure with the timeout text |
| BgStore.BgStore.MarkCancelled | crates/peko-core/src/background.rs:628-650 | Cancels exactly a job in memory that is not terminal, and changes nothing otherwise |
| BgStore.BgStore.WriteCheckpoint | crates/peko-core/src/background.rs:535-555 | Stores the encoded checkpoint and mirrors its iterations in memory |
| BgStore.BgStore.PruneFinished | crates/peko-core/src/background.rs:708-735 | Removes finished old jobs from memory and table and counts those of memory |
| BgStore.BgStore.PendingResumable | crates/peko-core/src/background.rs:562-626 | The scan loop changes the state as the specified scan and returns each resumable job once, with its decoded checkpoint |
| CallProtocol.AtMostOncePerCall | crates/peko-core/src/call_pipeline.rs:264-429 | In every reachable state, with a crash allowed between any two effects and metadata named after its file: each call was uploaded to speech-to-text at most once and put in memory at most once, and both have a row |
| CallProtocol.EveryStepKeepsCalls | crates/peko-core/src/call_pipeline.rs:264-429 | From every such state, every step: processing deletes audio only of a call whose row is skipped or has a transcript; rows stay, never return to `recorded` and keep their transcript |
| CallProtocol.HandleSafe | crates/peko-core/src/call_pipeline.rs:264-429 | Whatever the services answer, every effect a pass issues is permitted where it is issued |
| CallProtocol.RunInvariant | crates/peko-core/src/call_pipeline.rs:264-429 | The invariant behind both, over every run of passes, crashes and recorder writes |
| CallProtocol.TickClearsSentinels | crates/peko-core/src/call_pipeline.rs:264-308 | A tick that does not crash leaves none of the sentinels it saw and all the others, whatever failed on the way |
| CallProtocol.PassClearsItsSentinel | crates/peko-core/src/call_pipeline.rs:282-308 | A pass that is not interrupted removes its sentinel and no other |
| CallProtocol.PassUploadsIff | crates/peko-core/src/call_pipeline.rs:318-325 | Some pass over a call may upload it if and only if it has no row yet and its files are there: once it has a row nothing is retried |
| CallProtocol.CrashLosesCallIff | crates/peko-core/src/call_pipeline.rs:318-375 | From a state with nothing in flight, as a crash leaves it, some run can upload the call, or one has, if and only if it has no row or was uploaded before: a pass that dies between insert and upload loses the call for good |
| CallProtocol.AlwaysSafeIff | crates/peko-core/src/call_pipeline.rs:327-372 | A pass over a call issues every effect safely, whatever is configured and answered, if and only if the call has its row or its readable metadata is named after its file |
| CallProtocol.SafeRecordersIff | crates/peko-core/src/call_pipeline.rs:264-429 | Every run is free of unsafe effects if and only if the recorder only writes metadata named after its file |
| CallProtocol.PassOverwritesIff | crates/peko-core/src/call_pipeline.rs:327-372 | Some pass may overwrite a row, and with it its transcript, if and only if the metadata names a call that has one while the call itself has none |
| CallProtocol.InsertsComeFirst | crates/peko-core/src/call_pipeline.rs:336-372 | and every row a pass inserts is recorded or skipped, without a transcript, under the id in the metadata |
| CallOutcomes.PassLeaves | crates/peko-core/src/call_pipeline.rs:310-429 | Everything a whole pass leaves of a call without a row, for all configurations, recordings and answers: when there is a row and its columns, the transcript exactly as the service gave it if it was stored, the summary likewise, the memory entry, the upload, state and error in every branch, and which files are gone |
| CallOutcomes.SecondPassLeaves | crates/peko-core/src/call_pipeline.rs:327-333 | A call that has its row loses its sentinel and nothing else; if the query for the row fails, that error is written on it |
| CallPipeline.CallPipeline.ProcessOne | crates/peko-core/src/call_pipeline.rs:310-429 | The code issues exactly the specified effects in order, for every outcome of every query and service |
| CallPipeline.CallPipeline.Tick | crates/peko-core/src/call_pipeline.rs:264-308 | A whole tick leaves exactly the specified files, rows, uploads and memories |
| QueueProtocol.PendingIsExact | crates/peko-core/src/task_queue.rs:138-147 | Over all interleavings `pending` is the announced, abandoned, queued and received-but-not-begun requests, and the saturating decrement never saturates |
| QueueProtocol.FirstInFirstOut | crates/peko-core/src/task_queue.rs:204-298 | Results come out in the order requests were sent, each once, the rest unanswered |
| QueueProtocol.IdleIsExact | crates/peko-core/src/task_queue.rs:180-183 | `is_idle` holds if and only if nothing is announced, abandoned, queued or executing; then every request ever announced has had its result sent |
| QueueProtocol.IdleAgainIff | crates/peko-core/src/task_queue.rs:138-183 | In any state of an interleaving, some continuation reports idle if and only if no submitter was dropped while it waited for room: a dropped one is counted for ever |
| QueueProtocol.DroppedSubmitterSticks | crates/peko-core/src/task_queue.rs:138-147 | A run that gets there: one request fills a channel of one, the submitter of a second is dropped, the first is answered; nothing is queued or executing, one stays pending, and no continuation is idle |
| QueueProtocol.ExecutorDrains | crates/peko-core/src/task_queue.rs:204-298 | The executor is never stuck: left alone it answers everything sent, in exactly the steps counted |
| QueueProtocol.RunInvariant | crates/peko-core/src/task_queue.rs:138-298 | The invariant behind them, over every interleaving |
| TaskQueue.TaskQueue.SubmitAnnounce | crates/peko-core/src/task_queue.rs:139-143 | The first section of a submit is the announcing step |
| TaskQueue.TaskQueue.SubmitSend | crates/peko-core/src/task_queue.rs:145-146 | The second is the sending step, taken exactly when the channel has room |
| TaskQueue.TaskQueue.ExecutorBegin | crates/peko-core/src/task_queue.rs:206-212 | The status update before a task is the beginning step |
| TaskQueue.TaskQueue.ExecutorFinish | crates/peko-core/src/task_queue.rs:291-297 | The status update after it is the finishing step |
| TaskQueue.TaskQueue.ExecutorReceive | crates/peko-core/src/task_queue.rs:204-204 | Receiving is the receiving step, taken exactly when something is queued |
| TaskQueue.TaskQueue.ExecutorReply | crates/peko-core/src/task_queue.rs:288-288 | Sending the result is the replying step |
| TaskQueue.TaskQueue.CheckIdle | crates/peko-core/src/task_queue.rs:180-183 | Answers exactly what the status says |
| Limiters.Gates.Run | crates/peko-core/src/life_loop.rs:294-453 | Over every run of ticks with non-decreasing time, every closed hour and every closed day holds at most the configured tasks, and every closed day at most the token cap when it limits, although checks and charges happen at different times |
| Limiters.Gates.Tick | crates/peko-core/src/life_loop.rs:326-453 | A tick submits exactly when not paused, idle, with a prompt and with room under all three limits at the instants they are checked, and then charges both records once |
| Limiters.SubmitsIff | crates/peko-core/src/life_loop.rs:326-453 | That room in numbers: fewer tasks than allowed in the hour and day before, and the day's tokens with the prompt's within the cap, unless it is off or at the top of the type |
| Windows.NoWindowExceeds | crates/peko-core/src/life_loop.rs:94-163 | Charges that each found room at some earlier instant never overfill any closed window |
| Limiters.RateLimiter.HasBudget | crates/peko-core/src/life_loop.rs:106-113 | True exactly when the hour and the day of the full, untrimmed record have room |
| Limiters.RateLimiter.Consume | crates/peko-core/src/life_loop.rs:115-117 | Adds one entry and keeps every window within both limits |
| Limiters.TokenBudget.HasBudget | crates/peko-core/src/life_loop.rs:155-158 | True exactly when the cap is off or the full day's charges and the cost fit it, in saturating arithmetic |
| Limiters.TokenBudget.SpentToday | crates/peko-core/src/life_loop.rs:150-153 | The day's charges of the full record, although the deque is trimmed |
| Limiters.TrimmedCounts | crates/peko-core/src/life_loop.rs:99-104 | Trimming loses no entry that still counts |
| Limiters.SaturationExact | crates/peko-core/src/life_loop.rs:155-158 | The saturating test is the real one if and only if the cap is below the top of the type |
| TelegramLimiter.UserLimiter.Check | src/telegram/bot.rs:256-274 | Clears the user's window of what is a minute old, accepts while it holds fewer than `limit` (always if that is zero), and records; other users are untouched. If no reading is a minute behind, that is exactly while fewer than `limit` of the user's own acceptances, of the full record, are under a minute old |
| TelegramLimiter.UserLimiter.Run | src/telegram/bot.rs:256-274 | Over any run of messages with no user's readings going back, no half-open minute holds more than the limit of any user's |
| TelegramLimiter.AdmitsExactly | src/telegram/bot.rs:263-273 | The window's length is the count over the full record |
| Motivation.EveryHistoryStaysInside | crates/peko-core/src/motivation.rs:107-137 | Over every history of events and decays every drive stays in [0,1] without the clamp acting, and from the open interval never reaches an end |
| Motivation.NudgeStaysInside | crates/peko-core/src/motivation.rs:188-197 | One event: no clamp, never lands on an end, the room left is multiplied by one factor |
| Motivation.PullStaysOnItsSide | crates/peko-core/src/motivation.rs:124-137 | Decay never crosses 0.5 and shrinks the distance to it by exactly the rate |
| Motivation.RepeatedEventIsGeometric | crates/peko-core/src/motivation.rs:107-120 | n equal events follow a geometric sequence of the room left |
| Motivation.ShrunkIsPower | crates/peko-core/src/motivation.rs:188-197 | whose closed form is room x factor^n |
| Motivation.OthersStay | crates/peko-core/src/motivation.rs:107-120 | and leave the other drives alone |
| Motivation.EventsMove | crates/peko-core/src/motivation.rs:107-122 | Success, engagement, staleness and coherence raise their drive, failure, escalation, rejection, novelty and incoherence lower it; no other moves |
| Motivation.RepeatsCall | crates/peko-core/src/motivation.rs:107-165 | From any drives, twelve failures, engagements or incoherences in a row, or thirty stale ticks, make their action the suggestion, unless one that goes before it is |
| Motivation.FifthFailureCalls | crates/peko-core/src/motivation.rs:107-165 | From baseline the fifth failure in a row is the first to call for a review |
| Motivation.ExploreIsReachedIff | crates/peko-core/src/life_loop.rs:301-361 | For a constant gap, idle ticks from baseline ever propose to explore if and only if the gap is under 1080000/53 seconds (about 5.66 hours) |
| Motivation.ShortGapsExplore | crates/peko-core/src/life_loop.rs:301-361 | With gaps, however they vary, up to any bound under that, some tick explores and none before it does anything |
| Motivation.LongGapsStayQuiet | crates/peko-core/src/life_loop.rs:301-361 | With gaps all at least that, none ever does |
| Motivation.SixteenthTickExplores | crates/peko-core/src/life_loop.rs:301-361 | With gaps of up to 300 seconds, however they vary, the sixteenth idle tick from baseline is the first to explore |
| DriveState.MotivationState.Record | crates/peko-core/src/motivation.rs:107-122 | Updates the drive of the event as specified and no other |
| DriveState.MotivationState.Decay | crates/peko-core/src/motivation.rs:124-139 | Pulls all four drives, or changes nothing when under a second has passed |
| DriveState.Heartbeat.Tick | crates/peko-core/src/life_loop.rs:295-364 | A tick of the loop: paused does nothing, closed gates only decay, open gates decide after the decay and count idle ticks |
| DriveState.Heartbeat.IdleTicks | crates/peko-core/src/life_loop.rs:295-364 | Idle ticks in sequence are the run the results speak of |
| Notebook.RunKeepsIndex | crates/peko-core/src/notebook.rs:127-206 | After any saves and deletes, whatever happens to files, the link table is right and slugs are unique and never empty; if file operations succeed there is one file per note with its export and no other |
| Notebook.IndexedIsRecomputed | crates/peko-core/src/notebook.rs:174-192 | The link table is right link by link if and only if it equals a recomputation over all notes: the non-empty slugs of each content's wikilinks |
| Notebook.LinksAreAScan | crates/peko-core/src/notebook.rs:282-316 | Backlinks equal a scan of all notes, outgoing links the notes whose slugs the content names, and no link has a missing source |
| Notebook.NeighboursAreMutual | crates/peko-core/src/notebook.rs:261-277 | Being one link away is mutual |
| Notebook.SaveEffect | crates/peko-core/src/notebook.rs:143-172 | A save changes exactly the note of its slug, keeping its id and creation time; another title with the same slug updates in place |
| Notebook.ExportSays | crates/peko-core/src/notebook.rs:185-195 | The file of a note has a line for each of its columns, and its content at the end |
| Notebook.EscapedIsRead | crates/peko-core/src/notebook.rs:473-479 | A text that was escaped for the file reads back as it was |
| Notebook.DanglingIff | crates/peko-core/src/notebook.rs:353-358 | A link is counted as dangling if and only if its target is no note's slug |
| Notebook.DeleteUndoesSave | crates/peko-core/src/notebook.rs:127-348 | Deleting a note that a save created restores notes, links and files exactly |
| BrainStore.Store.Save | crates/peko-core/src/notebook.rs:127-206 | Statement by statement the specified save: rejected before any change on an empty slug, tables changed and an error when the file cannot be written, and the returned note claims the save's time as its creation time |
| BrainStore.Store.RefreshLinks | crates/peko-core/src/notebook.rs:174-192 | Replaces exactly the links of one note by the non-empty slugs of its wikilinks |
| BrainStore.Store.Delete | crates/peko-core/src/notebook.rs:336-348 | Removes one note whose id or slug is the key, with its links and file, if there is one |
| BrainStore.Store.Search | crates/peko-core/src/notebook.rs:231-279 | Returns distinct notes beginning with the text hits, and when expanded exactly the hits and their one-hop neighbours |
| BrainStore.Store.QueryLinkedTo | crates/peko-core/src/notebook.rs:282-292 | The notes linking to a slug, each once, newest first |
| BrainStore.Store.QueryLinkedFrom | crates/peko-core/src/notebook.rs:306-316 | The notes linked from a slug, each once, newest first |
| BrainStore.Store.CountAll | crates/peko-core/src/notebook.rs:350-359 | Note count, the size of the recomputed link set, and the links no note's slug answers |
| Wikilinks.Slugify | crates/peko-core/src/notebook.rs:400-430 | The loop over characters with its dash flag, and the cap, compute the specified slug |
| Wikilinks.SlugShape | crates/peko-core/src/notebook.rs:400-430 | A slug has no leading, trailing or doubled dash and at most 80 characters, and is empty only if the title spells nothing but separators |
| Wikilinks.SlugKeepsLetters | crates/peko-core/src/notebook.rs:400-430 | It keeps the title's letters in order, all of them unless the cap cut it |
| Wikilinks.SlugIdempotent | crates/peko-core/src/notebook.rs:400-430 | A slug is its own slug, for every alphabet whose lower-casing is stable |
| Wikilinks.AsciiIsStable | crates/peko-core/src/notebook.rs:400-412 | ASCII is such an alphabet |
| Wikilinks.SlugIdempotentIff | crates/peko-core/src/notebook.rs:400-430 | For alphabets whose lower-casing gives at most 80 characters, each spelling at most one, all slugs are their own slugs if and only if the alphabet is stable |
| Wikilinks.UnstableSlug | crates/peko-core/src/notebook.rs:400-412 | An example: where a letter lowers to a letter and a mark, a title has a slug with another slug |
| Wikilinks.ParseWikilinks | crates/peko-core/src/notebook.rs:435-471 | The scan ends on every input and finds the specified targets |
| Wikilinks.LinksOfRender | crates/peko-core/src/notebook.rs:435-471 | Parsing a rendering of text that opens nothing and well-formed targets, with or without display names, gives exactly the targets in order |
| Wikilinks.LinkSurvivesIff | crates/peko-core/src/notebook.rs:435-471 | A text written between double brackets comes back as the one target if and only if it is not empty, trimmed, on one line, free of pipes and of bracket pairs (a final bracket counts) |
| JsonScan.ExtractFirstJsonObject | crates/peko-core/src/reflector.rs:216-233 | The scanner's loop over depth, string and escape flags computes the specified extraction, for prefixes of any characters |
| JsonScan.ExtractIsShortest | crates/peko-core/src/reflector.rs:216-233 | Behind an ASCII prefix what is returned is the shortest text from the first brace at which depth outside strings is zero, and nothing is returned only if there is none |
| JsonScan.ExtractFindsObject | crates/peko-core/src/reflector.rs:216-233 | Any object printed by sections 4, 5 and 7 of RFC 8259, with any white space, behind a brace-free ASCII prefix and before any suffix, is returned exactly |
| JsonScan.PrefixIsTransparentIff | crates/peko-core/src/reflector.rs:217-221 | A prefix without an opening brace leaves every object to be found if and only if it is ASCII: the byte index of the brace is used to skip characters |
| Skills.ParseSkill | crates/peko-core/src/skills.rs:43-70 | The parsing loop fills the fields line by line as specified |
| Skills.RoundTripIff | crates/peko-core/src/skills.rs:28-70 | Parsing a printed skill returns it if and only if its values are trimmed, single-line and free of rules, its tags are also non-empty and comma-free, and its steps are trimmed; values may hold colons and steps rules |
| Skills.ParsedIsPrintable | crates/peko-core/src/skills.rs:43-70 | Whatever is parsed from any file is such a skill |
| Skills.SecondRoundTrip | crates/peko-core/src/skills.rs:28-70 | so writing it back and reading it again changes nothing |
| Skills.MarkdownSays | crates/peko-core/src/skills.rs:28-41 | The file has a line for each field of the skill, and ends with its steps |
| SkillStore.ReopensSameIff | crates/peko-core/src/skills.rs:79-97 | For a store whose files were all written, every order of reading the directory gives the same store if and only if no two names share a file name, no name is empty and every skill is printable |
| SkillStore.RunRemembers | crates/peko-core/src/skills.rs:99-180 | After any operations a name has a skill if and only if it was created and not deleted since; it says what it was created with, the steps of the last improvement, the time of the last operation on it, and as many successes and failures as were recorded since, modulo 2^32 |
| SkillStore.SkillsSurviveReopening | crates/peko-core/src/skills.rs:79-173 | After any create, improve, outcome and delete sequence with printable texts and names whose file names are apart, re-opening gives the same store |
| SkillStore.CollisionLosesSkills | crates/peko-core/src/skills.rs:203-217 | Two names with one file name: re-opening differs, and deleting one skill deletes the other's file |
| SkillStore.CollidingNames | crates/peko-core/src/skills.rs:211-217 | Such names exist |
| SkillDirectory.Directory.constructor | crates/peko-core/src/skills.rs:79-97 | Opening reads exactly the parsable markdown files, in the order listed |
| SkillDirectory.Directory.CreateSkill | crates/peko-core/src/skills.rs:99-117 | File first, then memory; a failed write leaves both alone |
| SkillDirectory.Directory.ChangeSkill | crates/peko-core/src/skills.rs:119-141 | Memory first, then the file; a failed write leaves the file behind, an unknown name changes nothing |
| SkillDirectory.Directory.DeleteSkill | crates/peko-core/src/skills.rs:165-173 | Removes the skill and the file of its name |
| CronGrammar.EntryIff | crates/peko-core/src/cron.rs:156-220 | An entry parses to a star, a step, a number, a range or a stepped range if and only if its text is written so and its values are within bounds, whatever order the parser tries them in |
| CronGrammar.FieldIff | crates/peko-core/src/cron.rs:150-221 | A field parses to a list of entries if and only if its texts between commas, trimmed, are written so |
| CronGrammar.FieldTextMeaning | crates/peko-core/src/cron.rs:150-231 | A field whose entries are so written gives a non-empty, strictly increasing list; it is what the text means, and within bounds, if and only if no entry is the step whose first addition leaves 32 bits |
| CronGrammar.PartsRoundTrip | crates/peko-core/src/cron.rs:150-221 | Printing any entries as a comma list and parsing them gives them back, in order |
| CronGrammar.ParseIff | crates/peko-core/src/cron.rs:32-48 | An expression parses if and only if it has five fields and the entries of each are so written |
| CronGrammar.ParseBlames | crates/peko-core/src/cron.rs:32-48 | One that does not parse is refused for its number of fields, or for its first field that is not so written, by name |
| CronGrammar.FieldProblemIsSo | crates/peko-core/src/cron.rs:150-231 | A field is refused for a problem of its first entry that has one |
| CronGrammar.ProblemIsSo | crates/peko-core/src/cron.rs:150-258 | and an entry only for a problem it has: the step, number or end that is said to be none is in it and is none, the range or value said to be out of bounds is |
| Cron.OnlyTopStepWraps | crates/peko-core/src/cron.rs:167-186 | which is one step, 4294967295, and only in fields that begin at one |
| Cron.FieldRoundTrip | crates/peko-core/src/cron.rs:150-231 | Printing any values as a comma list parses back to them, sorted without repeats |
| Cron.ExprRoundTrip | crates/peko-core/src/cron.rs:32-48 | Five printed lists parse back to the same expression |
| CronGrammar.MatchesIffMeans | crates/peko-core/src/cron.rs:63-69 | `matches_time` holds for any five numbers if and only if each of the five fields' texts means its component, or holds the step that leaves 32 bits and the component is zero |
| CronParser.ParseFieldValues | crates/peko-core/src/cron.rs:150-231 | The parsing loop, stopping at the first problem, then sorting and removing repeats, computes the specified field |
| CronParser.ParsePartValues | crates/peko-core/src/cron.rs:156-220 | The branches of one entry, in the order the code tries them, push what the entry means (and zero if its step wraps) or return its problem |
| CronParser.RangeEnds | crates/peko-core/src/cron.rs:233-258 | Range ends or the problem with them |
| CronParser.PushSteps | crates/peko-core/src/cron.rs:178-182 | The step loop in wrapping 32-bit arithmetic ends and pushes the multiples, and zero exactly when it wraps |
| CronParser.PushStepped | crates/peko-core/src/cron.rs:205-209 | Every n-th value of a range, by position, is its multiples counted from the start |
| CronParser.NeverEmpty | crates/peko-core/src/cron.rs:223-228 | The error for a field without values never comes up |
| Pixels.RotateRgba | crates/peko-hal/src/display.rs:181-220 | The nested loops over a zeroed buffer compute the specified rotation for data of any size, short or long |
| Pixels.RotationsAdd | crates/peko-hal/src/display.rs:181-220 | On well-sized buffers rotating by p and then q equals rotating by p + q |
| Pixels.InverseUndoes | crates/peko-hal/src/display.rs:181-220 | so R90 and R270 undo each other and R180 itself |
| Pixels.PixelArrives | crates/peko-hal/src/display.rs:202-213 | Every pixel arrives whole at its one new place |
| Pixels.QuarterIsClockwise | crates/peko-hal/src/display.rs:195-213 | A quarter turn is clockwise: the pixel at (x, y) of a w x h picture goes to (h - 1 - y, x); with `RotationsAdd` this fixes the other turns |
| Pixels.FittingPixelArrives | crates/peko-hal/src/display.rs:195-225 | Data of any size: every pixel that lies whole within it, before and after, arrives |
| Pixels.OnlyFittingPixels | crates/peko-hal/src/display.rs:195-225 | and every byte that is not zero came with such a pixel |
| Rotation.DestIsBijective | crates/peko-hal/src/display.rs:202-208 | and places are a bijection: every place of the output is filled from exactly one pixel |
| Pixels.DimensionsAgree | crates/peko-hal/src/display.rs:139-145 | Output dimensions are those `dimensions` reports |
| Pixels.QuarterTurnsAdd | crates/peko-hal/src/display.rs:73-75 | Quarter turns of any sign are a homomorphism to rotations |
| Pixels.DegreesOfQuarters | crates/peko-hal/src/display.rs:63-71 | Degrees are read as their quarter turns when they are a whole number of them and as none otherwise |
| Pixels.KernelDegreesIff | crates/peko-hal/src/display.rs:161-176 | The guess about the kernel's unit reads a number of degrees, of any sign and size, as those degrees if and only if it is above three, or the number is a whole turn, or it is no quarter and a multiple of four |

## Left out

- Prompt building, memory and skill injection, hooks, stream callbacks and brain choice: none of them
  touches the conversation, the log or the counters that are modelled.
- Saving of screenshots: the URL of a stored image is part of a tool's outcome.
- LLM, tool, speech-to-text and database behaviour: arbitrary functions and flags.
- Session and job identifiers: parameters, assumed new.
- JSON and MessagePack: abstract codecs that decode what they encode.
- Clock readings: integers, also where the database compares their text; 32-bit floats in the drives and the history share: reals without rounding.
- Counters of the agent loop, and the day's token sum: unbounded naturals, without machine overflow.
- BgStore.BgStore.PruneFinished: statements are atomic and SQL writes succeed, here and in the other operations; failed writes are swallowed by the code and would leave memory and table apart.
- BgJobs.RunAgrees: does not claim that terminal states stay terminal, because only cancelling checks.
- Waiting for a job, daily statistics, and a store without a table.
- CallProtocol.EveryStepKeepsCalls: removals of audio by the age-based sweep are excepted; metadata is named after its file, here and in `CallProtocol.AtMostOncePerCall`, which is exactly what safety takes (`CallProtocol.SafeRecordersIff`).
- File removals in the call pipeline succeed; a file that cannot be removed is ignored by the code.
- QueueProtocol.IdleAgainIff: the executor never stops and the channel never closes. A send that fails for that reason leaves `pending` counted, as a dropped submitter does; the queued requests are then lost as well.
- Limiters.Gates.Run: a proposal is charged when it is made; running it later, once approved, passes no gate and is not counted.
- The prompts that drives lead to, proposals and their expiry.
- TelegramLimiter.UserLimiter.Run: promises nothing for a user whose readings go back; `Check` itself is exact for any that are under a minute behind.
- Wikilinks.ParseWikilinks: does not model the stored context of a link, or the time a link was made.
- Wikilinks.SlugIdempotent: Unicode tables are a parameter, so nothing is claimed about particular non-ASCII letters beyond the conditions on the table in it and in `Wikilinks.SlugIdempotentIff`.
- BrainStore.Store.Search: full-text matching and ranking are a parameter; so is the order of time texts.
- JsonScan.ExtractFindsObject: numbers are any text of digits, signs, dots and exponent letters, a superset of section 6 of RFC 8259.
- Skill search, listing and prompt context, `success_rate`, and cron descriptions.
- SkillStore.ReopensSameIff: files the store did not write are not in the directory.
- Reading pixels from the device.
