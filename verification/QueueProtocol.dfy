/** The task queue as a state machine over its atomic sections (task_queue.rs): many submitters, a
    bounded channel, one executor, and a status record behind its own lock. */
module QueueProtocol {
  import opened Wrappers

  datatype Request = Request(ticket: nat, input: string, source: string)

  datatype QueueStatus = QueueStatus(
    pending: nat,
    processing: bool,
    totalProcessed: nat,
    currentTask: Option<string>,
    currentSource: Option<string>)

  const FRESH_STATUS := QueueStatus(0, false, 0, None, None)

  /** Where the executor stands between its lock sections. */
  datatype Executor = Waiting | Received(request: Request) | Running(request: Request) | Replied(request: Request)

  /** `announced`: counted as pending, not yet in the channel. `abandoned`: counted, then the
      submitter's future was dropped while it waited for room. `sent` and `results` are histories. */
  datatype Queue = Queue(
    capacity: nat,
    status: QueueStatus,
    announced: set<Request>,
    abandoned: set<Request>,
    channel: seq<Request>,
    executor: Executor,
    sent: seq<Request>,
    results: seq<Request>)

  function New(capacity: nat): Queue {
    Queue(capacity, FRESH_STATUS, {}, {}, [], Waiting, [], [])
  }

  datatype Step =
    | Announce(request: Request)
    | Send(request: Request)
    | Abandon(request: Request)
    | Receive
    | Begin
    | Reply
    | Finish

  /** Announced at any time, by anyone. */
  predicate Known(q: Queue, r: Request) {
    r in q.announced || r in q.abandoned || r in q.sent
  }

  predicate Enabled(q: Queue, step: Step) {
    match step
    case Announce(r) => !Known(q, r)
    case Send(r) => r in q.announced && |q.channel| < q.capacity
    case Abandon(r) => r in q.announced
    case Receive => q.executor.Waiting? && |q.channel| > 0
    case Begin => q.executor.Received?
    case Reply => q.executor.Running?
    case Finish => q.executor.Replied?
  }

  function SaturatingDecrement(n: nat): nat { if n == 0 then 0 else n - 1 }

  function Next(q: Queue, step: Step): Queue
    requires Enabled(q, step)
  {
    match step
    case Announce(r) =>
      q.(status := q.status.(pending := q.status.pending + 1), announced := q.announced + {r})
    case Send(r) =>
      q.(announced := q.announced - {r}, channel := q.channel + [r], sent := q.sent + [r])
    case Abandon(r) =>
      q.(announced := q.announced - {r}, abandoned := q.abandoned + {r})
    case Receive =>
      q.(channel := q.channel[1..], executor := Received(q.channel[0]))
    case Begin =>
      var r := q.executor.request;
      q.(executor := Running(r),
         status := q.status.(pending := SaturatingDecrement(q.status.pending), processing := true,
                             currentTask := Some(r.input), currentSource := Some(r.source)))
    case Reply =>
      q.(executor := Replied(q.executor.request), results := q.results + [q.executor.request])
    case Finish =>
      q.(executor := Waiting,
         status := q.status.(processing := false, totalProcessed := q.status.totalProcessed + 1,
                             currentTask := None, currentSource := None))
  }

  predicate IsIdle(status: QueueStatus) { status.pending == 0 && !status.processing }

  predicate Runs(q: Queue, steps: seq<Step>)
    decreases |steps|
  {
    |steps| == 0 || (Enabled(q, steps[0]) && Runs(Next(q, steps[0]), steps[1..]))
  }

  function After(q: Queue, steps: seq<Step>): Queue
    requires Runs(q, steps)
    decreases |steps|
  {
    if |steps| == 0 then q else After(Next(q, steps[0]), steps[1..])
  }

  // ---- The invariant ---------------------------------------------------------

  /** Received but not begun. */
  function InHand(q: Queue): nat { if q.executor.Received? then 1 else 0 }

  /** Sent, and still without a result. */
  function Unanswered(q: Queue): seq<Request> {
    (if q.executor.Received? || q.executor.Running? then [q.executor.request] else []) + q.channel
  }

  predicate Counts(q: Queue) {
    q.status.pending == |q.announced| + |q.abandoned| + |q.channel| + InHand(q)
  }

  predicate InOrder(q: Queue) {
    && q.sent == q.results + Unanswered(q)
    && (forall i, j :: 0 <= i < j < |q.sent| ==> q.sent[i] != q.sent[j])
    && (q.executor.Replied? ==> |q.results| > 0 && q.results[|q.results| - 1] == q.executor.request)
  }

  /** What the status says about the executor, and where an announced request is. */
  predicate Booked(q: Queue) {
    && (q.status.processing <==> q.executor.Running? || q.executor.Replied?)
    && q.status.totalProcessed + (if q.executor.Replied? then 1 else 0) == |q.results|
    && |q.channel| <= q.capacity
    && (forall r :: r in q.announced ==> r !in q.abandoned && r !in q.sent)
    && (forall r :: r in q.abandoned ==> r !in q.sent)
    && q.status.currentTask == (if q.status.processing then Some(q.executor.request.input) else None)
    && q.status.currentSource == (if q.status.processing then Some(q.executor.request.source) else None)
  }

  predicate Invariant(q: Queue) {
    Counts(q) && InOrder(q) && Booked(q)
  }

  lemma StepCounts(q: Queue, step: Step)
    requires Invariant(q) && Enabled(q, step)
    ensures Counts(Next(q, step)) && (step.Begin? ==> q.status.pending > 0)
  {
    var n := Next(q, step);
    match step {
      case Announce(r) => assert n.announced - {r} == q.announced;
      case Abandon(r) => assert n.abandoned - {r} == q.abandoned;
      case _ =>
    }
  }

  lemma StepInOrder(q: Queue, step: Step)
    requires Invariant(q) && Enabled(q, step)
    ensures InOrder(Next(q, step))
    ensures q.results <= Next(q, step).results && q.sent <= Next(q, step).sent
  {
    var n := Next(q, step);
    match step {
      case Send(r) => assert n.sent == n.results + Unanswered(n);
      case Receive => assert Unanswered(n) == Unanswered(q);
      case Begin => assert Unanswered(n) == Unanswered(q);
      case Reply => assert Unanswered(q) == [q.executor.request] + Unanswered(n);
      case Finish => assert Unanswered(n) == Unanswered(q);
      case _ =>
    }
  }

  lemma StepBooked(q: Queue, step: Step)
    requires Invariant(q) && Enabled(q, step)
    ensures Booked(Next(q, step))
  {
  }

  lemma EachStepInvariant(q: Queue, step: Step)
    requires Invariant(q) && Enabled(q, step)
    ensures Invariant(Next(q, step))
    ensures step.Begin? ==> q.status.pending > 0
    ensures q.results <= Next(q, step).results && q.sent <= Next(q, step).sent
  {
    StepCounts(q, step);
    StepInOrder(q, step);
    StepBooked(q, step);
  }

  lemma {:induction false} RunInvariant(q: Queue, steps: seq<Step>)
    requires Invariant(q) && Runs(q, steps)
    ensures Invariant(After(q, steps))
    decreases |steps|
  {
    if |steps| > 0 {
      EachStepInvariant(q, steps[0]);
      RunInvariant(Next(q, steps[0]), steps[1..]);
    }
  }

  // ---- What every interleaving guarantees ------------------------------------

  predicate Reachable(capacity: nat, steps: seq<Step>) {
    Runs(New(capacity), steps)
  }

  /** `pending` is exactly the announced, abandoned, queued and received-but-not-begun requests, and
      beginning one never meets a zero. */
  lemma PendingIsExact(capacity: nat, steps: seq<Step>)
    requires Reachable(capacity, steps)
    ensures var q := After(New(capacity), steps);
            && q.status.pending == |q.announced| + |q.abandoned| + |q.channel| + InHand(q)
            && (Enabled(q, Begin) ==> Next(q, Begin).status.pending == q.status.pending - 1)
  {
    RunInvariant(New(capacity), steps);
  }

  /** The requests sent, in the order the interleaving sent them. */
  function Sends(steps: seq<Step>): seq<Request> {
    if |steps| == 0 then []
    else (match steps[0] case Send(r) => [r] case _ => []) + Sends(steps[1..])
  }

  lemma {:induction false} SentIsSends(q: Queue, steps: seq<Step>)
    requires Runs(q, steps)
    ensures After(q, steps).sent == q.sent + Sends(steps)
    decreases |steps|
  {
    if |steps| > 0 {
      SentIsSends(Next(q, steps[0]), steps[1..]);
    }
  }

  lemma AnsweredInOrder(q: Queue)
    requires InOrder(q)
    ensures q.results <= q.sent && |q.sent| == |q.results| + |Unanswered(q)|
    ensures forall i, j :: 0 <= i < j < |q.results| ==> q.results[i] != q.results[j]
  {
    assert forall i :: 0 <= i < |q.results| ==> q.results[i] == q.sent[i];
  }

  /** Results come out in the order requests were sent, no request twice. */
  lemma FirstInFirstOut(capacity: nat, steps: seq<Step>)
    requires Reachable(capacity, steps)
    ensures var q := After(New(capacity), steps);
            && q.results <= Sends(steps)
            && |Sends(steps)| == |q.results| + |Unanswered(q)|
            && (forall i, j :: 0 <= i < j < |q.results| ==> q.results[i] != q.results[j])
  {
    RunInvariant(New(capacity), steps);
    SentIsSends(New(capacity), steps);
    var q := After(New(capacity), steps);
    assert New(capacity).sent + Sends(steps) == Sends(steps);
    AnsweredInOrder(q);
  }

  lemma IdleMeans(q: Queue)
    requires Invariant(q)
    ensures IsIdle(q.status) <==> q.announced == {} && q.abandoned == {} && q.channel == [] && q.executor.Waiting?
    ensures IsIdle(q.status) ==> forall r :: Known(q, r) ==> r in q.results
  {
    if IsIdle(q.status) {
      assert q.sent == q.results;
    }
  }

  /** `is_idle` holds exactly when nothing is announced, abandoned, queued or executing; then every
      request ever announced has had its result sent. */
  lemma IdleIsExact(capacity: nat, steps: seq<Step>)
    requires Reachable(capacity, steps)
    ensures var q := After(New(capacity), steps);
            && (IsIdle(q.status) <==> q.announced == {} && q.abandoned == {} && q.channel == [] && q.executor.Waiting?)
            && (IsIdle(q.status) ==> forall r :: Known(q, r) ==> r in q.results)
  {
    RunInvariant(New(capacity), steps);
    IdleMeans(After(New(capacity), steps));
  }

  /** Steps of the executor left until nothing sent is unanswered. */
  function Work(q: Queue): nat {
    4 * |q.channel|
    + (match q.executor case Waiting => 0 case Received(_) => 3 case Running(_) => 2 case Replied(_) => 1)
  }

  function ExecutorStep(q: Queue): Step {
    match q.executor
    case Waiting => Receive
    case Received(_) => Begin
    case Running(_) => Reply
    case Replied(_) => Finish
  }

  /** The executor is never stuck: left alone it answers everything that was sent, in exactly
      `Work` steps. */
  lemma {:induction false} ExecutorDrains(q: Queue) returns (steps: seq<Step>)
    requires Invariant(q)
    ensures Runs(q, steps) && |steps| == Work(q)
    ensures After(q, steps).results == q.sent && Work(After(q, steps)) == 0
    ensures var t := After(q, steps);
            t.announced == q.announced && t.abandoned == q.abandoned && t.capacity == q.capacity
    decreases Work(q)
  {
    if Work(q) == 0 {
      steps := [];
    } else {
      var step := ExecutorStep(q);
      EachStepInvariant(q, step);
      var rest := ExecutorDrains(Next(q, step));
      steps := [step] + rest;
    }
  }

  // ---- When the queue can be idle again ----------------------------------------

  lemma {:induction false} RunsOn(q: Queue, a: seq<Step>, b: seq<Step>)
    requires Runs(q, a) && Runs(After(q, a), b)
    ensures Runs(q, a + b) && After(q, a + b) == After(After(q, a), b)
    decreases |a|
  {
    if |a| == 0 {
      assert a + b == b;
    } else {
      assert (a + b)[1..] == a[1..] + b;
      RunsOn(Next(q, a[0]), a[1..], b);
    }
  }

  /** Some continuation, whatever submitters and executor do, ends idle. */
  ghost predicate CanBecomeIdle(q: Queue) {
    exists steps :: Runs(q, steps) && IsIdle(After(q, steps).status)
  }

  /** A submitter that is dropped while it waits for room is counted for ever. */
  lemma {:induction false} AbandonedNeverIdle(q: Queue, steps: seq<Step>)
    requires Invariant(q) && Runs(q, steps) && q.abandoned != {}
    ensures !IsIdle(After(q, steps).status)
    decreases |steps|
  {
    if |steps| == 0 {
      IdleMeans(q);
    } else {
      EachStepInvariant(q, steps[0]);
      AbandonedNeverIdle(Next(q, steps[0]), steps[1..]);
    }
  }

  /** With nobody abandoned, the executor drains the channel, one waiting submitter gets its room,
      and so on until nobody waits. */
  lemma {:induction false} BecomesIdle(q: Queue) returns (steps: seq<Step>)
    requires Invariant(q) && q.capacity > 0 && q.abandoned == {}
    ensures Runs(q, steps) && IsIdle(After(q, steps).status)
    decreases |q.announced|
  {
    steps := ExecutorDrains(q);
    RunInvariant(q, steps);
    var t := After(q, steps);
    if t.announced == {} {
      IdleMeans(t);
    } else {
      var r :| r in t.announced;
      EachStepInvariant(t, Send(r));
      var more := BecomesIdle(Next(t, Send(r)));
      assert ([Send(r)] + more)[1..] == more;
      RunsOn(q, steps, [Send(r)] + more);
      steps := steps + ([Send(r)] + more);
    }
  }

  /** A queue can become idle again exactly when no submitter was dropped. A channel takes no
      capacity of zero. */
  lemma IdleAgainIff(q: Queue)
    requires Invariant(q) && q.capacity > 0
    ensures CanBecomeIdle(q) <==> q.abandoned == {}
  {
    if q.abandoned == {} {
      var steps := BecomesIdle(q);
    } else {
      forall steps | Runs(q, steps)
        ensures !IsIdle(After(q, steps).status)
      {
        AbandonedNeverIdle(q, steps);
      }
    }
  }

  lemma OneStepOn(q: Queue, steps: seq<Step>, step: Step)
    requires Runs(q, steps) && Enabled(After(q, steps), step)
    ensures Runs(q, steps + [step]) && After(q, steps + [step]) == Next(After(q, steps), step)
  {
    assert [step][1..] == [];
    RunsOn(q, steps, [step]);
  }

  /** The first request fills a channel of one, the second one's submitter is dropped while it waits
      for room, and the first is answered. */
  function DroppedRun(first: Request, second: Request): seq<Step> {
    [Announce(first), Send(first), Announce(second), Abandon(second), Receive, Begin, Reply, Finish]
  }

  /** What the two submitters leave behind. */
  function TwoSubmitted(first: Request, second: Request): Queue {
    Queue(1, FRESH_STATUS.(pending := 2), {}, {second}, [first], Waiting, [first], [])
  }

  lemma SubmitterDropped(first: Request, second: Request)
    requires first != second
    ensures var steps := [Announce(first), Send(first), Announce(second), Abandon(second)];
            Reachable(1, steps) && After(New(1), steps) == TwoSubmitted(first, second)
  {
    OneStepOn(New(1), [], Announce(first));
    OneStepOn(New(1), [] + [Announce(first)], Send(first));
    OneStepOn(New(1), [] + [Announce(first)] + [Send(first)], Announce(second));
    OneStepOn(New(1), [] + [Announce(first)] + [Send(first)] + [Announce(second)], Abandon(second));
    assert [] + [Announce(first)] + [Send(first)] + [Announce(second)] + [Abandon(second)]
        == [Announce(first), Send(first), Announce(second), Abandon(second)];
  }

  /** The executor answers the one request in the channel. */
  lemma AnsweredAlone(q: Queue)
    requires |q.channel| == 1 && q.executor.Waiting? && q.status.pending > 0
    ensures var steps := [Receive, Begin, Reply, Finish];
            && Runs(q, steps)
            && After(q, steps) == q.(
                 channel := [], results := q.results + q.channel,
                 status := QueueStatus(q.status.pending - 1, false, q.status.totalProcessed + 1, None, None))
  {
    OneStepOn(q, [], Receive);
    OneStepOn(q, [] + [Receive], Begin);
    OneStepOn(q, [] + [Receive] + [Begin], Reply);
    OneStepOn(q, [] + [Receive] + [Begin] + [Reply], Finish);
    assert [] + [Receive] + [Begin] + [Reply] + [Finish] == [Receive, Begin, Reply, Finish];
  }

  /** After that run nothing is queued or executing, yet one is pending and stays so in every
      continuation. */
  lemma DroppedSubmitterSticks(first: Request, second: Request)
    requires first != second
    ensures Reachable(1, DroppedRun(first, second))
    ensures var q := After(New(1), DroppedRun(first, second));
            && q.results == [first] && q.channel == [] && q.executor.Waiting? && q.announced == {}
            && q.status.pending == 1
            && !CanBecomeIdle(q)
  {
    var submits, answers := [Announce(first), Send(first), Announce(second), Abandon(second)], [Receive, Begin, Reply, Finish];
    SubmitterDropped(first, second);
    AnsweredAlone(TwoSubmitted(first, second));
    assert DroppedRun(first, second) == submits + answers;
    RunsOn(New(1), submits, answers);
    RunInvariant(New(1), submits + answers);
    IdleAgainIff(After(New(1), submits + answers));
  }
}
