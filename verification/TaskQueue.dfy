/** The queue's shared status and channel (task_queue.rs). Each method is one section that runs
    without interruption; their interleavings are the runs of QueueProtocol. */
module TaskQueue {
  import opened QueueProtocol
  import opened Wrappers

  class TaskQueue {
    const capacity: nat
    var status: QueueStatus
    var channel: seq<Request>
    var executor: Executor
    var results: seq<Request>
    ghost var announced: set<Request>
    ghost var abandoned: set<Request>
    ghost var sent: seq<Request>

    ghost function Now(): Queue
      reads this
    {
      Queue(capacity, status, announced, abandoned, channel, executor, sent, results)
    }

    constructor (maxQueueSize: nat)
      ensures Now() == New(maxQueueSize)
    {
      capacity := maxQueueSize;
      status := QueueStatus(0, false, 0, None, None);
      channel, executor, results := [], Waiting, [];
      announced, abandoned, sent := {}, {}, [];
    }

    /** `submit`, first section: count the request under the status lock. */
    method SubmitAnnounce(r: Request)
      requires !Known(Now(), r)
      modifies this
      ensures Now() == Next(old(Now()), Announce(r))
    {
      status := status.(pending := status.pending + 1);
      announced := announced + {r};
    }

    /** `submit`, second section: the channel takes the request if it has room. */
    method SubmitSend(r: Request) returns (accepted: bool)
      requires r in announced
      modifies this
      ensures accepted <==> |old(channel)| < capacity
      ensures Now() == if accepted then Next(old(Now()), Send(r)) else old(Now())
    {
      accepted := |channel| < capacity;
      if accepted {
        channel := channel + [r];
        announced := announced - {r};
        sent := sent + [r];
      }
    }

    /** `rx.recv()`. */
    method ExecutorReceive() returns (task: Option<Request>)
      requires executor.Waiting?
      modifies this
      ensures task.Some? <==> |old(channel)| > 0
      ensures task.Some? ==> task.value == old(channel)[0] && Now() == Next(old(Now()), Receive)
      ensures task.None? ==> Now() == old(Now())
    {
      if |channel| == 0 {
        return None;
      }
      task := Some(channel[0]);
      executor := Received(channel[0]);
      channel := channel[1..];
    }

    /** The status update before a task runs. */
    method ExecutorBegin()
      requires executor.Received?
      modifies this
      ensures Now() == Next(old(Now()), Begin)
    {
      var task := executor.request;
      status := status.(pending := if status.pending == 0 then 0 else status.pending - 1);
      status := status.(processing := true);
      status := status.(currentTask := Some(task.input), currentSource := Some(task.source));
      executor := Running(task);
    }

    /** `result_tx.send(..)`. */
    method ExecutorReply()
      requires executor.Running?
      modifies this
      ensures Now() == Next(old(Now()), Reply)
    {
      results := results + [executor.request];
      executor := Replied(executor.request);
    }

    /** The status update after the result is sent. */
    method ExecutorFinish()
      requires executor.Replied?
      modifies this
      ensures Now() == Next(old(Now()), Finish)
    {
      status := status.(processing := false, totalProcessed := status.totalProcessed + 1);
      status := status.(currentTask := None, currentSource := None);
      executor := Waiting;
    }

    method CheckIdle() returns (idle: bool)
      ensures idle == IsIdle(status)
    {
      idle := status.pending == 0 && !status.processing;
    }
  }
}
