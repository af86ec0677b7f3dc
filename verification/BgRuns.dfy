/** What a run of the job store leaves of one job: the last write to it stands, a checkpoint comes back,
    and pruning takes only what is finished and old. */
module BgRuns {
  import opened BgJobs
  import opened Checkpoints
  import opened Text
  import opened Wrappers

  // ---- The last write stands -------------------------------------------------

  /** The operation writes this job: a mark, a checkpoint, the job itself, or a scan that fails it. */
  predicate Writes(s: State, op: Op, id: string) {
    match op
    case OpEnqueue(other, _, _, _) => other == id
    case OpRunning(other, _) => other == id
    case OpDone(other, _, _, _, _, _) => other == id
    case OpFailed(other, _, _) => other == id
    case OpCancelled(other, _) => other == id && id in s.jobs && !s.jobs[id].status.IsTerminal()
    case OpCheckpoint(other, _, _, _) => other == id
    case OpPrune(_) => false
    case OpResume(scan) => Orphaned(s, scan, id)
    case OpReopen(_) => false
  }

  /** Why a scan fails a running row. */
  function FailReason(r: Row, scan: Scan): string {
    if r.checkpointBlob == None then "no checkpoint written before restart"
    else if r.checkpointAt == None || r.checkpointAt.value < scan.cutoff then
      "checkpoint older than " + Decimal(scan.hours) + " hours"
    else "checkpoint decode failed (schema drift?)"
  }

  /** What the job in memory says after the write, field by field. */
  predicate JobSays(s: State, op: Op, id: string, j: Job) {
    match op
    case OpEnqueue(_, task, name, now) =>
      j == Job(task, name, Queued, now, None, None, None, None, None, 0, 0)
    case OpRunning(_, now) => j.status == Running && j.startedAt == Some(now)
    case OpDone(_, result, sessionId, iterations, tokensUsed, now) =>
      && j.status == Done && j.finishedAt == Some(now) && j.result == Some(result) && j.sessionId == sessionId
      && (iterations < TWO_63 ==> j.iterations == iterations) && (tokensUsed < TWO_63 ==> j.tokensUsed == tokensUsed)
    case OpFailed(_, error, now) => j.status == Failed && j.finishedAt == Some(now) && j.error == Some(error)
    case OpCancelled(_, now) => j.status == Cancelled && j.finishedAt == Some(now)
    case OpCheckpoint(_, _, iterations, _) => iterations < TWO_63 ==> j.iterations == iterations
    case OpPrune(_) => true
    case OpResume(scan) =>
      && j.status == Failed && j.finishedAt == Some(scan.at(id))
      && id in s.table && j.error == Some(FailReason(s.table[id], scan))
    case OpReopen(_) => true
  }

  /** And the row, column by column. */
  predicate RowSays(s: State, op: Op, id: string, r: Row) {
    match op
    case OpEnqueue(_, task, name, now) =>
      r == Row(task, name, "queued", now, None, None, None, None, None, 0, 0, None, None)
    case OpRunning(_, now) => r.status == "running" && r.startedAt == Some(now)
    case OpDone(_, result, sessionId, iterations, tokensUsed, now) =>
      && r.status == "done" && r.finishedAt == Some(now) && r.result == Some(result) && r.sessionId == sessionId
      && (iterations < TWO_63 ==> r.iterations == iterations) && (tokensUsed < TWO_63 ==> r.tokensUsed == tokensUsed)
    case OpFailed(_, error, now) => r.status == "failed" && r.finishedAt == Some(now) && r.error == Some(error)
    case OpCancelled(_, now) => r.status == "cancelled" && r.finishedAt == Some(now)
    case OpCheckpoint(_, blob, iterations, now) =>
      r.checkpointBlob == Some(blob) && r.checkpointAt == Some(now) && (iterations < TWO_63 ==> r.iterations == iterations)
    case OpPrune(_) => true
    case OpResume(scan) =>
      && r.status == "failed" && r.finishedAt == Some(scan.at(id))
      && id in s.table && r.error == Some(FailReason(s.table[id], scan))
    case OpReopen(_) => true
  }

  lemma JobWritten(s: State, op: Op, id: string)
    requires Allowed(s, op) && Writes(s, op, id)
    ensures id in Apply(s, op).jobs ==> JobSays(s, op, id, Apply(s, op).jobs[id])
  {
  }

  lemma RowWritten(s: State, op: Op, id: string)
    requires Allowed(s, op) && Writes(s, op, id)
    ensures id in Apply(s, op).table ==> RowSays(s, op, id, Apply(s, op).table[id])
  {
  }

  /** The job as it was, or as it comes back from its row. */
  predicate SameJob(j: Job, k: Job) {
    k == j || k == ThroughTable(j)
  }

  lemma SaidThroughTable(s: State, op: Op, id: string, j: Job, k: Job)
    requires JobSays(s, op, id, j) && SameJob(j, k)
    ensures JobSays(s, op, id, k)
  {
  }

  /** What was known of the job and its row is still there, as far as they are. */
  predicate Stays(s: State, t: State, id: string) {
    && (id in t.table ==> id in s.table && t.table[id] == s.table[id])
    && (id in t.jobs && id in s.jobs ==> SameJob(s.jobs[id], t.jobs[id]))
    && (id in t.jobs ==> id in s.jobs || (id in s.table && t.jobs[id] == RowToJob(s.table[id])))
  }

  lemma UnwrittenStays(s: State, op: Op, id: string)
    requires Agrees(s) && Allowed(s, op) && !Writes(s, op, id)
    ensures Stays(s, Apply(s, op), id)
  {
    assert AgreesOn(s, id);
  }

  /** No operation of the run writes the job. */
  predicate Untouched(s: State, ops: seq<Op>, id: string)
    requires RunAllowed(s, ops)
    decreases |ops|
  {
    |ops| > 0 ==> !Writes(s, ops[0], id) && Untouched(Apply(s, ops[0]), ops[1..], id)
  }

  /** Both layers hold the job as this write left it, as far as they hold it. */
  predicate Stands(was: State, op: Op, t: State, id: string) {
    && (id in t.jobs ==> id in t.table && JobSays(was, op, id, t.jobs[id]))
    && (id in t.table ==> RowSays(was, op, id, t.table[id]))
  }

  lemma SaidOfRow(s: State, op: Op, id: string, r: Row)
    requires Writes(s, op, id) && RowSays(s, op, id, r)
    ensures JobSays(s, op, id, RowToJob(r))
  {
  }

  lemma StandsOn(was: State, write: Op, s: State, op: Op, id: string)
    requires Writes(was, write, id) && Agrees(s) && Allowed(s, op) && !Writes(s, op, id) && Stands(was, write, s, id)
    ensures Stands(was, write, Apply(s, op), id)
  {
    var t := Apply(s, op);
    UnwrittenStays(s, op, id);
    EachOpAgrees(s, op);
    assert AgreesOn(t, id);
    if id in t.jobs {
      if id in s.jobs {
        SaidThroughTable(was, write, id, s.jobs[id], t.jobs[id]);
      } else {
        SaidOfRow(was, write, id, s.table[id]);
      }
    }
  }

  lemma {:induction false} RunStands(was: State, write: Op, s: State, ops: seq<Op>, id: string)
    requires Writes(was, write, id) && Agrees(s) && RunAllowed(s, ops) && Untouched(s, ops, id) && Stands(was, write, s, id)
    ensures Stands(was, write, Run(s, ops), id)
    decreases |ops|
  {
    if |ops| > 0 {
      StandsOn(was, write, s, ops[0], id);
      EachOpAgrees(s, ops[0]);
      RunStands(was, write, Apply(s, ops[0]), ops[1..], id);
    }
  }

  /** After any run, whatever prunes, re-opens and scans were in it, the job and its row say what the
      last write to them said. */
  lemma LastWriteStands(s: State, write: Op, ops: seq<Op>, id: string)
    requires Agrees(s) && Allowed(s, write) && Writes(s, write, id)
    requires RunAllowed(Apply(s, write), ops) && Untouched(Apply(s, write), ops, id)
    ensures Stands(s, write, Run(Apply(s, write), ops), id)
  {
    JobWritten(s, write, id);
    RowWritten(s, write, id);
    EachOpAgrees(s, write);
    assert AgreesOn(Apply(s, write), id);
    RunStands(s, write, Apply(s, write), ops, id);
  }

  /** What a job is: its task, its name and when it came. */
  predicate SameIdentity(s: State, t: State, id: string) {
    && (id in s.jobs && id in t.jobs ==>
          (t.jobs[id].task, t.jobs[id].name, t.jobs[id].createdAt) == (s.jobs[id].task, s.jobs[id].name, s.jobs[id].createdAt))
    && (id in t.table ==>
          && id in s.table
          && (t.table[id].task, t.table[id].name, t.table[id].createdAt)
             == (s.table[id].task, s.table[id].name, s.table[id].createdAt))
  }

  lemma EachOpKeepsIdentity(s: State, op: Op, id: string)
    requires Agrees(s) && Allowed(s, op) && !(op.OpEnqueue? && op.id == id)
    ensures SameIdentity(s, Apply(s, op), id)
  {
    assert AgreesOn(s, id);
  }

  /** No operation but its own enqueueing changes what a job is. */
  lemma {:induction false} RunKeepsIdentity(s: State, ops: seq<Op>, id: string)
    requires Agrees(s) && RunAllowed(s, ops) && forall op <- ops :: !(op.OpEnqueue? && op.id == id)
    ensures SameIdentity(s, Run(s, ops), id)
    decreases |ops|
  {
    if |ops| > 0 {
      var next := Apply(s, ops[0]);
      EachOpKeepsIdentity(s, ops[0], id);
      EachOpAgrees(s, ops[0]);
      RunKeepsIdentity(next, ops[1..], id);
      RunAgrees(next, ops[1..]);
      assert AgreesOn(s, id) && AgreesOn(next, id) && AgreesOn(Run(s, ops), id);
    }
  }

  // ---- A checkpoint comes back -----------------------------------------------

  /** The operation leaves a running job with this checkpoint alone: it is about another job, re-opens
      with it, or scans with a codec that reads the blob and a cutoff no later than the checkpoint. */
  predicate Spares(op: Op, id: string, blob: Bytes, now: int) {
    match op
    case OpEnqueue(other, _, _, _) => other != id
    case OpRunning(other, _) => other != id
    case OpDone(other, _, _, _, _, _) => other != id
    case OpFailed(other, _, _) => other != id
    case OpCancelled(other, _) => other != id
    case OpCheckpoint(other, _, _, _) => other != id
    case OpPrune(_) => true
    case OpResume(scan) => scan.cutoff <= now && scan.codec.decode(blob).Some?
    case OpReopen(ids) => id in ids
  }

  /** The job runs, and its row has the checkpoint. */
  predicate IsRunning(s: State, id: string, blob: Bytes, iterations: nat, now: int) {
    && id in s.jobs && id in s.table
    && s.jobs[id].status == Running && s.table[id].status == "running"
    && s.table[id].checkpointBlob == Some(blob) && s.table[id].checkpointAt == Some(now)
    && (iterations < TWO_63 ==> s.jobs[id].iterations == s.table[id].iterations == iterations)
  }

  lemma SparedRuns(s: State, op: Op, id: string, blob: Bytes, iterations: nat, now: int)
    requires IsRunning(s, id, blob, iterations, now) && Allowed(s, op) && Spares(op, id, blob, now)
    ensures IsRunning(Apply(s, op), id, blob, iterations, now)
  {
  }

  lemma {:induction false} SparedRunRuns(s: State, ops: seq<Op>, id: string, blob: Bytes, iterations: nat, now: int)
    requires IsRunning(s, id, blob, iterations, now) && RunAllowed(s, ops)
    requires forall op <- ops :: Spares(op, id, blob, now)
    ensures IsRunning(Run(s, ops), id, blob, iterations, now)
    decreases |ops|
  {
    if |ops| > 0 {
      SparedRuns(s, ops[0], id, blob, iterations, now);
      SparedRunRuns(Apply(s, ops[0]), ops[1..], id, blob, iterations, now);
    }
  }

  /** A checkpoint of a running job comes back: after any operations on other jobs, prunes, re-opens that
      keep the job and scans that can read it, a scan returns the job with it and leaves it running. */
  lemma CheckpointComesBack(s: State, id: string, blob: Bytes, iterations: nat, now: int, ops: seq<Op>, scan: Scan)
    requires id in s.jobs && id in s.table && s.jobs[id].status == Running && s.table[id].status == "running"
    requires RunAllowed(WriteCheckpoint(s, id, blob, iterations, now), ops)
    requires forall op <- ops :: Spares(op, id, blob, now)
    requires scan.cutoff <= now && scan.codec.decode(blob).Some?
    ensures var t := Run(WriteCheckpoint(s, id, blob, iterations, now), ops);
            && id in Returned(t, scan)
            && Returned(t, scan)[id].1 == scan.codec.decode(blob).value
            && Returned(t, scan)[id].0.status == Running
            && (iterations < TWO_63 ==> Returned(t, scan)[id].0.iterations == iterations)
            && Resumed(t, scan).table[id] == t.table[id] && t.table[id].status == "running"
  {
    SparedRunRuns(WriteCheckpoint(s, id, blob, iterations, now), ops, id, blob, iterations, now);
  }

  /** A running row that a scan cannot resume fails with the reason, in both layers: it has no
      checkpoint, or an old one, or one that cannot be read. */
  lemma ScanFailsIff(s: State, scan: Scan, id: string)
    requires id in s.table && s.table[id].status == "running"
    ensures var r, t := s.table[id], Resumed(s, scan);
            (t.table[id].status == "failed"
             <==> r.checkpointBlob == None || r.checkpointAt == None || r.checkpointAt.value < scan.cutoff
                  || scan.codec.decode(r.checkpointBlob.value) == None)
    ensures var t := Resumed(s, scan);
            t.table[id].status == "failed" ==>
              && t.table[id] == s.table[id].(status := "failed", finishedAt := Some(scan.at(id)),
                                             error := Some(FailReason(s.table[id], scan)))
              && (id in s.jobs ==>
                    t.jobs[id] == s.jobs[id].(status := Failed, finishedAt := Some(scan.at(id)),
                                              error := Some(FailReason(s.table[id], scan))))
  {
  }

  // ---- Pruning ---------------------------------------------------------------

  /** When this write finished the job, if it did. */
  function FinishedBy(op: Op, id: string): Option<int> {
    match op
    case OpDone(_, _, _, _, _, now) => Some(now)
    case OpFailed(_, _, now) => Some(now)
    case OpCancelled(_, now) => Some(now)
    case OpResume(scan) => Some(scan.at(id))
    case _ => None
  }

  /** A job whose last write finished it goes with the first prune whose cutoff is later than that, and
      from both layers; one that is queued or running stays. */
  lemma PrunedIff(s: State, write: Op, ops: seq<Op>, id: string, cutoff: int)
    requires Agrees(s) && Allowed(s, write) && Writes(s, write, id) && !write.OpCheckpoint?
    requires RunAllowed(Apply(s, write), ops) && Untouched(Apply(s, write), ops, id)
    ensures var t, at := Run(Apply(s, write), ops), FinishedBy(write, id);
            && (id in t.table ==> (id in Prune(t, cutoff).table <==> !(at.Some? && at.value < cutoff)))
            && (id in t.jobs ==> (id in Prune(t, cutoff).jobs <==> !(at.Some? && at.value < cutoff)))
  {
    LastWriteStands(s, write, ops, id);
  }
}
