/** The background job store as a value: an in-memory map over a table (background.rs). */
module BgJobs {
  import opened Checkpoints
  import opened Text
  import opened Wrappers

  const LOAD_LIMIT: nat := 500

  datatype Status = Queued | Running | Done | Failed | Cancelled {
    predicate IsTerminal() { Done? || Failed? || Cancelled? }

    function AsStr(): string {
      match this
      case Queued => "queued"
      case Running => "running"
      case Done => "done"
      case Failed => "failed"
      case Cancelled => "cancelled"
    }
  }

  /** `BgStatus::parse(..).unwrap_or(Failed)`. */
  function ParseStatus(s: string): Status {
    if s == "queued" then Queued
    else if s == "running" then Running
    else if s == "done" then Done
    else if s == "cancelled" then Cancelled
    else Failed
  }

  /** Instants are integers; RFC 3339 text keeps them exactly. */
  datatype Job = Job(
    task: string,
    name: Option<string>,
    status: Status,
    createdAt: int,
    startedAt: Option<int>,
    finishedAt: Option<int>,
    result: Option<string>,
    error: Option<string>,
    sessionId: Option<string>,
    iterations: nat,
    tokensUsed: nat)

  /** A row of `bg_jobs`; the counters are 64-bit signed. */
  datatype Row = Row(
    task: string,
    name: Option<string>,
    status: string,
    createdAt: int,
    startedAt: Option<int>,
    finishedAt: Option<int>,
    result: Option<string>,
    error: Option<string>,
    sessionId: Option<string>,
    iterations: I64,
    tokensUsed: I64,
    checkpointBlob: Option<Bytes>,
    checkpointAt: Option<int>)

  /** `n as i64` for a 64-bit unsigned `n`. */
  function ToI64(n: nat): I64 {
    var m := n % TWO_64;
    if m < TWO_63 then m else m - TWO_64
  }

  /** `v.max(0) as u64`. */
  function FromI64(v: I64): nat { if v < 0 then 0 else v }

  function RowToJob(r: Row): Job {
    Job(r.task, r.name, ParseStatus(r.status), r.createdAt, r.startedAt, r.finishedAt, r.result, r.error,
        r.sessionId, FromI64(r.iterations), FromI64(r.tokensUsed))
  }

  /** A job as it survives the table: counters go through the signed column. */
  function ThroughTable(j: Job): Job {
    j.(iterations := FromI64(ToI64(j.iterations)), tokensUsed := FromI64(ToI64(j.tokensUsed)))
  }

  /** For 64-bit counters the table is exact precisely below 2^63. */
  lemma ThroughTableExact(j: Job)
    requires j.iterations < TWO_64 && j.tokensUsed < TWO_64
    ensures ThroughTable(j) == j <==> j.iterations < TWO_63 && j.tokensUsed < TWO_63
  {
  }

  datatype State = State(jobs: map<string, Job>, table: map<string, Row>)

  function OnJob(s: State, id: string, change: Job -> Job): State {
    if id in s.jobs then s.(jobs := s.jobs[id := change(s.jobs[id])]) else s
  }

  /** `UPDATE bg_jobs .. WHERE id = ..`. */
  function OnRow(s: State, id: string, change: Row -> Row): State {
    if id in s.table then s.(table := s.table[id := change(s.table[id])]) else s
  }

  function Enqueue(s: State, id: string, task: string, name: Option<string>, now: int): State {
    State(s.jobs[id := Job(task, name, Queued, now, None, None, None, None, None, 0, 0)],
          s.table[id := Row(task, name, "queued", now, None, None, None, None, None, 0, 0, None, None)])
  }

  function MarkRunning(s: State, id: string, now: int): State {
    OnRow(OnJob(s, id, (j: Job) => j.(status := Running, startedAt := Some(now))),
          id, (r: Row) => r.(status := "running", startedAt := Some(now)))
  }

  function MarkDone(s: State, id: string, result: string, sessionId: Option<string>, iterations: nat, tokensUsed: nat, now: int): State {
    OnRow(OnJob(s, id, (j: Job) => j.(status := Done, finishedAt := Some(now), result := Some(result),
                                      sessionId := sessionId, iterations := iterations, tokensUsed := tokensUsed)),
          id, (r: Row) => r.(status := "done", finishedAt := Some(now), result := Some(result), sessionId := sessionId,
                             iterations := ToI64(iterations), tokensUsed := ToI64(tokensUsed)))
  }

  function FailJob(j: Job, error: string, now: int): Job {
    j.(status := Failed, finishedAt := Some(now), error := Some(error))
  }

  function FailRow(r: Row, error: string, now: int): Row {
    r.(status := "failed", finishedAt := Some(now), error := Some(error))
  }

  function MarkFailed(s: State, id: string, error: string, now: int): State {
    OnRow(OnJob(s, id, (j: Job) => FailJob(j, error, now)), id, (r: Row) => FailRow(r, error, now))
  }

  /** Only this mark looks at the status first. */
  function MarkCancelled(s: State, id: string, now: int): State {
    if id !in s.jobs || s.jobs[id].status.IsTerminal() then s
    else OnRow(OnJob(s, id, (j: Job) => j.(status := Cancelled, finishedAt := Some(now))),
               id, (r: Row) => r.(status := "cancelled", finishedAt := Some(now)))
  }

  function WriteCheckpoint(s: State, id: string, blob: Bytes, iterations: nat, now: int): State {
    OnRow(OnJob(s, id, (j: Job) => j.(iterations := iterations)),
          id, (r: Row) => r.(checkpointBlob := Some(blob), checkpointAt := Some(now), iterations := ToI64(iterations)))
  }

  // ---- Pruning ---------------------------------------------------------------

  predicate OldJob(j: Job, cutoff: int) {
    j.status.IsTerminal() && j.finishedAt.Some? && j.finishedAt.value < cutoff
  }

  predicate OldRow(r: Row, cutoff: int) {
    (r.status == "done" || r.status == "failed" || r.status == "cancelled")
    && r.finishedAt.Some? && r.finishedAt.value < cutoff
  }

  function Prune(s: State, cutoff: int): State {
    State(map id | id in s.jobs && !OldJob(s.jobs[id], cutoff) :: s.jobs[id],
          map id | id in s.table && !OldRow(s.table[id], cutoff) :: s.table[id])
  }

  // ---- The resume scan -------------------------------------------------------

  datatype Verdict = Fresh(checkpoint: Checkpoint) | Orphan(reason: string)

  function Judge(r: Row, cutoff: int, hours: nat, codec: Codec): Verdict {
    if r.checkpointBlob.None? then Orphan("no checkpoint written before restart")
    else if r.checkpointAt.None? || r.checkpointAt.value < cutoff then
      Orphan("checkpoint older than " + Decimal(hours) + " hours")
    else
      match codec.decode(r.checkpointBlob.value)
      case Some(c) => Fresh(c)
      case None => Orphan("checkpoint decode failed (schema drift?)")
  }

  predicate IsOrphan(r: Row, cutoff: int, hours: nat, codec: Codec) {
    r.status == "running" && Judge(r, cutoff, hours, codec).Orphan?
  }

  predicate IsFresh(r: Row, cutoff: int, hours: nat, codec: Codec) {
    r.status == "running" && Judge(r, cutoff, hours, codec).Fresh?
  }

  /** What one scan works with: the cutoff, the age in hours for the message, and the clock when
      each orphan is marked. */
  datatype Scan = Scan(cutoff: int, hours: nat, at: string -> int, codec: Codec)

  function Reason(r: Row, scan: Scan): string {
    match Judge(r, scan.cutoff, scan.hours, scan.codec) case Orphan(reason) => reason case Fresh(_) => ""
  }

  predicate Orphaned(s: State, scan: Scan, id: string) {
    id in s.table && IsOrphan(s.table[id], scan.cutoff, scan.hours, scan.codec)
  }

  predicate Resumable(s: State, scan: Scan, id: string) {
    id in s.table && IsFresh(s.table[id], scan.cutoff, scan.hours, scan.codec) && id in s.jobs
  }

  function Resumed(s: State, scan: Scan): State {
    State(map id | id in s.jobs ::
            if Orphaned(s, scan, id) then FailJob(s.jobs[id], Reason(s.table[id], scan), scan.at(id)) else s.jobs[id],
          map id | id in s.table ::
            if Orphaned(s, scan, id) then FailRow(s.table[id], Reason(s.table[id], scan), scan.at(id)) else s.table[id])
  }

  /** The jobs a scan hands back, with their checkpoints. */
  function Returned(s: State, scan: Scan): map<string, (Job, Checkpoint)> {
    map id | id in s.table && Resumable(s, scan, id) ::
      (s.jobs[id], Judge(s.table[id], scan.cutoff, scan.hours, scan.codec).checkpoint)
  }

  // ---- Closing and opening ---------------------------------------------------

  /** The rows `ORDER BY created_at DESC LIMIT 500` may return. */
  predicate Newest(table: map<string, Row>, ids: set<string>) {
    && ids <= table.Keys
    && |ids| == (if |table| <= LOAD_LIMIT then |table| else LOAD_LIMIT)
    && forall kept, left :: kept in ids && left in table && left !in ids ==> table[left].createdAt <= table[kept].createdAt
  }

  function Reopened(s: State, ids: set<string>): State
    requires ids <= s.table.Keys
  {
    State(map id | id in ids :: RowToJob(s.table[id]), s.table)
  }

  // ---- Runs ------------------------------------------------------------------

  datatype Op =
    | OpEnqueue(id: string, task: string, name: Option<string>, now: int)
    | OpRunning(id: string, now: int)
    | OpDone(id: string, result: string, sessionId: Option<string>, iterations: nat, tokensUsed: nat, now: int)
    | OpFailed(id: string, error: string, now: int)
    | OpCancelled(id: string, now: int)
    | OpCheckpoint(id: string, blob: Bytes, iterations: nat, now: int)
    | OpPrune(cutoff: int)
    | OpResume(scan: Scan)
    | OpReopen(ids: set<string>)

  /** A new job's id is fresh, and a reopen loads what the query may return. */
  predicate Allowed(s: State, op: Op) {
    match op
    case OpEnqueue(id, _, _, _) => id !in s.table && id !in s.jobs
    case OpReopen(ids) => Newest(s.table, ids)
    case _ => true
  }

  function Apply(s: State, op: Op): State
    requires Allowed(s, op)
  {
    match op
    case OpEnqueue(id, task, name, now) => Enqueue(s, id, task, name, now)
    case OpRunning(id, now) => MarkRunning(s, id, now)
    case OpDone(id, result, sessionId, iterations, tokensUsed, now) => MarkDone(s, id, result, sessionId, iterations, tokensUsed, now)
    case OpFailed(id, error, now) => MarkFailed(s, id, error, now)
    case OpCancelled(id, now) => MarkCancelled(s, id, now)
    case OpCheckpoint(id, blob, iterations, now) => WriteCheckpoint(s, id, blob, iterations, now)
    case OpPrune(cutoff) => Prune(s, cutoff)
    case OpResume(scan) => Resumed(s, scan)
    case OpReopen(ids) => Reopened(s, ids)
  }

  predicate RunAllowed(s: State, ops: seq<Op>)
    decreases |ops|
  {
    |ops| == 0 || (Allowed(s, ops[0]) && RunAllowed(Apply(s, ops[0]), ops[1..]))
  }

  function Run(s: State, ops: seq<Op>): State
    requires RunAllowed(s, ops)
    decreases |ops|
  {
    if |ops| == 0 then s else Run(Apply(s, ops[0]), ops[1..])
  }

  /** Memory agrees with the disk row for this id. */
  predicate AgreesOn(s: State, id: string) {
    id in s.jobs ==> id in s.table && RowToJob(s.table[id]) == ThroughTable(s.jobs[id])
  }

  ghost predicate Agrees(s: State) {
    forall id :: AgreesOn(s, id)
  }

  /** Memory holds every row. */
  predicate Complete(s: State) {
    s.jobs.Keys == s.table.Keys
  }

  /** Pruning looks at the job in memory and at the row on disk, and decides alike. */
  lemma OldAlike(r: Row, j: Job, cutoff: int)
    requires RowToJob(r) == ThroughTable(j)
    ensures OldRow(r, cutoff) ==> OldJob(j, cutoff)
    ensures (r.status == j.status.AsStr()) && OldJob(j, cutoff) ==> OldRow(r, cutoff)
  {
    assert ParseStatus(r.status) == j.status && r.finishedAt == j.finishedAt;
  }

  lemma CounterRoundTrip(v: I64)
    ensures FromI64(ToI64(FromI64(v))) == FromI64(v)
  {
  }

  /** Every operation, a reopen included, keeps memory and disk in step. */
  lemma EachOpAgrees(s: State, op: Op)
    requires Agrees(s) && Allowed(s, op)
    ensures Agrees(Apply(s, op))
  {
    var t := Apply(s, op);
    forall id
      ensures AgreesOn(t, id)
    {
      assert AgreesOn(s, id);
      match op {
        case OpPrune(cutoff) =>
          if id in s.jobs { OldAlike(s.table[id], s.jobs[id], cutoff); }
        case OpReopen(ids) =>
          if id in ids {
            CounterRoundTrip(s.table[id].iterations);
            CounterRoundTrip(s.table[id].tokensUsed);
          }
        case OpEnqueue(_, _, _, _) =>
        case OpRunning(_, _) =>
        case OpDone(_, _, _, _, _, _) =>
        case OpFailed(_, _, _) =>
        case OpCancelled(_, _) =>
        case OpCheckpoint(_, _, _, _) =>
        case OpResume(_) =>
      }
    }
  }

  lemma {:induction false} RunAgrees(s: State, ops: seq<Op>)
    requires Agrees(s) && RunAllowed(s, ops)
    ensures Agrees(Run(s, ops))
    decreases |ops|
  {
    if |ops| > 0 {
      EachOpAgrees(s, ops[0]);
      RunAgrees(Apply(s, ops[0]), ops[1..]);
    }
  }

  // ---- Re-opening restores memory --------------------------------------------

  predicate KnownStatus(status: string) {
    status == "queued" || status == "running" || status == "done" || status == "failed" || status == "cancelled"
  }

  /** Memory mirrors the whole table. */
  ghost predicate Synced(s: State) {
    Agrees(s) && Complete(s) && forall id :: id in s.table ==> KnownStatus(s.table[id].status)
  }

  lemma PruneSynced(s: State, cutoff: int)
    requires Synced(s)
    ensures Complete(Prune(s, cutoff))
  {
    forall id | id in s.table
      ensures OldRow(s.table[id], cutoff) <==> OldJob(s.jobs[id], cutoff)
    {
      assert id in s.jobs && AgreesOn(s, id);
      OldAlike(s.table[id], s.jobs[id], cutoff);
    }
  }

  lemma {:induction false} SubsetOfSameSize<T>(a: set<T>, b: set<T>)
    requires a <= b && |a| == |b|
    ensures a == b
  {
    if a != b {
      var x :| x in b && x !in a;
      SmallerSubset(a, b - {x});
    }
  }

  lemma {:induction false} SmallerSubset<T>(a: set<T>, b: set<T>)
    requires a <= b
    ensures |a| <= |b|
  {
    if x :| x in a {
      SmallerSubset(a - {x}, b - {x});
    }
  }

  lemma SmallTableLoadsAll(table: map<string, Row>, ids: set<string>)
    requires Newest(table, ids) && |table| <= LOAD_LIMIT
    ensures ids == table.Keys
  {
    SubsetOfSameSize(ids, table.Keys);
  }

  /** No reopen in the run finds more rows than the query returns. */
  predicate SmallReopens(s: State, ops: seq<Op>)
    requires RunAllowed(s, ops)
    decreases |ops|
  {
    |ops| == 0
    || ((ops[0].OpReopen? ==> |s.table| <= LOAD_LIMIT) && SmallReopens(Apply(s, ops[0]), ops[1..]))
  }

  lemma EachOpComplete(s: State, op: Op)
    requires Synced(s) && Allowed(s, op)
    requires op.OpReopen? ==> |s.table| <= LOAD_LIMIT
    ensures Complete(Apply(s, op))
  {
    match op {
      case OpPrune(cutoff) => PruneSynced(s, cutoff);
      case OpReopen(ids) => SmallTableLoadsAll(s.table, ids);
      case _ =>
    }
  }

  /** No operation writes a status other than the five. */
  lemma EachOpKnown(s: State, op: Op, id: string)
    requires Synced(s) && Allowed(s, op) && id in Apply(s, op).table
    ensures KnownStatus(Apply(s, op).table[id].status)
  {
    assert id in s.table ==> KnownStatus(s.table[id].status);
  }

  lemma EachOpSynced(s: State, op: Op)
    requires Synced(s) && Allowed(s, op)
    requires op.OpReopen? ==> |s.table| <= LOAD_LIMIT
    ensures Synced(Apply(s, op))
  {
    EachOpAgrees(s, op);
    EachOpComplete(s, op);
    forall id | id in Apply(s, op).table
      ensures KnownStatus(Apply(s, op).table[id].status)
    {
      EachOpKnown(s, op, id);
    }
  }

  lemma {:induction false} RunSynced(s: State, ops: seq<Op>)
    requires Synced(s) && RunAllowed(s, ops) && SmallReopens(s, ops)
    ensures Synced(Run(s, ops))
    decreases |ops|
  {
    if |ops| > 0 {
      EachOpSynced(s, ops[0]);
      RunSynced(Apply(s, ops[0]), ops[1..]);
    }
  }

  predicate CountersFit(s: State) {
    forall id :: id in s.jobs ==> s.jobs[id].iterations < TWO_63 && s.jobs[id].tokensUsed < TWO_63
  }

  lemma ReopenSynced(t: State, ids: set<string>)
    requires Synced(t) && ids == t.table.Keys
    ensures Reopened(t, ids).jobs == (map id | id in t.jobs :: ThroughTable(t.jobs[id]))
    ensures CountersFit(t) ==> Reopened(t, ids).jobs == t.jobs
  {
    forall id | id in t.jobs
      ensures RowToJob(t.table[id]) == ThroughTable(t.jobs[id])
      ensures CountersFit(t) ==> ThroughTable(t.jobs[id]) == t.jobs[id]
    {
      assert AgreesOn(t, id);
    }
  }

  /** Closing and re-opening after any run gives every job back, counters below 2^63 unchanged. */
  lemma ReopenRestores(s: State, ops: seq<Op>, ids: set<string>)
    requires Synced(s) && RunAllowed(s, ops) && SmallReopens(s, ops)
    requires var t := Run(s, ops); |t.table| <= LOAD_LIMIT && Newest(t.table, ids)
    ensures var t := Run(s, ops);
            && Reopened(t, ids).jobs == (map id | id in t.jobs :: ThroughTable(t.jobs[id]))
            && (CountersFit(t) ==> Reopened(t, ids) == t)
  {
    RunSynced(s, ops);
    SmallTableLoadsAll(Run(s, ops).table, ids);
    ReopenSynced(Run(s, ops), ids);
  }

  /** With more rows 500 come back, each as it was, and no job left behind is newer in memory than one
      that came back. */
  lemma ReopenKeepsNewest(s: State, ops: seq<Op>, ids: set<string>)
    requires Synced(s) && RunAllowed(s, ops) && SmallReopens(s, ops)
    requires Newest(Run(s, ops).table, ids)
    ensures var t := Run(s, ops);
            var u := Reopened(t, ids);
            && |u.jobs| == (if |t.jobs| <= LOAD_LIMIT then |t.jobs| else LOAD_LIMIT)
            && u.jobs.Keys <= t.jobs.Keys
            && (forall id :: id in u.jobs ==> u.jobs[id] == ThroughTable(t.jobs[id]))
            && (forall kept, left :: kept in u.jobs && left in t.jobs && left !in u.jobs ==>
                  t.jobs[left].createdAt <= t.jobs[kept].createdAt)
  {
    RunSynced(s, ops);
    var t := Run(s, ops);
    var u := Reopened(t, ids);
    assert u.jobs.Keys == ids;
    assert |t.jobs.Keys| == |t.table.Keys|;
    forall id | id in t.jobs
      ensures id in t.table && t.table[id].createdAt == t.jobs[id].createdAt
      ensures id in ids ==> u.jobs[id] == ThroughTable(t.jobs[id])
    {
      assert AgreesOn(t, id);
    }
  }

  /** After any run at all, small re-opens or not, what comes back is what memory held of it. */
  lemma ReopenAgrees(s: State, ops: seq<Op>, ids: set<string>, id: string)
    requires Agrees(s) && RunAllowed(s, ops) && Newest(Run(s, ops).table, ids)
    ensures id in ids && id in Run(s, ops).jobs ==>
              Reopened(Run(s, ops), ids).jobs[id] == ThroughTable(Run(s, ops).jobs[id])
  {
    RunAgrees(s, ops);
    assert AgreesOn(Run(s, ops), id);
  }

  // ---- The resume scan -------------------------------------------------------

  /** A scan splits the running rows: orphans are failed with their reason, in memory too; the rest
      keep running untouched and come back with their checkpoint if memory holds them; nothing else
      changes. */
  lemma ScanSplits(s: State, scan: Scan, id: string)
    requires id in s.table
    ensures var t := Resumed(s, scan);
            if s.table[id].status != "running" then
              t.table[id] == s.table[id] && (id in s.jobs ==> t.jobs[id] == s.jobs[id]) && id !in Returned(s, scan)
            else if Orphaned(s, scan, id) then
              && t.table[id].status == "failed" && t.table[id].error.Some? && id !in Returned(s, scan)
              && (id in s.jobs ==> t.jobs[id].status == Failed && t.jobs[id].error == t.table[id].error)
            else
              && t.table[id] == s.table[id] && (id in s.jobs ==> t.jobs[id] == s.jobs[id])
              && (id in Returned(s, scan) <==> id in s.jobs)
  {
  }

  /** Every running row is returned or failed exactly when memory holds all the fresh ones. */
  lemma NothingLeftBehind(s: State, scan: Scan)
    ensures (forall id :: id in s.table && s.table[id].status == "running" ==>
               id in Returned(s, scan) || Resumed(s, scan).table[id].status == "failed")
            <==> (forall id :: id in s.table && IsFresh(s.table[id], scan.cutoff, scan.hours, scan.codec) ==> id in s.jobs)
  {
    forall id | id in s.table && s.table[id].status == "running"
      ensures id in Returned(s, scan) || Resumed(s, scan).table[id].status == "failed"
              <==> Orphaned(s, scan, id) || id in s.jobs
      ensures Orphaned(s, scan, id) <==> !IsFresh(s.table[id], scan.cutoff, scan.hours, scan.codec)
    {
      ScanSplits(s, scan, id);
    }
  }

  /** The row was fresh at the first scan and has aged past the second one's cutoff. */
  predicate Aged(s: State, scan: Scan, again: Scan, id: string) {
    && id in s.table && IsFresh(s.table[id], scan.cutoff, scan.hours, scan.codec)
    && s.table[id].checkpointAt.value < again.cutoff
  }

  /** What a later scan makes of each row the first one left. */
  lemma SecondScanRow(s: State, scan: Scan, again: Scan, id: string)
    requires again.cutoff >= scan.cutoff && again.codec == scan.codec
    ensures var t := Resumed(s, scan);
            && (Orphaned(t, again, id) <==> Aged(s, scan, again, id))
            && (Resumable(t, again, id) <==> Resumable(s, scan, id) && !Aged(s, scan, again, id))
            && (Resumable(s, scan, id) ==> t.table[id] == s.table[id] && t.jobs[id] == s.jobs[id])
  {
  }

  /** A second scan, with a cutoff no earlier, changes nothing exactly when no fresh checkpoint has aged
      past it meanwhile. */
  lemma SecondScanIdleIff(s: State, scan: Scan, again: Scan)
    requires again.cutoff >= scan.cutoff && again.codec == scan.codec
    ensures Resumed(Resumed(s, scan), again) == Resumed(s, scan) <==> forall id :: !Aged(s, scan, again, id)
  {
    var t := Resumed(s, scan);
    forall id
      ensures Orphaned(t, again, id) <==> Aged(s, scan, again, id)
    {
      SecondScanRow(s, scan, again, id);
    }
    if id :| Aged(s, scan, again, id) {
      assert t.table[id].status == "running" && Resumed(t, again).table[id].status == "failed";
    }
  }

  /** It returns the jobs the first one did, but for those that have aged: none, if the clock stood
      still. */
  lemma SecondScanReturns(s: State, scan: Scan, again: Scan)
    requires again.cutoff >= scan.cutoff && again.codec == scan.codec
    ensures Returned(Resumed(s, scan), again)
         == map id | id in Returned(s, scan) && !Aged(s, scan, again, id) :: Returned(s, scan)[id]
    ensures again.cutoff == scan.cutoff ==> forall id :: !Aged(s, scan, again, id)
  {
    var t := Resumed(s, scan);
    forall id
      ensures Resumable(t, again, id) <==> Resumable(s, scan, id) && !Aged(s, scan, again, id)
      ensures Resumable(s, scan, id) ==> t.table[id] == s.table[id] && t.jobs[id] == s.jobs[id]
    {
      SecondScanRow(s, scan, again, id);
    }
  }
}
