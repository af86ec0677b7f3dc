/** The background job store (background.rs), each operation one atomic step, each SQL write
    succeeding. Every method is proved to compute the operation of the same name in BgJobs. */
module BgStore {
  import opened BgJobs
  import opened Checkpoints
  import opened Text
  import opened Wrappers

  class BgStore {
    var jobs: map<string, Job>
    var table: map<string, Row>

    function Now(): State
      reads this
    {
      State(jobs, table)
    }

    /** `open`: hydrate memory from the rows the query returned. */
    constructor Open(table: map<string, Row>, ids: seq<string>)
      requires Newest(table, set id | id in ids)
      ensures Now() == Reopened(State(map[], table), set id | id in ids)
    {
      var loaded: map<string, Job> := map[];
      for k := 0 to |ids|
        invariant loaded == map id | id in ids[..k] :: RowToJob(table[id])
      {
        assert forall id :: id in ids[..k + 1] <==> id in ids[..k] || id == ids[k];
        loaded := loaded[ids[k] := RowToJob(table[ids[k]])];
      }
      assert ids[..|ids|] == ids;
      this.jobs, this.table := loaded, table;
    }

    method Enqueue(id: string, task: string, name: Option<string>, now: int) returns (job: Job)
      requires id !in jobs && id !in table
      modifies this
      ensures Now() == BgJobs.Enqueue(old(Now()), id, task, name, now)
      ensures job == jobs[id]
    {
      job := Job(task, name, Queued, now, None, None, None, None, None, 0, 0);
      jobs := jobs[id := job];
      table := table[id := Row(task, name, job.status.AsStr(), now, None, None, None, None, None, 0, 0, None, None)];
    }

    method MarkRunning(id: string, now: int)
      modifies this
      ensures Now() == BgJobs.MarkRunning(old(Now()), id, now)
    {
      if id in jobs {
        jobs := jobs[id := jobs[id].(status := Running, startedAt := Some(now))];
      }
      if id in table {
        table := table[id := table[id].(status := Running.AsStr(), startedAt := Some(now))];
      }
    }

    method MarkDone(id: string, result: string, sessionId: Option<string>, iterations: nat, tokensUsed: nat, now: int)
      modifies this
      ensures Now() == BgJobs.MarkDone(old(Now()), id, result, sessionId, iterations, tokensUsed, now)
    {
      if id in jobs {
        jobs := jobs[id := jobs[id].(status := Done, finishedAt := Some(now), result := Some(result),
                                     sessionId := sessionId, iterations := iterations, tokensUsed := tokensUsed)];
      }
      if id in table {
        table := table[id := table[id].(status := Done.AsStr(), finishedAt := Some(now), result := Some(result),
                                        sessionId := sessionId, iterations := ToI64(iterations), tokensUsed := ToI64(tokensUsed))];
      }
    }

    method MarkFailed(id: string, error: string, now: int)
      modifies this
      ensures Now() == BgJobs.MarkFailed(old(Now()), id, error, now)
    {
      if id in jobs {
        jobs := jobs[id := jobs[id].(status := Failed, finishedAt := Some(now), error := Some(error))];
      }
      if id in table {
        table := table[id := table[id].(status := Failed.AsStr(), finishedAt := Some(now), error := Some(error))];
      }
    }

    method MarkTimeout(id: string, secs: nat, now: int)
      modifies this
      ensures Now() == BgJobs.MarkFailed(old(Now()), id, "timeout: exceeded " + Decimal(secs) + "s", now)
    {
      MarkFailed(id, "timeout: exceeded " + Decimal(secs) + "s", now);
    }

    method MarkCancelled(id: string, now: int) returns (cancelled: bool)
      modifies this
      ensures Now() == BgJobs.MarkCancelled(old(Now()), id, now)
      ensures cancelled <==> id in old(jobs) && !old(jobs)[id].status.IsTerminal()
    {
      if id !in jobs {
        return false;
      }
      if jobs[id].status.IsTerminal() {
        return false;
      }
      jobs := jobs[id := jobs[id].(status := Cancelled, finishedAt := Some(now))];
      if id in table {
        table := table[id := table[id].(status := Cancelled.AsStr(), finishedAt := Some(now))];
      }
      cancelled := true;
    }

    method WriteCheckpoint(id: string, c: Checkpoint, codec: Codec, now: int)
      modifies this
      ensures Now() == BgJobs.WriteCheckpoint(old(Now()), id, codec.encode(Stored(c, codec)), c.iterations, now)
    {
      var blob := Encode(c, codec);
      if id in jobs {
        jobs := jobs[id := jobs[id].(iterations := c.iterations)];
      }
      if id in table {
        table := table[id := table[id].(checkpointBlob := Some(blob), checkpointAt := Some(now), iterations := ToI64(c.iterations))];
      }
    }

    method PruneFinished(cutoff: int) returns (removed: nat)
      modifies this
      ensures Now() == Prune(old(Now()), cutoff)
      ensures removed == |old(jobs)| - |jobs|
    {
      var toRemove := set id | id in jobs && OldJob(jobs[id], cutoff);
      assert (jobs - toRemove).Keys == jobs.Keys - toRemove;
      assert toRemove <= jobs.Keys;
      jobs := jobs - toRemove;
      table := map id | id in table && !OldRow(table[id], cutoff) :: table[id];
      removed := |toRemove|;
    }

    /** Judge the running rows, in the order the query returned them. */
    method JudgeRows(rows: seq<string>, scan: Scan) returns (out: seq<(string, Job, Checkpoint)>, toOrphan: seq<(string, string)>)
      requires forall i :: 0 <= i < |rows| ==> rows[i] in table
      ensures out == FreshOf(Now(), scan, rows) && toOrphan == OrphansOf(Now(), scan, rows)
    {
      out, toOrphan := [], [];
      for k := 0 to |rows|
        invariant out == FreshOf(Now(), scan, rows[..k]) && toOrphan == OrphansOf(Now(), scan, rows[..k])
      {
        assert rows[..k + 1][..k] == rows[..k];
        var id, row := rows[k], table[rows[k]];
        var tooOld := row.checkpointAt.None? || row.checkpointAt.value < scan.cutoff;
        if row.checkpointBlob.None? {
          toOrphan := toOrphan + [(id, "no checkpoint written before restart")];
          continue;
        }
        if tooOld {
          toOrphan := toOrphan + [(id, "checkpoint older than " + Decimal(scan.hours) + " hours")];
          continue;
        }
        var decoded := scan.codec.decode(row.checkpointBlob.value);
        if decoded.None? {
          toOrphan := toOrphan + [(id, "checkpoint decode failed (schema drift?)")];
          continue;
        }
        if id in jobs {
          out := out + [(id, jobs[id], decoded.value)];
        }
      }
      assert rows[..|rows|] == rows;
    }

    /** Judge the running rows, then fail the orphans. */
    method PendingResumable(rows: seq<string>, scan: Scan) returns (out: seq<(string, Job, Checkpoint)>)
      requires RunningRows(Now(), rows)
      modifies this
      ensures Now() == Resumed(old(Now()), scan)
      ensures Lists(out, Returned(old(Now()), scan))
    {
      ghost var was := Now();
      var toOrphan;
      out, toOrphan := JudgeRows(rows, scan);
      for k := 0 to |toOrphan|
        invariant Now() == FailEach(was, scan, toOrphan[..k])
      {
        assert toOrphan[..k + 1][..k] == toOrphan[..k];
        MarkFailed(toOrphan[k].0, toOrphan[k].1, scan.at(toOrphan[k].0));
      }
      assert toOrphan[..|toOrphan|] == toOrphan;
      FailingOrphansResumes(was, scan, rows);
      FreshAreReturned(was, scan, rows);
    }
  }

  /** The rows the scan's query returns: the running ones, each once, in some order. */
  predicate RunningRows(s: State, rows: seq<string>) {
    && (forall i, j :: 0 <= i < j < |rows| ==> rows[i] != rows[j])
    && (forall i :: 0 <= i < |rows| ==> rows[i] in s.table && s.table[rows[i]].status == "running")
    && (forall id :: id in s.table && s.table[id].status == "running" ==> id in rows)
  }

  function VerdictOn(s: State, scan: Scan, id: string): Verdict
    requires id in s.table
  {
    Judge(s.table[id], scan.cutoff, scan.hours, scan.codec)
  }

  function FreshOf(s: State, scan: Scan, rows: seq<string>): seq<(string, Job, Checkpoint)>
    requires forall i :: 0 <= i < |rows| ==> rows[i] in s.table
  {
    if |rows| == 0 then [] else
      var id := rows[|rows| - 1];
      FreshOf(s, scan, rows[..|rows| - 1])
      + (match VerdictOn(s, scan, id)
         case Fresh(c) => if id in s.jobs then [(id, s.jobs[id], c)] else []
         case Orphan(_) => [])
  }

  function OrphansOf(s: State, scan: Scan, rows: seq<string>): seq<(string, string)>
    requires forall i :: 0 <= i < |rows| ==> rows[i] in s.table
  {
    if |rows| == 0 then [] else
      var id := rows[|rows| - 1];
      OrphansOf(s, scan, rows[..|rows| - 1])
      + (match VerdictOn(s, scan, id) case Orphan(reason) => [(id, reason)] case Fresh(_) => [])
  }

  function FailEach(s: State, scan: Scan, orphans: seq<(string, string)>): State {
    if |orphans| == 0 then s else
      var o := orphans[|orphans| - 1];
      BgJobs.MarkFailed(FailEach(s, scan, orphans[..|orphans| - 1]), o.0, o.1, scan.at(o.0))
  }

  /** `out` lists a map's entries, each once. */
  predicate Lists(out: seq<(string, Job, Checkpoint)>, entries: map<string, (Job, Checkpoint)>) {
    && (forall i, j :: 0 <= i < j < |out| ==> out[i].0 != out[j].0)
    && (forall i :: 0 <= i < |out| ==> out[i].0 in entries && entries[out[i].0] == (out[i].1, out[i].2))
    && (forall id :: id in entries ==> exists i :: 0 <= i < |out| && out[i].0 == id)
  }

  /** The scan so far, on one id: failed if it is an orphan among `rows`, otherwise as it was. */
  predicate ScannedOn(s: State, scan: Scan, rows: seq<string>, t: State, id: string) {
    && (id in t.table <==> id in s.table) && (id in t.jobs <==> id in s.jobs)
    && (id in s.table ==>
          t.table[id] == if id in rows && Orphaned(s, scan, id)
                         then FailRow(s.table[id], Reason(s.table[id], scan), scan.at(id)) else s.table[id])
    && (id in s.jobs ==>
          t.jobs[id] == if id in rows && Orphaned(s, scan, id)
                        then FailJob(s.jobs[id], Reason(s.table[id], scan), scan.at(id)) else s.jobs[id])
  }

  ghost predicate PartlyResumed(s: State, scan: Scan, rows: seq<string>, t: State) {
    forall id :: ScannedOn(s, scan, rows, t, id)
  }

  lemma MarkFailedOn(t: State, id: string, error: string, now: int)
    ensures var u := BgJobs.MarkFailed(t, id, error, now);
            && u.jobs == (if id in t.jobs then t.jobs[id := FailJob(t.jobs[id], error, now)] else t.jobs)
            && u.table == (if id in t.table then t.table[id := FailRow(t.table[id], error, now)] else t.table)
  {
  }

  lemma FailNext(s: State, scan: Scan, front: seq<string>, id: string, t: State)
    requires PartlyResumed(s, scan, front, t) && id in s.table && id !in front
    requires s.table[id].status == "running" && VerdictOn(s, scan, id).Orphan?
    ensures PartlyResumed(s, scan, front + [id], BgJobs.MarkFailed(t, id, VerdictOn(s, scan, id).reason, scan.at(id)))
  {
    var error := VerdictOn(s, scan, id).reason;
    MarkFailedOn(t, id, error, scan.at(id));
    var u := BgJobs.MarkFailed(t, id, error, scan.at(id));
    forall x
      ensures ScannedOn(s, scan, front + [id], u, x)
    {
      assert ScannedOn(s, scan, front, t, x);
      assert x in front + [id] <==> x in front || x == id;
    }
  }

  lemma SkipNext(s: State, scan: Scan, front: seq<string>, id: string, t: State)
    requires PartlyResumed(s, scan, front, t) && id in s.table
    requires VerdictOn(s, scan, id).Fresh?
    ensures PartlyResumed(s, scan, front + [id], t)
  {
    forall x
      ensures ScannedOn(s, scan, front + [id], t, x)
    {
      assert ScannedOn(s, scan, front, t, x);
      assert x in front + [id] <==> x in front || x == id;
    }
  }

  lemma {:induction false} FailsInTurn(s: State, scan: Scan, rows: seq<string>)
    requires forall i, j :: 0 <= i < j < |rows| ==> rows[i] != rows[j]
    requires forall i :: 0 <= i < |rows| ==> rows[i] in s.table && s.table[rows[i]].status == "running"
    ensures PartlyResumed(s, scan, rows, FailEach(s, scan, OrphansOf(s, scan, rows)))
  {
    if |rows| > 0 {
      var front, id := rows[..|rows| - 1], rows[|rows| - 1];
      FailsInTurn(s, scan, front);
      assert front + [id] == rows && id !in front;
      var before, orphans := OrphansOf(s, scan, front), OrphansOf(s, scan, rows);
      var t := FailEach(s, scan, before);
      if VerdictOn(s, scan, id).Orphan? {
        assert orphans[..|orphans| - 1] == before;
        FailNext(s, scan, front, id, t);
      } else {
        assert orphans == before;
        SkipNext(s, scan, front, id, t);
      }
    }
  }

  lemma FailingOrphansResumes(s: State, scan: Scan, rows: seq<string>)
    requires RunningRows(s, rows)
    ensures FailEach(s, scan, OrphansOf(s, scan, rows)) == Resumed(s, scan)
  {
    FailsInTurn(s, scan, rows);
    var t, r := FailEach(s, scan, OrphansOf(s, scan, rows)), Resumed(s, scan);
    forall id
      ensures (id in t.jobs <==> id in r.jobs) && (id in t.table <==> id in r.table)
      ensures id in r.jobs ==> t.jobs[id] == r.jobs[id]
      ensures id in r.table ==> t.table[id] == r.table[id]
    {
      assert ScannedOn(s, scan, rows, t, id);
      assert Orphaned(s, scan, id) ==> id in rows;
    }
    assert t.jobs == r.jobs && t.table == r.table;
  }

  lemma ReturnedOn(s: State, scan: Scan, id: string)
    requires id in s.table && s.table[id].status == "running"
    ensures id in Returned(s, scan) <==> VerdictOn(s, scan, id).Fresh? && id in s.jobs
    ensures id in Returned(s, scan) ==> Returned(s, scan)[id] == (s.jobs[id], VerdictOn(s, scan, id).checkpoint)
  {
  }

  /** The scan's answer so far: an entry for each of `rows` that is returned, and no other. */
  predicate ListsAmong(out: seq<(string, Job, Checkpoint)>, entries: map<string, (Job, Checkpoint)>, rows: seq<string>) {
    && (forall i, j :: 0 <= i < j < |out| ==> out[i].0 != out[j].0)
    && (forall i :: 0 <= i < |out| ==> out[i].0 in rows)
    && (forall i :: 0 <= i < |out| ==> out[i].0 in entries && entries[out[i].0] == (out[i].1, out[i].2))
    && (forall id :: id in rows && id in entries ==> exists i :: 0 <= i < |out| && out[i].0 == id)
  }

  lemma ListNext(out: seq<(string, Job, Checkpoint)>, entries: map<string, (Job, Checkpoint)>, front: seq<string>, id: string)
    requires ListsAmong(out, entries, front) && id !in front
    ensures id !in entries ==> ListsAmong(out, entries, front + [id])
    ensures id in entries ==> ListsAmong(out + [(id, entries[id].0, entries[id].1)], entries, front + [id])
  {
    var rows := front + [id];
    assert forall x :: x in rows <==> x in front || x == id;
    if id in entries {
      var grown := out + [(id, entries[id].0, entries[id].1)];
      forall x | x in rows && x in entries
        ensures exists i :: 0 <= i < |grown| && grown[i].0 == x
      {
        if x == id {
          assert grown[|out|].0 == id;
        } else {
          var i :| 0 <= i < |out| && out[i].0 == x;
          assert grown[i].0 == x;
        }
      }
    }
  }

  lemma {:induction false} FreshSoFar(s: State, scan: Scan, rows: seq<string>)
    requires forall i, j :: 0 <= i < j < |rows| ==> rows[i] != rows[j]
    requires forall i :: 0 <= i < |rows| ==> rows[i] in s.table && s.table[rows[i]].status == "running"
    ensures ListsAmong(FreshOf(s, scan, rows), Returned(s, scan), rows)
  {
    if |rows| > 0 {
      var front, id := rows[..|rows| - 1], rows[|rows| - 1];
      FreshSoFar(s, scan, front);
      ReturnedOn(s, scan, id);
      assert front + [id] == rows && id !in front;
      ListNext(FreshOf(s, scan, front), Returned(s, scan), front, id);
      assert FreshOf(s, scan, front) + [] == FreshOf(s, scan, front);
    } else {
      assert rows == [];
    }
  }

  lemma FreshAreReturned(s: State, scan: Scan, rows: seq<string>)
    requires RunningRows(s, rows)
    ensures Lists(FreshOf(s, scan, rows), Returned(s, scan))
  {
    FreshSoFar(s, scan, rows);
  }
}
