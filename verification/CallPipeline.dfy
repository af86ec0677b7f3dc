/** The call pipeline's code (call_pipeline.rs): the effects it performs on files, rows and services,
    proved to be those of CallProtocol. */
module CallPipeline {
  import opened CallProtocol
  import opened Wrappers

  lemma {:induction false} PerformLast(d: Durable, effects: seq<Effect>, e: Effect)
    ensures PerformAll(d, effects + [e]) == Perform(PerformAll(d, effects), e)
    decreases |effects|
  {
    if |effects| > 0 {
      assert (effects + [e])[1..] == effects[1..] + [e];
      PerformLast(Perform(d, effects[0]), effects[1..], e);
    } else {
      assert ([] + [e])[1..] == [];
    }
  }

  class CallPipeline {
    var done: set<string>
    var meta: map<string, MetaFile>
    var audio: set<string>
    var rows: map<string, CallRecord>
    var uploads: seq<string>
    var memories: seq<(string, string)>
    /** Where the current pass started and what it has issued since. */
    ghost var start: Durable
    ghost var issued: seq<Effect>

    function Now(): Durable
      reads this
    {
      Durable(done, meta, audio, rows, uploads, memories)
    }

    ghost predicate Valid()
      reads this
    {
      Now() == PerformAll(start, issued)
    }

    ghost method Begin()
      modifies this`start, this`issued
      ensures Valid() && start == Now() && issued == []
    {
      start, issued := Now(), [];
    }

    ghost method Log(e: Effect, before: Durable)
      requires before == PerformAll(start, issued) && Now() == Perform(before, e)
      modifies this`issued
      ensures Valid() && issued == old(issued) + [e]
    {
      PerformLast(start, issued, e);
      issued := issued + [e];
    }

    method RemoveDoneFile(id: string)
      requires Valid()
      modifies this
      ensures Valid() && start == old(start) && issued == old(issued) + [RemoveDone(id)]
    {
      ghost var before := Now();
      done := done - {id};
      Log(RemoveDone(id), before);
    }

    method CleanupFiles(id: string)
      requires Valid()
      modifies this
      ensures Valid() && start == old(start) && issued == old(issued) + Cleanup(id)
    {
      ghost var before := Now();
      audio := audio - {id};
      Log(RemoveAudio(id), before);
      before := Now();
      meta := meta - {id};
      Log(RemoveMeta(id), before);
      RemoveDoneFile(id);
      assert old(issued) + Cleanup(id) == old(issued) + [RemoveAudio(id)] + [RemoveMeta(id)] + [RemoveDone(id)];
    }

    method CleanupKeepingAudio(id: string)
      requires Valid()
      modifies this
      ensures Valid() && start == old(start) && issued == old(issued) + CleanupKeepAudio(id)
    {
      ghost var before := Now();
      meta := meta - {id};
      Log(RemoveMeta(id), before);
      RemoveDoneFile(id);
      assert old(issued) + CleanupKeepAudio(id) == old(issued) + [RemoveMeta(id)] + [RemoveDone(id)];
    }

    method InsertRow(id: string, record: CallRecord)
      requires Valid()
      modifies this
      ensures Valid() && start == old(start) && issued == old(issued) + [Insert(id, record)]
    {
      ghost var before := Now();
      rows := rows[id := record];
      Log(Insert(id, record), before);
    }

    method RowError(id: string, state: CallState, error: string)
      requires Valid()
      modifies this
      ensures Valid() && start == old(start) && issued == old(issued) + [UpdateError(id, state, error)]
    {
      ghost var before := Now();
      if id in rows {
        rows := rows[id := rows[id].(state := state, error := Some(error))];
      }
      Log(UpdateError(id, state, error), before);
    }

    method RowTranscript(id: string, transcript: string)
      requires Valid()
      modifies this
      ensures Valid() && start == old(start) && issued == old(issued) + [UpdateTranscript(id, transcript)]
    {
      ghost var before := Now();
      if id in rows {
        rows := rows[id := rows[id].(transcript := Some(transcript), state := Transcribed)];
      }
      Log(UpdateTranscript(id, transcript), before);
    }

    method RowSummary(id: string, summary: string)
      requires Valid()
      modifies this
      ensures Valid() && start == old(start) && issued == old(issued) + [UpdateSummary(id, summary)]
    {
      ghost var before := Now();
      if id in rows {
        rows := rows[id := rows[id].(summary := Some(summary), state := Summarised)];
      }
      Log(UpdateSummary(id, summary), before);
    }

    /** The upload to the speech-to-text service, if the audio could be read and sent. */
    method Transcribe(id: string, luck: Luck) returns (transcript: Result<string, string>)
      requires Valid()
      modifies this
      ensures transcript == luck.transcribe
      ensures Valid() && start == old(start)
      ensures issued == old(issued) + (if luck.transcribe.Ok? || luck.uploaded then [Upload(id)] else [])
    {
      if luck.transcribe.Ok? || luck.uploaded {
        ghost var before := Now();
        uploads := uploads + [id];
        Log(Upload(id), before);
      }
      transcript := luck.transcribe;
    }

    method PersistToMemory(id: string, summary: string)
      requires Valid()
      modifies this
      ensures Valid() && start == old(start) && issued == old(issued) + [SaveMemory(id, summary)]
    {
      ghost var before := Now();
      memories := memories + [(id, summary)];
      Log(SaveMemory(id, summary), before);
    }

    /** The summary step and the clean-up that ends a successful pass. */
    method Summarise(cfg: Config, luck: Luck, id: string) returns (failure: Option<string>)
      requires Valid()
      modifies this
      ensures Valid() && start == old(start)
      ensures var p := AfterTranscript(cfg, luck, id); failure == p.error && issued == old(issued) + p.effects
    {
      if cfg.hasProvider {
        match luck.summarise {
          case Ok(summary) =>
            if !luck.summaryOk {
              return Some(luck.dbError);
            }
            RowSummary(id, summary);
            if luck.memoryOk {
              PersistToMemory(id, summary);
            }
          case Err(e) =>
            if !luck.summaryOk {
              return Some(luck.dbError);
            }
            RowError(id, Transcribed, "summary: " + e);
        }
      }
      CleanupFiles(id);
      failure := None;
    }

    /** No STT key: the row becomes `skipped`. */
    method SkipWithoutKey(luck: Luck, id: string) returns (failure: Option<string>)
      requires Valid()
      modifies this
      ensures Valid() && start == old(start) && failure == (if luck.updateOk then None else Some(luck.dbError))
      ensures issued == old(issued)
                     + (if luck.updateOk then [UpdateError(id, Skipped, "no STT API key configured")] + Cleanup(id) else [])
    {
      if !luck.updateOk {
        return Some(luck.dbError);
      }
      RowError(id, Skipped, "no STT API key configured");
      CleanupFiles(id);
      failure := None;
    }

    /** STT failed: the row becomes `error` and the audio stays. */
    method FailTranscription(luck: Luck, id: string, error: string) returns (failure: Option<string>)
      requires Valid()
      modifies this
      ensures Valid() && start == old(start)
      ensures failure == Some(if luck.updateOk then error else luck.dbError)
      ensures issued == old(issued)
                     + (if luck.updateOk then [UpdateError(id, Error, "stt: " + error)] + CleanupKeepAudio(id) else [])
    {
      if !luck.updateOk {
        return Some(luck.dbError);
      }
      RowError(id, Error, "stt: " + error);
      CleanupKeepingAudio(id);
      failure := Some(error);
    }

    /** STT answered: the transcript is stored, then summarised. */
    method KeepTranscript(cfg: Config, luck: Luck, id: string, transcript: string) returns (failure: Option<string>)
      requires Valid()
      modifies this
      ensures Valid() && start == old(start)
      ensures !luck.transcriptOk ==> failure == Some(luck.dbError) && issued == old(issued)
      ensures luck.transcriptOk ==>
                var p := AfterTranscript(cfg, luck, id);
                failure == p.error && issued == old(issued) + ([UpdateTranscript(id, transcript)] + p.effects)
    {
      if !luck.transcriptOk {
        return Some(luck.dbError);
      }
      RowTranscript(id, transcript);
      failure := Summarise(cfg, luck, id);
      assert issued == old(issued) + [UpdateTranscript(id, transcript)] + AfterTranscript(cfg, luck, id).effects;
    }

    /** From the inserted row to the end of the pass. */
    method TranscribeAndSummarise(cfg: Config, luck: Luck, id: string) returns (failure: Option<string>)
      requires Valid()
      modifies this
      ensures Valid() && start == old(start)
      ensures var p := AfterInsert(cfg, luck, id); failure == p.error && issued == old(issued) + p.effects
    {
      if cfg.sttKey == "" {
        failure := SkipWithoutKey(luck, id);
        return;
      }
      var transcript := Transcribe(id, luck);
      if transcript.Err? {
        failure := FailTranscription(luck, id, transcript.error);
        return;
      }
      failure := KeepTranscript(cfg, luck, id, transcript.value);
    }

    method ProcessOne(cfg: Config, luck: Luck, id: string) returns (failure: Option<string>)
      modifies this
      ensures Valid() && start == old(Now())
      ensures var p := CallProtocol.ProcessOne(cfg, luck, old(Now()), id); failure == p.error && issued == p.effects
    {
      Begin();
      if !luck.existsOk {
        return Some(luck.dbError);
      }
      if id in rows {
        RemoveDoneFile(id);
        return None;
      }
      if id !in meta {
        RemoveDoneFile(id);
        return Some("metadata read failed: " + luck.readError);
      }
      if meta[id].Corrupt? {
        return Some("metadata parse: " + meta[id].parseError);
      }
      var m := meta[id].meta;
      var badAudio := m.audioBytes == 0 || id !in audio;
      if TooShort(m, cfg) || badAudio || m.error.Some? {
        failure := SkipCall(cfg, luck, id, m, badAudio);
        return;
      }
      if !luck.insertOk {
        return Some(luck.dbError);
      }
      InsertRow(m.id, NewRecord(m));
      failure := TranscribeAndSummarise(cfg, luck, id);
    }

    /** A call that is too short, has no audio or failed to record: a row that says why. */
    method SkipCall(cfg: Config, luck: Luck, id: string, m: CallMetadata, badAudio: bool) returns (failure: Option<string>)
      requires Valid()
      modifies this
      ensures Valid() && start == old(start)
      ensures failure == (if luck.insertOk then None else Some(luck.dbError))
      ensures issued == old(issued)
                     + (if luck.insertOk then [Insert(m.id, SkippedRecord(m, cfg, badAudio))] + Cleanup(id) else [])
    {
      var rec := NewRecord(m).(state := Skipped);
      if rec.error.None? {
        rec := rec.(error := Some(
          if TooShort(m, cfg) then ShortReason(m.durationMs, cfg.minDurationMs)
          else if badAudio then "no audio captured"
          else "recording error"));
      }
      if !luck.insertOk {
        return Some(luck.dbError);
      }
      InsertRow(m.id, rec);
      CleanupFiles(id);
      return None;
    }

    /** `tick` over the sentinels the directory listed. */
    method Tick(cfg: Config, luck: nat -> Luck, seen: seq<string>)
      modifies this
      ensures Now() == CallProtocol.Tick(cfg, luck, old(Now()), seen)
    {
      for k := 0 to |seen|
        invariant Now() == CallProtocol.Tick(cfg, luck, old(Now()), seen[..k])
      {
        assert seen[..k + 1][..k] == seen[..k];
        var failure := ProcessOne(cfg, luck(k), seen[k]);
        if failure.Some? {
          if luck(k).lockAndUpdateOk {
            RowError(seen[k], Error, failure.value);
          }
          RemoveDoneFile(seen[k]);
          assert issued == Handle(cfg, luck(k), start, seen[k]);
        }
      }
      assert seen[..|seen|] == seen;
    }
  }
}
