/** What becomes of a call: the state a whole pass leaves, told from what was recorded and what the
    services answered. */
module CallOutcomes {
  import opened CallProtocol
  import opened Text
  import opened Wrappers

  // ---- The answer ------------------------------------------------------------

  /** The duration as an unsigned 64-bit number is no less than the minimum. */
  predicate LongEnough(meta: CallMetadata, cfg: Config) {
    if meta.durationMs >= 0 then meta.durationMs >= cfg.minDurationMs
    else meta.durationMs + 0x1_0000_0000_0000_0000 >= cfg.minDurationMs
  }

  /** There is something to transcribe. */
  predicate Worth(d: Durable, meta: CallMetadata, cfg: Config, id: string) {
    LongEnough(meta, cfg) && meta.audioBytes != 0 && id in d.audio && meta.error == None
  }

  /** Why a call is not worth transcribing: the recorder's own error, its length, or no audio. */
  function WhyNot(meta: CallMetadata, cfg: Config): string {
    if meta.error.Some? then meta.error.value
    else if !LongEnough(meta, cfg) then
      Format(["too short (", SignedDecimal(meta.durationMs), " ms < ", Decimal(cfg.minDurationMs), " ms)"])
    else "no audio captured"
  }

  /** The row was inserted. */
  predicate Inserted(luck: Luck, d: Durable, id: string) {
    luck.existsOk && luck.insertOk && id in d.meta && d.meta[id].Parses?
  }

  /** Its audio was worth transcribing and there was a service to do it. */
  predicate Sent(cfg: Config, luck: Luck, d: Durable, id: string) {
    Inserted(luck, d, id) && Worth(d, d.meta[id].meta, cfg, id) && cfg.sttKey != ""
  }

  /** The service answered, and the answer was stored. */
  predicate Kept(cfg: Config, luck: Luck, d: Durable, id: string) {
    Sent(cfg, luck, d, id) && luck.transcribe.Ok? && luck.transcriptOk
  }

  predicate WasSummarised(cfg: Config, luck: Luck, d: Durable, id: string) {
    Kept(cfg, luck, d, id) && cfg.hasProvider && luck.summarise.Ok? && luck.summaryOk
  }

  /** The pass got to its clean-up, which deletes the audio. */
  predicate Cleared(cfg: Config, luck: Luck, d: Durable, id: string) {
    && Inserted(luck, d, id)
    && (!Worth(d, d.meta[id].meta, cfg, id) || (cfg.sttKey == "" && luck.updateOk)
        || (Kept(cfg, luck, d, id) && (cfg.hasProvider ==> luck.summaryOk)))
  }

  /** State and error of the row, for a call whose row was inserted. */
  function Verdict(cfg: Config, luck: Luck, d: Durable, id: string): (CallState, Option<string>)
    requires Inserted(luck, d, id)
  {
    var meta := d.meta[id].meta;
    // What is left when a query fails: the error, if `tick` could write it, and else what was there.
    var failed := (was: CallState) => if luck.lockAndUpdateOk then (Error, Some(luck.dbError)) else (was, None);
    if !Worth(d, meta, cfg, id) then (Skipped, Some(WhyNot(meta, cfg)))
    else if cfg.sttKey == "" then
      if luck.updateOk then (Skipped, Some("no STT API key configured")) else failed(Recorded)
    else match luck.transcribe
      case Err(e) =>
        if !luck.updateOk then failed(Recorded) else (Error, Some(if luck.lockAndUpdateOk then e else "stt: " + e))
      case Ok(_) =>
        if !luck.transcriptOk then failed(Recorded)
        else if !cfg.hasProvider then (Transcribed, None)
        else if !luck.summaryOk then failed(Transcribed)
        else match luck.summarise
          case Ok(_) => (Summarised, None)
          case Err(e) => (Transcribed, Some("summary: " + e))
  }

  // ---- Performing the rest of a pass -----------------------------------------

  /** A pass, and what `tick` adds if it failed. */
  function Finished(luck: Luck, d: Durable, id: string, p: Pass): Durable {
    PerformAll(d, p.effects + (if p.error.Some? then OnError(luck, id, p.error.value) else []))
  }

  lemma FinishedHandles(cfg: Config, luck: Luck, d: Durable, id: string)
    ensures Handled(cfg, luck, d, id) == Finished(luck, d, id, ProcessOne(cfg, luck, d, id))
  {
    var p := ProcessOne(cfg, luck, d, id);
    assert p.effects + [] == p.effects;
  }

  lemma FinishedStep(luck: Luck, d: Durable, id: string, e: Effect, rest: Pass)
    ensures Finished(luck, d, id, Pass([e] + rest.effects, rest.error)) == Finished(luck, Perform(d, e), id, rest)
  {
    var more := if rest.error.Some? then OnError(luck, id, rest.error.value) else [];
    assert ([e] + rest.effects + more)[1..] == rest.effects + more;
  }

  function Clean(d: Durable, id: string): Durable {
    d.(audio := d.audio - {id}, meta := d.meta - {id}, done := d.done - {id})
  }

  function WithRow(d: Durable, id: string, row: CallRecord): Durable {
    d.(rows := d.rows[id := row])
  }

  /** The sentinel goes, and the error is written if it can be. */
  function Errored(luck: Luck, d: Durable, id: string, error: string): Durable
    requires id in d.rows
  {
    var e := d.(done := d.done - {id});
    if luck.lockAndUpdateOk then WithRow(e, id, d.rows[id].(state := Error, error := Some(error))) else e
  }

  lemma PerformOne(d: Durable, e: Effect)
    ensures PerformAll(d, [e]) == Perform(d, e)
  {
    assert [e][1..] == [];
    assert PerformAll(Perform(d, e), []) == Perform(d, e);
  }

  lemma FinishedClean(luck: Luck, d: Durable, id: string)
    ensures Finished(luck, d, id, Pass(Cleanup(id), None)) == Clean(d, id)
  {
    var a, m := Perform(d, RemoveAudio(id)), Perform(Perform(d, RemoveAudio(id)), RemoveMeta(id));
    FinishedStep(luck, d, id, RemoveAudio(id), Pass([RemoveMeta(id), RemoveDone(id)], None));
    FinishedStep(luck, a, id, RemoveMeta(id), Pass([RemoveDone(id)], None));
    FinishedStep(luck, m, id, RemoveDone(id), Pass([], None));
    assert [RemoveAudio(id)] + [RemoveMeta(id), RemoveDone(id)] == Cleanup(id);
    assert [RemoveMeta(id)] + [RemoveDone(id)] == [RemoveMeta(id), RemoveDone(id)];
    assert [RemoveDone(id)] + [] == [RemoveDone(id)];
  }

  lemma FinishedErrored(luck: Luck, d: Durable, id: string, error: string)
    requires id in d.rows
    ensures Finished(luck, d, id, Pass([], Some(error))) == Errored(luck, d, id, error)
  {
    var e, gone := UpdateError(id, Error, error), RemoveDone(id);
    assert [] + OnError(luck, id, error) == OnError(luck, id, error);
    if luck.lockAndUpdateOk {
      assert OnError(luck, id, error) == [e, gone];
      PerformTwo(d, e, gone);
    } else {
      assert OnError(luck, id, error) == [gone];
      PerformOne(d, gone);
    }
  }

  /** From the stored transcript to the end. */
  lemma AfterTranscriptLeaves(cfg: Config, luck: Luck, d: Durable, id: string)
    requires id in d.rows
    ensures Finished(luck, d, id, AfterTranscript(cfg, luck, id))
         == if !cfg.hasProvider then Clean(d, id)
            else if !luck.summaryOk then Errored(luck, d, id, luck.dbError)
            else match luck.summarise
              case Ok(s) =>
                Clean(WithRow(d, id, d.rows[id].(summary := Some(s), state := Summarised)).(
                        memories := if luck.memoryOk then d.memories + [(id, s)] else d.memories), id)
              case Err(e) =>
                Clean(WithRow(d, id, d.rows[id].(state := Transcribed, error := Some("summary: " + e))), id)
  {
    if !cfg.hasProvider {
      FinishedClean(luck, d, id);
    } else if !luck.summaryOk {
      FinishedErrored(luck, d, id, luck.dbError);
    } else {
      match luck.summarise {
        case Ok(s) =>
          var update, save := UpdateSummary(id, s), SaveMemory(id, s);
          var stored := Perform(d, update);
          var rest := if luck.memoryOk then Pass([save] + Cleanup(id), None) else Pass(Cleanup(id), None);
          assert AfterTranscript(cfg, luck, id) == Pass([update] + rest.effects, None) by {
            assert [update] + [save] + Cleanup(id) == [update] + ([save] + Cleanup(id));
            assert [update] + [] + Cleanup(id) == [update] + Cleanup(id);
          }
          FinishedStep(luck, d, id, update, rest);
          if luck.memoryOk {
            FinishedStep(luck, stored, id, save, Pass(Cleanup(id), None));
            FinishedClean(luck, Perform(stored, save), id);
          } else {
            FinishedClean(luck, stored, id);
          }
        case Err(e) =>
          var update := UpdateError(id, Transcribed, "summary: " + e);
          FinishedStep(luck, d, id, update, Pass(Cleanup(id), None));
          FinishedClean(luck, Perform(d, update), id);
      }
    }
  }

  /** A transcription that failed. */
  lemma FailedTranscriptionLeaves(cfg: Config, luck: Luck, d: Durable, id: string)
    requires id in d.rows && cfg.sttKey != "" && luck.transcribe.Err?
    ensures var sent := if luck.uploaded then d.(uploads := d.uploads + [id]) else d;
            var e := luck.transcribe.error;
            var failed := WithRow(sent, id, d.rows[id].(state := Error, error := Some("stt: " + e)));
            Finished(luck, d, id, AfterInsert(cfg, luck, id))
            == if luck.updateOk then Errored(luck, failed.(meta := d.meta - {id}), id, e)
               else Errored(luck, sent, id, luck.dbError)
  {
    var sent := if luck.uploaded then d.(uploads := d.uploads + [id]) else d;
    var e := luck.transcribe.error;
    var update := UpdateError(id, Error, "stt: " + e);
    var rest := if luck.updateOk then Pass([update] + CleanupKeepAudio(id), Some(e)) else Pass([], Some(luck.dbError));
    if luck.uploaded {
      assert AfterInsert(cfg, luck, id) == Pass([Upload(id)] + rest.effects, rest.error);
      FinishedStep(luck, d, id, Upload(id), rest);
    } else {
      assert [] + rest.effects == rest.effects;
    }
    if luck.updateOk {
      var failed := Perform(sent, update);
      var bare := Perform(failed, RemoveMeta(id));
      FinishedStep(luck, sent, id, update, Pass(CleanupKeepAudio(id), Some(e)));
      FinishedStep(luck, failed, id, RemoveMeta(id), Pass([RemoveDone(id)], Some(e)));
      assert [RemoveMeta(id)] + [RemoveDone(id)] == CleanupKeepAudio(id);
      FinishedStep(luck, bare, id, RemoveDone(id), Pass([], Some(e)));
      assert [RemoveDone(id)] + [] == [RemoveDone(id)];
      FinishedErrored(luck, Perform(bare, RemoveDone(id)), id, e);
    } else {
      FinishedErrored(luck, sent, id, luck.dbError);
    }
  }

  /** From the inserted row to the end, when the service answers or there is no key. */
  lemma AfterInsertLeaves(cfg: Config, luck: Luck, d: Durable, id: string)
    requires id in d.rows && (cfg.sttKey == "" || luck.transcribe.Ok?)
    ensures Finished(luck, d, id, AfterInsert(cfg, luck, id))
         == if cfg.sttKey == "" then
              if luck.updateOk then
                Clean(WithRow(d, id, d.rows[id].(state := Skipped, error := Some("no STT API key configured"))), id)
              else Errored(luck, d, id, luck.dbError)
            else
              var sent := d.(uploads := d.uploads + [id]);
              if !luck.transcriptOk then Errored(luck, sent, id, luck.dbError)
              else
                Finished(luck, WithRow(sent, id, d.rows[id].(transcript := Some(luck.transcribe.value), state := Transcribed)),
                         id, AfterTranscript(cfg, luck, id))
  {
    if cfg.sttKey == "" {
      var update := UpdateError(id, Skipped, "no STT API key configured");
      if luck.updateOk {
        FinishedStep(luck, d, id, update, Pass(Cleanup(id), None));
        FinishedClean(luck, Perform(d, update), id);
      } else {
        FinishedErrored(luck, d, id, luck.dbError);
      }
    } else {
      var sent := Perform(d, Upload(id));
      if luck.transcriptOk {
        var keep, rest := UpdateTranscript(id, luck.transcribe.value), AfterTranscript(cfg, luck, id);
        assert AfterInsert(cfg, luck, id) == Pass([Upload(id)] + ([keep] + rest.effects), rest.error);
        FinishedStep(luck, d, id, Upload(id), Pass([keep] + rest.effects, rest.error));
        FinishedStep(luck, sent, id, keep, rest);
      } else {
        FinishedStep(luck, d, id, Upload(id), Pass([], Some(luck.dbError)));
        assert [Upload(id)] + [] == [Upload(id)];
        FinishedErrored(luck, sent, id, luck.dbError);
      }
    }
  }

  // ---- What becomes of a call ------------------------------------------------

  /** Row, transcript, summary, upload, memory and files that the pass leaves. */
  predicate Left(cfg: Config, luck: Luck, d: Durable, id: string, e: Durable) {
    && e.rows.Keys == d.rows.Keys + (if Inserted(luck, d, id) then {id} else {})
    && (forall other :: other in d.rows ==> e.rows[other] == d.rows[other])
    && (Inserted(luck, d, id) ==>
          var row, meta := e.rows[id], d.meta[id].meta;
          && row.direction == meta.direction && row.number == meta.number && row.startedAt == meta.startedAt
          && row.durationMs == meta.durationMs && row.audioSrc == meta.audioSrc
          && row.transcript == (if Kept(cfg, luck, d, id) then Some(luck.transcribe.value) else None)
          && row.summary == (if WasSummarised(cfg, luck, d, id) then Some(luck.summarise.value) else None)
          && (row.state, row.error) == Verdict(cfg, luck, d, id))
    && e.uploads == d.uploads + (if Sent(cfg, luck, d, id) && (luck.transcribe.Ok? || luck.uploaded) then [id] else [])
    && e.memories == d.memories + (if WasSummarised(cfg, luck, d, id) && luck.memoryOk
                                   then [(id, luck.summarise.value)] else [])
    && e.done == d.done - {id}
    && e.audio == (if Cleared(cfg, luck, d, id) then d.audio - {id} else d.audio)
    && e.meta == (if Cleared(cfg, luck, d, id) || (Sent(cfg, luck, d, id) && luck.transcribe.Err? && luck.updateOk)
                  then d.meta - {id} else d.meta)
  }

  lemma InsertedLeaves(cfg: Config, luck: Luck, d: Durable, id: string)
    requires id !in d.rows && Named(d, id) && Inserted(luck, d, id)
    ensures var meta := d.meta[id].meta;
            Handled(cfg, luck, d, id)
            == if Worth(d, meta, cfg, id) then
                 Finished(luck, WithRow(d, id, NewRecord(meta)), id, AfterInsert(cfg, luck, id))
               else
                 Clean(WithRow(d, id, NewRecord(meta).(state := Skipped, error := Some(WhyNot(meta, cfg)))), id)
  {
    var meta := d.meta[id].meta;
    FinishedHandles(cfg, luck, d, id);
    if Worth(d, meta, cfg, id) {
      FinishedStep(luck, d, id, Insert(id, NewRecord(meta)), AfterInsert(cfg, luck, id));
    } else {
      var skipped := SkippedRecord(meta, cfg, meta.audioBytes == 0 || id !in d.audio);
      FinishedStep(luck, d, id, Insert(id, skipped), Pass(Cleanup(id), None));
      FinishedClean(luck, WithRow(d, id, skipped), id);
    }
  }

  /** Nothing but the sentinel is there to change. */
  lemma FinishedBare(luck: Luck, d: Durable, id: string, e: string)
    requires id !in d.rows
    ensures Finished(luck, d, id, Pass([], Some(e))) == d.(done := d.done - {id})
  {
    var update, gone := UpdateError(id, Error, e), RemoveDone(id);
    assert [] + OnError(luck, id, e) == OnError(luck, id, e);
    if luck.lockAndUpdateOk {
      assert OnError(luck, id, e) == [update, gone];
      PerformTwo(d, update, gone);
    } else {
      assert OnError(luck, id, e) == [gone];
      PerformOne(d, gone);
    }
  }

  /** A pass that never got to a row drops the sentinel and does nothing else. */
  lemma NotInsertedLeaves(cfg: Config, luck: Luck, d: Durable, id: string)
    requires id !in d.rows && !Inserted(luck, d, id)
    ensures Handled(cfg, luck, d, id) == d.(done := d.done - {id})
  {
    var p := ProcessOne(cfg, luck, d, id);
    FinishedHandles(cfg, luck, d, id);
    var e := p.error.value;
    if p.effects == [] {
      FinishedBare(luck, d, id, e);
    } else {
      assert p.effects == [RemoveDone(id)] + [];
      FinishedStep(luck, d, id, RemoveDone(id), Pass([], Some(e)));
      FinishedBare(luck, Perform(d, RemoveDone(id)), id, e);
      assert d.done - {id} - {id} == d.done - {id};
    }
  }

  /** What becomes of a call without a row, whatever is configured, recorded and answered. */
  lemma PassLeaves(cfg: Config, luck: Luck, d: Durable, id: string)
    requires id !in d.rows && Named(d, id)
    ensures Left(cfg, luck, d, id, Handled(cfg, luck, d, id))
  {
    if !Inserted(luck, d, id) {
      NotInsertedLeaves(cfg, luck, d, id);
    } else {
      InsertedLeaves(cfg, luck, d, id);
      if Worth(d, d.meta[id].meta, cfg, id) {
        WorthLeaves(cfg, luck, d, id);
      }
    }
  }

  lemma WorthLeaves(cfg: Config, luck: Luck, d: Durable, id: string)
    requires id !in d.rows && Inserted(luck, d, id) && Worth(d, d.meta[id].meta, cfg, id)
    ensures Left(cfg, luck, d, id, Finished(luck, WithRow(d, id, NewRecord(d.meta[id].meta)), id, AfterInsert(cfg, luck, id)))
  {
    if cfg.sttKey != "" && luck.transcribe.Err? {
      UnheardLeaves(cfg, luck, d, id);
    } else if cfg.sttKey != "" && luck.transcriptOk {
      var inserted := WithRow(d, id, NewRecord(d.meta[id].meta));
      var row := NewRecord(d.meta[id].meta).(transcript := Some(luck.transcribe.value), state := Transcribed);
      AfterInsertLeaves(cfg, luck, inserted, id);
      assert d.rows[id := NewRecord(d.meta[id].meta)][id := row] == d.rows[id := row];
      KeptLeaves(cfg, luck, d, id);
    } else {
      UnkeptLeaves(cfg, luck, d, id);
    }
  }

  lemma UnkeptLeaves(cfg: Config, luck: Luck, d: Durable, id: string)
    requires id !in d.rows && Inserted(luck, d, id) && Worth(d, d.meta[id].meta, cfg, id)
    requires cfg.sttKey == "" || (luck.transcribe.Ok? && !luck.transcriptOk)
    ensures Left(cfg, luck, d, id, Finished(luck, WithRow(d, id, NewRecord(d.meta[id].meta)), id, AfterInsert(cfg, luck, id)))
  {
    AfterInsertLeaves(cfg, luck, WithRow(d, id, NewRecord(d.meta[id].meta)), id);
  }

  lemma UnheardLeaves(cfg: Config, luck: Luck, d: Durable, id: string)
    requires id !in d.rows && Sent(cfg, luck, d, id) && luck.transcribe.Err?
    ensures Left(cfg, luck, d, id, Finished(luck, WithRow(d, id, NewRecord(d.meta[id].meta)), id, AfterInsert(cfg, luck, id)))
  {
    FailedTranscriptionLeaves(cfg, luck, WithRow(d, id, NewRecord(d.meta[id].meta)), id);
  }

  lemma KeptLeaves(cfg: Config, luck: Luck, d: Durable, id: string)
    requires id !in d.rows && Kept(cfg, luck, d, id)
    ensures var row := NewRecord(d.meta[id].meta).(transcript := Some(luck.transcribe.value), state := Transcribed);
            var kept := WithRow(d, id, row).(uploads := d.uploads + [id]);
            Left(cfg, luck, d, id, Finished(luck, kept, id, AfterTranscript(cfg, luck, id)))
  {
    var row := NewRecord(d.meta[id].meta).(transcript := Some(luck.transcribe.value), state := Transcribed);
    AfterTranscriptLeaves(cfg, luck, WithRow(d, id, row).(uploads := d.uploads + [id]), id);
  }

  /** A call that has its row is left alone but for its sentinel, unless the query for the row fails:
      then that error is written on it. */
  lemma SecondPassLeaves(cfg: Config, luck: Luck, d: Durable, id: string)
    requires id in d.rows
    ensures Handled(cfg, luck, d, id)
            == if luck.existsOk then d.(done := d.done - {id}) else Errored(luck, d, id, luck.dbError)
  {
    FinishedHandles(cfg, luck, d, id);
    if luck.existsOk {
      assert [RemoveDone(id)] + [] == [RemoveDone(id)];
      PerformOne(d, RemoveDone(id));
    } else {
      FinishedErrored(luck, d, id, luck.dbError);
    }
  }
}
