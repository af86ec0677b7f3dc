/** The voice-call pipeline as the durable effects it issues (call_pipeline.rs). A crash between two
    effects keeps the ones already done and forgets the rest. */
module CallProtocol {
  import opened Text
  import opened Wrappers

  datatype CallMetadata = CallMetadata(
    id: string,
    direction: string,
    number: string,
    startedAt: string,
    durationMs: I64,
    audioSrc: string,
    audioBytes: I64,
    error: Option<string>)

  /** The bytes of `<id>.json`: metadata, or something that does not parse. */
  datatype MetaFile = Parses(meta: CallMetadata) | Corrupt(parseError: string)

  datatype CallState = Recorded | Transcribed | Summarised | Skipped | Error

  datatype CallRecord = CallRecord(
    direction: string,
    number: string,
    startedAt: string,
    durationMs: I64,
    audioSrc: string,
    transcript: Option<string>,
    summary: Option<string>,
    state: CallState,
    error: Option<string>)

  /** Everything that survives a crash: the recordings directory by file stem, the `calls` table,
      and what has left the device: STT uploads and memory entries, by call, in order. */
  datatype Durable = Durable(
    done: set<string>,
    meta: map<string, MetaFile>,
    audio: set<string>,
    rows: map<string, CallRecord>,
    uploads: seq<string>,
    memories: seq<(string, string)>)

  datatype Effect =
    | RemoveDone(id: string)
    | RemoveMeta(id: string)
    | RemoveAudio(id: string)
    | Insert(id: string, record: CallRecord)
    | UpdateError(id: string, state: CallState, error: string)
    | UpdateTranscript(id: string, transcript: string)
    | UpdateSummary(id: string, summary: string)
    | Upload(id: string)
    | SaveMemory(id: string, summary: string)

  function Perform(d: Durable, e: Effect): Durable {
    match e
    case RemoveDone(id) => d.(done := d.done - {id})
    case RemoveMeta(id) => d.(meta := d.meta - {id})
    case RemoveAudio(id) => d.(audio := d.audio - {id})
    case Insert(id, record) => d.(rows := d.rows[id := record])
    case UpdateError(id, state, error) =>
      if id in d.rows then d.(rows := d.rows[id := d.rows[id].(state := state, error := Some(error))]) else d
    case UpdateTranscript(id, transcript) =>
      if id in d.rows then d.(rows := d.rows[id := d.rows[id].(transcript := Some(transcript), state := Transcribed)]) else d
    case UpdateSummary(id, summary) =>
      if id in d.rows then d.(rows := d.rows[id := d.rows[id].(summary := Some(summary), state := Summarised)]) else d
    case Upload(id) => d.(uploads := d.uploads + [id])
    case SaveMemory(id, summary) => d.(memories := d.memories + [(id, summary)])
  }

  function PerformAll(d: Durable, effects: seq<Effect>): Durable
    decreases |effects|
  {
    if |effects| == 0 then d else PerformAll(Perform(d, effects[0]), effects[1..])
  }

  /** `[calls]` and whether an LLM is there to summarise. */
  datatype Config = Config(minDurationMs: nat, sttKey: string, hasProvider: bool)

  /** What one pass over a sentinel meets: which queries succeed, and what the services answer. */
  datatype Luck = Luck(
    existsOk: bool,
    insertOk: bool,
    updateOk: bool,
    transcriptOk: bool,
    summaryOk: bool,
    memoryOk: bool,
    lockAndUpdateOk: bool,
    uploaded: bool,
    dbError: string,
    readError: string,
    transcribe: Result<string, string>,
    summarise: Result<string, string>)

  /** The effects a pass issues, and whether it returned an error. */
  datatype Pass = Pass(effects: seq<Effect>, error: Option<string>)

  /** `duration_ms as u64 < min`: a negative duration wraps and is never too short. */
  predicate TooShort(meta: CallMetadata, cfg: Config) {
    (if meta.durationMs < 0 then meta.durationMs + TWO_64 else meta.durationMs) < cfg.minDurationMs
  }

  function NewRecord(meta: CallMetadata): CallRecord {
    CallRecord(meta.direction, meta.number, meta.startedAt, meta.durationMs, meta.audioSrc, None, None, Recorded, meta.error)
  }

  function ShortReason(durationMs: I64, minDurationMs: nat): string {
    Format(["too short (", SignedDecimal(durationMs), " ms < ", Decimal(minDurationMs), " ms)"])
  }

  function SkipReason(meta: CallMetadata, cfg: Config, badAudio: bool): string {
    if meta.error.Some? then meta.error.value
    else if TooShort(meta, cfg) then ShortReason(meta.durationMs, cfg.minDurationMs)
    else if badAudio then "no audio captured"
    else "recording error"
  }

  /** The row of a call that is not worth transcribing. */
  function SkippedRecord(meta: CallMetadata, cfg: Config, badAudio: bool): CallRecord {
    NewRecord(meta).(state := Skipped, error := Some(SkipReason(meta, cfg, badAudio)))
  }

  function Cleanup(id: string): seq<Effect> { [RemoveAudio(id), RemoveMeta(id), RemoveDone(id)] }

  function CleanupKeepAudio(id: string): seq<Effect> { [RemoveMeta(id), RemoveDone(id)] }

  /** After the transcript is stored. */
  function AfterTranscript(cfg: Config, luck: Luck, id: string): Pass {
    if !cfg.hasProvider then Pass(Cleanup(id), None)
    else match luck.summarise
      case Ok(summary) =>
        if !luck.summaryOk then Pass([], Some(luck.dbError))
        else Pass([UpdateSummary(id, summary)] + (if luck.memoryOk then [SaveMemory(id, summary)] else []) + Cleanup(id), None)
      case Err(e) =>
        if !luck.summaryOk then Pass([], Some(luck.dbError))
        else Pass([UpdateError(id, Transcribed, "summary: " + e)] + Cleanup(id), None)
  }

  /** After the row is inserted as `recorded`. */
  function AfterInsert(cfg: Config, luck: Luck, id: string): Pass {
    if cfg.sttKey == "" then
      if luck.updateOk then Pass([UpdateError(id, Skipped, "no STT API key configured")] + Cleanup(id), None)
      else Pass([], Some(luck.dbError))
    else match luck.transcribe
      case Err(e) =>
        Pass((if luck.uploaded then [Upload(id)] else [])
             + (if luck.updateOk then [UpdateError(id, Error, "stt: " + e)] + CleanupKeepAudio(id) else []),
             Some(if luck.updateOk then e else luck.dbError))
      case Ok(transcript) =>
        if !luck.transcriptOk then Pass([Upload(id)], Some(luck.dbError))
        else
          var rest := AfterTranscript(cfg, luck, id);
          Pass([Upload(id), UpdateTranscript(id, transcript)] + rest.effects, rest.error)
  }

  function ProcessOne(cfg: Config, luck: Luck, d: Durable, id: string): Pass {
    if !luck.existsOk then Pass([], Some(luck.dbError))
    else if id in d.rows then Pass([RemoveDone(id)], None)
    else if id !in d.meta then Pass([RemoveDone(id)], Some("metadata read failed: " + luck.readError))
    else match d.meta[id]
      case Corrupt(e) => Pass([], Some("metadata parse: " + e))
      case Parses(meta) =>
        var badAudio := meta.audioBytes == 0 || id !in d.audio;
        if TooShort(meta, cfg) || badAudio || meta.error.Some? then
          if !luck.insertOk then Pass([], Some(luck.dbError))
          else Pass([Insert(meta.id, SkippedRecord(meta, cfg, badAudio))] + Cleanup(id), None)
        else if !luck.insertOk then Pass([], Some(luck.dbError))
        else
          var rest := AfterInsert(cfg, luck, id);
          Pass([Insert(meta.id, NewRecord(meta))] + rest.effects, rest.error)
  }

  /** What `tick` adds after a failed pass: the error on the row if the lock is free and the update
      succeeds, and the sentinel goes. */
  function OnError(luck: Luck, id: string, error: string): seq<Effect> {
    (if luck.lockAndUpdateOk then [UpdateError(id, Error, error)] else []) + [RemoveDone(id)]
  }

  /** `tick` on one sentinel. */
  function Handle(cfg: Config, luck: Luck, d: Durable, id: string): seq<Effect> {
    var p := ProcessOne(cfg, luck, d, id);
    match p.error
    case None => p.effects
    case Some(e) => p.effects + OnError(luck, id, e)
  }

  // ---- The system: pipeline, crashes and the recorder ------------------------

  /** The pipeline is idle, or has these effects still to issue. */
  datatype System = System(d: Durable, pending: seq<Effect>)

  datatype Step =
    | Pick(id: string, cfg: Config, luck: Luck)
    | Issue
    | Crash
    | WriteAudio(id: string)
    | WriteMeta(id: string, file: MetaFile)
    | WriteDone(id: string)
    | Sweep(id: string)

  /** The recorder only writes files of a call that has no sentinel yet. */
  predicate Enabled(s: System, step: Step) {
    match step
    case Pick(id, _, _) => |s.pending| == 0 && id in s.d.done
    case Issue => |s.pending| > 0
    case Crash => true
    case WriteAudio(id) => id !in s.d.done
    case WriteMeta(id, _) => id !in s.d.done
    case WriteDone(id) => true
    case Sweep(id) => |s.pending| == 0
  }

  function Next(s: System, step: Step): System
    requires Enabled(s, step)
  {
    match step
    case Pick(id, cfg, luck) => s.(pending := Handle(cfg, luck, s.d, id))
    case Issue => System(Perform(s.d, s.pending[0]), s.pending[1..])
    case Crash => s.(pending := [])
    case WriteAudio(id) => s.(d := s.d.(audio := s.d.audio + {id}))
    case WriteMeta(id, file) => s.(d := s.d.(meta := s.d.meta[id := file]))
    case WriteDone(id) => s.(d := s.d.(done := s.d.done + {id}))
    case Sweep(id) => s.(d := s.d.(audio := s.d.audio - {id}, meta := s.d.meta - {id}))
  }

  predicate Runs(s: System, steps: seq<Step>)
    decreases |steps|
  {
    |steps| == 0 || (Enabled(s, steps[0]) && Runs(Next(s, steps[0]), steps[1..]))
  }

  function After(s: System, steps: seq<Step>): System
    requires Runs(s, steps)
    decreases |steps|
  {
    if |steps| == 0 then s else After(Next(s, steps[0]), steps[1..])
  }

  /** The recorder names metadata after its file. */
  predicate NamesFile(step: Step) {
    step.WriteMeta? && step.file.Parses? ==> step.file.meta.id == step.id
  }

  predicate NamesFiles(steps: seq<Step>) {
    forall k :: 0 <= k < |steps| ==> NamesFile(steps[k])
  }

  const EMPTY := System(Durable({}, map[], {}, map[], [], []), [])

  // ---- Safety ----------------------------------------------------------------

  /** When each effect is safe to issue. */
  predicate Permitted(d: Durable, e: Effect) {
    match e
    case RemoveAudio(id) => id in d.rows && (d.rows[id].state == Skipped || d.rows[id].transcript.Some?)
    case Insert(id, record) => id !in d.rows
    case UpdateError(_, state, _) => state != Recorded
    case UpdateTranscript(id, _) => id in d.rows ==> d.rows[id].transcript.None?
    case Upload(id) => id in d.rows && id !in d.uploads && d.rows[id].transcript.None?
    case SaveMemory(id, summary) =>
      id in d.rows && d.rows[id].summary == Some(summary) && forall i :: 0 <= i < |d.memories| ==> d.memories[i].0 != id
    case _ => true
  }

  predicate Safe(d: Durable, pending: seq<Effect>)
    decreases |pending|
  {
    |pending| == 0 || (Permitted(d, pending[0]) && Safe(Perform(d, pending[0]), pending[1..]))
  }

  /** Uploads and memories are once per call and belong to a row. */
  predicate Accounted(d: Durable) {
    && (forall i :: 0 <= i < |d.uploads| ==> d.uploads[i] in d.rows)
    && (forall i, j :: 0 <= i < j < |d.uploads| ==> d.uploads[i] != d.uploads[j])
    && (forall i :: 0 <= i < |d.memories| ==> d.memories[i].0 in d.rows)
    && (forall i, j :: 0 <= i < j < |d.memories| ==> d.memories[i].0 != d.memories[j].0)
  }

  /** The call's metadata, if it can be read, is named after its file. */
  predicate Named(d: Durable, id: string) {
    id in d.meta && d.meta[id].Parses? ==> d.meta[id].meta.id == id
  }

  predicate Sound(d: Durable) {
    Accounted(d) && forall id :: id in d.meta ==> Named(d, id)
  }

  predicate Invariant(s: System) {
    Sound(s.d) && Safe(s.d, s.pending)
  }

  lemma SafeFirst(d: Durable, e: Effect, rest: seq<Effect>)
    requires Permitted(d, e) && Safe(Perform(d, e), rest)
    ensures Safe(d, [e] + rest)
  {
    assert ([e] + rest)[1..] == rest;
  }

  lemma {:induction false} SafeThen(d: Durable, a: seq<Effect>, b: seq<Effect>)
    ensures Safe(d, a + b) <==> Safe(d, a) && Safe(PerformAll(d, a), b)
    decreases |a|
  {
    if |a| == 0 {
      assert a + b == b;
    } else {
      assert (a + b)[1..] == a[1..] + b;
      SafeThen(Perform(d, a[0]), a[1..], b);
    }
  }

  lemma CleanupSafe(d: Durable, id: string)
    requires id in d.rows && (d.rows[id].state == Skipped || d.rows[id].transcript.Some?)
    ensures Safe(d, Cleanup(id))
  {
    var a := Perform(d, RemoveAudio(id));
    SafeFirst(Perform(a, RemoveMeta(id)), RemoveDone(id), []);
    SafeFirst(a, RemoveMeta(id), [RemoveDone(id)]);
    SafeFirst(d, RemoveAudio(id), [RemoveMeta(id), RemoveDone(id)]);
    assert [RemoveAudio(id)] + [RemoveMeta(id), RemoveDone(id)] == Cleanup(id);
  }

  lemma FinishSafe(d: Durable, e: Effect, id: string)
    requires e.UpdateError? && e.state != Recorded
    ensures Safe(d, [e] + Cleanup(id)) <== id in Perform(d, e).rows
              && (Perform(d, e).rows[id].state == Skipped || Perform(d, e).rows[id].transcript.Some?)
    ensures Safe(d, [e] + CleanupKeepAudio(id))
  {
    var a := Perform(d, e);
    if id in a.rows && (a.rows[id].state == Skipped || a.rows[id].transcript.Some?) {
      CleanupSafe(a, id);
      SafeFirst(d, e, Cleanup(id));
    }
    SafeFirst(Perform(a, RemoveMeta(id)), RemoveDone(id), []);
    SafeFirst(a, RemoveMeta(id), [RemoveDone(id)]);
    assert [RemoveMeta(id)] + [RemoveDone(id)] == CleanupKeepAudio(id);
    SafeFirst(d, e, CleanupKeepAudio(id));
  }

  /** No memory entry for this call yet. */
  predicate Unremembered(d: Durable, id: string) {
    forall i :: 0 <= i < |d.memories| ==> d.memories[i].0 != id
  }

  lemma AfterTranscriptSafe(cfg: Config, luck: Luck, d: Durable, id: string)
    requires id in d.rows && d.rows[id].transcript.Some? && Unremembered(d, id)
    ensures Safe(d, AfterTranscript(cfg, luck, id).effects)
  {
    if !cfg.hasProvider {
      CleanupSafe(d, id);
    } else if luck.summarise.Ok? {
      var summary := luck.summarise.value;
      var a := Perform(d, UpdateSummary(id, summary));
      var b := Perform(a, SaveMemory(id, summary));
      CleanupSafe(a, id);
      CleanupSafe(b, id);
      SafeFirst(a, SaveMemory(id, summary), Cleanup(id));
      SafeFirst(d, UpdateSummary(id, summary), [SaveMemory(id, summary)] + Cleanup(id));
      SafeFirst(d, UpdateSummary(id, summary), Cleanup(id));
      assert [UpdateSummary(id, summary)] + ([SaveMemory(id, summary)] + Cleanup(id))
          == [UpdateSummary(id, summary)] + [SaveMemory(id, summary)] + Cleanup(id);
      assert [UpdateSummary(id, summary)] + [] + Cleanup(id) == [UpdateSummary(id, summary)] + Cleanup(id);
    } else {
      FinishSafe(d, UpdateError(id, Transcribed, "summary: " + luck.summarise.error), id);
    }
  }

  lemma AfterInsertSafe(cfg: Config, luck: Luck, d: Durable, id: string)
    requires id in d.rows && d.rows[id].transcript.None? && Unremembered(d, id) && id !in d.uploads
    ensures Safe(d, AfterInsert(cfg, luck, id).effects)
  {
    var up := Perform(d, Upload(id));
    if cfg.sttKey == "" {
      FinishSafe(d, UpdateError(id, Skipped, "no STT API key configured"), id);
    } else if luck.transcribe.Err? {
      var rest := if luck.updateOk then [UpdateError(id, Error, "stt: " + luck.transcribe.error)] + CleanupKeepAudio(id) else [];
      FinishSafe(d, UpdateError(id, Error, "stt: " + luck.transcribe.error), id);
      FinishSafe(up, UpdateError(id, Error, "stt: " + luck.transcribe.error), id);
      assert Safe(d, rest) && Safe(up, rest);
      SafeFirst(d, Upload(id), rest);
      assert [] + rest == rest;
    } else {
      var write := UpdateTranscript(id, luck.transcribe.value);
      var told := Perform(up, write);
      var rest := AfterTranscript(cfg, luck, id).effects;
      AfterTranscriptSafe(cfg, luck, told, id);
      SafeFirst(up, write, rest);
      SafeFirst(d, Upload(id), [write] + rest);
      SafeFirst(d, Upload(id), []);
      assert [Upload(id)] + ([write] + rest) == [Upload(id), write] + rest;
    }
  }

  lemma ProcessOneSafe(cfg: Config, luck: Luck, d: Durable, id: string)
    requires Accounted(d) && (id in d.rows || Named(d, id))
    ensures Safe(d, ProcessOne(cfg, luck, d, id).effects)
  {
    SafeFirst(d, RemoveDone(id), []);
    if luck.existsOk && id !in d.rows && id in d.meta && d.meta[id].Parses? && luck.insertOk {
      var meta := d.meta[id].meta;
      var badAudio := meta.audioBytes == 0 || id !in d.audio;
      if TooShort(meta, cfg) || badAudio || meta.error.Some? {
        var e := Insert(id, SkippedRecord(meta, cfg, badAudio));
        CleanupSafe(Perform(d, e), id);
        SafeFirst(d, e, Cleanup(id));
      } else {
        var e := Insert(id, NewRecord(meta));
        AfterInsertSafe(cfg, luck, Perform(d, e), id);
        SafeFirst(d, e, AfterInsert(cfg, luck, id).effects);
      }
    }
  }

  /** Whatever `tick` meets, it issues every effect only when that is safe. */
  lemma HandleSafe(cfg: Config, luck: Luck, d: Durable, id: string)
    requires Accounted(d) && (id in d.rows || Named(d, id))
    ensures Safe(d, Handle(cfg, luck, d, id))
  {
    ProcessOneSafe(cfg, luck, d, id);
    var p := ProcessOne(cfg, luck, d, id);
    if p.error.Some? {
      var note := UpdateError(id, Error, p.error.value);
      var at := PerformAll(d, p.effects);
      SafeFirst(at, RemoveDone(id), []);
      SafeFirst(Perform(at, note), RemoveDone(id), []);
      SafeFirst(at, note, [RemoveDone(id)]);
      SafeThen(d, p.effects, OnError(luck, id, p.error.value));
      assert [] + [RemoveDone(id)] == [RemoveDone(id)];
    }
  }

  /** Every query and service answers, and there is nobody to transcribe or summarise. */
  const NO_SERVICES := Config(0, "", false)
  const ALL_WELL := Luck(true, true, true, true, true, true, true, true, "", "", Ok(""), Ok(""))

  /** A call without a row whose audio a pass is about to delete. */
  lemma DeletesUnrecorded(d: Durable, before: seq<Effect>, id: string, after: seq<Effect>)
    requires id !in PerformAll(d, before).rows
    ensures !Safe(d, before + ([RemoveAudio(id)] + after))
  {
    SafeThen(d, before, [RemoveAudio(id)] + after);
  }

  lemma PerformTwo(d: Durable, a: Effect, b: Effect)
    ensures PerformAll(d, [a, b]) == Perform(Perform(d, a), b)
  {
    var both, rest := [a, b], [b];
    assert both[1..] == rest && rest[1..] == [];
    assert PerformAll(Perform(d, a), rest) == Perform(Perform(d, a), b);
  }

  lemma MisnamedUnsafe(d: Durable, id: string)
    requires id !in d.rows && !Named(d, id)
    ensures !Safe(d, Handle(NO_SERVICES, ALL_WELL, d, id))
  {
    var m := d.meta[id].meta;
    var badAudio := m.audioBytes == 0 || id !in d.audio;
    var rest := [RemoveMeta(id), RemoveDone(id)];
    if badAudio || m.error.Some? {
      var insert := Insert(m.id, SkippedRecord(m, NO_SERVICES, badAudio));
      assert [insert][1..] == [];
      DeletesUnrecorded(d, [insert], id, rest);
      assert Handle(NO_SERVICES, ALL_WELL, d, id) == [insert] + ([RemoveAudio(id)] + rest);
    } else {
      var insert, skip := Insert(m.id, NewRecord(m)), UpdateError(id, Skipped, "no STT API key configured");
      PerformTwo(d, insert, skip);
      DeletesUnrecorded(d, [insert, skip], id, rest);
      assert Handle(NO_SERVICES, ALL_WELL, d, id) == [insert, skip] + ([RemoveAudio(id)] + rest);
    }
  }

  /** The effect replaces another call's row by a new one. */
  predicate Overwrites(d: Durable, e: Effect) {
    e.Insert? && e.id in d.rows
  }

  predicate SomeOverwrites(d: Durable, effects: seq<Effect>) {
    exists e <- effects :: Overwrites(d, e)
  }

  ghost predicate MayOverwrite(d: Durable, id: string) {
    exists cfg, luck :: SomeOverwrites(d, Handle(cfg, luck, d, id))
  }

  /** Its readable metadata names a call that has a row, while it has none itself. */
  predicate NamesRow(d: Durable, id: string) {
    id !in d.rows && id in d.meta && d.meta[id].Parses? && d.meta[id].meta.id in d.rows
  }

  /** Some pass over `id` may overwrite a row, and so forget its transcript, exactly when its metadata
      names one. */
  lemma PassOverwritesIff(d: Durable, id: string)
    ensures MayOverwrite(d, id) <==> NamesRow(d, id)
  {
    if NamesRow(d, id) {
      StartsByOverwriting(d, id);
    }
    if cfg, luck :| SomeOverwrites(d, Handle(cfg, luck, d, id)) {
      OverwritesNamed(cfg, luck, d, id);
    }
  }

  lemma StartsByOverwriting(d: Durable, id: string)
    requires NamesRow(d, id)
    ensures SomeOverwrites(d, Handle(NO_SERVICES, ALL_WELL, d, id))
  {
    assert Overwrites(d, Handle(NO_SERVICES, ALL_WELL, d, id)[0]);
  }

  lemma OverwritesNamed(cfg: Config, luck: Luck, d: Durable, id: string)
    requires SomeOverwrites(d, Handle(cfg, luck, d, id))
    ensures NamesRow(d, id)
  {
    var e :| e in Handle(cfg, luck, d, id) && Overwrites(d, e);
    InsertsComeFirst(cfg, luck, d, e, id);
  }

  /** A row is only ever inserted under the id the metadata gives, without a transcript. */
  predicate InsertsOwn(d: Durable, e: Effect, id: string) {
    && e.Insert? && id !in d.rows && id in d.meta && d.meta[id].Parses? && e.id == d.meta[id].meta.id
    && e.record.transcript == None && (e.record.state == Recorded || e.record.state == Skipped)
  }

  predicate NoInserts(effects: seq<Effect>) {
    forall x <- effects :: !x.Insert?
  }

  lemma NoInsertsBoth(a: seq<Effect>, b: seq<Effect>)
    requires NoInserts(a) && NoInserts(b)
    ensures NoInserts(a + b)
  {
  }

  lemma AfterTranscriptNoInserts(cfg: Config, luck: Luck, id: string)
    ensures NoInserts(AfterTranscript(cfg, luck, id).effects)
  {
  }

  lemma AfterInsertNoInserts(cfg: Config, luck: Luck, id: string)
    ensures NoInserts(AfterInsert(cfg, luck, id).effects)
  {
    AfterTranscriptNoInserts(cfg, luck, id);
    if cfg.sttKey != "" && luck.transcribe.Ok? {
      NoInsertsBoth([Upload(id), UpdateTranscript(id, luck.transcribe.value)], AfterTranscript(cfg, luck, id).effects);
    }
  }

  lemma InsertsComeFirst(cfg: Config, luck: Luck, d: Durable, e: Effect, id: string)
    requires e in Handle(cfg, luck, d, id) && e.Insert?
    ensures InsertsOwn(d, e, id)
  {
    AfterInsertNoInserts(cfg, luck, id);
    assert e in ProcessOne(cfg, luck, d, id).effects;
  }

  /** Whatever is configured and whatever the services answer, a pass over `id` issues every effect
      only when that is safe. */
  ghost predicate AlwaysSafe(d: Durable, id: string) {
    forall cfg, luck :: Safe(d, Handle(cfg, luck, d, id))
  }

  /** That holds exactly when the call has its row already or its metadata, if it can be read, is named
      after its file. */
  lemma AlwaysSafeIff(d: Durable, id: string)
    requires Accounted(d)
    ensures AlwaysSafe(d, id) <==> id in d.rows || Named(d, id)
  {
    if id in d.rows || Named(d, id) {
      forall cfg, luck
        ensures Safe(d, Handle(cfg, luck, d, id))
      {
        HandleSafe(cfg, luck, d, id);
      }
    } else {
      MisnamedUnsafe(d, id);
    }
  }

  /** Safety does not look at the recordings directory. */
  lemma {:induction false} SafeIgnoresFiles(d: Durable, e: Durable, pending: seq<Effect>)
    requires d.rows == e.rows && d.uploads == e.uploads && d.memories == e.memories
    ensures Safe(d, pending) <==> Safe(e, pending)
    decreases |pending|
  {
    if |pending| > 0 {
      SafeIgnoresFiles(Perform(d, pending[0]), Perform(e, pending[0]), pending[1..]);
    }
  }

  lemma IssueSound(d: Durable, e: Effect)
    requires Sound(d) && Permitted(d, e)
    ensures Sound(Perform(d, e))
  {
  }

  lemma EachStepInvariant(s: System, step: Step)
    requires Invariant(s) && Enabled(s, step) && NamesFile(step)
    ensures Invariant(Next(s, step))
  {
    match step {
      case Pick(id, cfg, luck) => HandleSafe(cfg, luck, s.d, id);
      case Issue => IssueSound(s.d, s.pending[0]);
      case Crash =>
      case _ => SafeIgnoresFiles(s.d, Next(s, step).d, s.pending);
    }
  }

  lemma {:induction false} RunInvariant(s: System, steps: seq<Step>)
    requires Invariant(s) && Runs(s, steps) && NamesFiles(steps)
    ensures Invariant(After(s, steps))
    decreases |steps|
  {
    if |steps| > 0 {
      assert NamesFile(steps[0]);
      EachStepInvariant(s, steps[0]);
      RunInvariant(Next(s, steps[0]), steps[1..]);
    }
  }

  /** The recorder keeps to these names. */
  predicate Keeps(names: (string, CallMetadata) -> bool, steps: seq<Step>) {
    forall k :: 0 <= k < |steps| && steps[k].WriteMeta? && steps[k].file.Parses? ==> names(steps[k].id, steps[k].file.meta)
  }

  /** No run of such a recorder, crashes anywhere, ever has an unsafe effect ahead. */
  ghost predicate AlwaysSafeUnder(names: (string, CallMetadata) -> bool) {
    forall steps :: Runs(EMPTY, steps) && Keeps(names, steps) ==> Safe(After(EMPTY, steps).d, After(EMPTY, steps).pending)
  }

  /** Which recorders keep every run safe: exactly those that name metadata after its file. */
  lemma SafeRecordersIff(names: (string, CallMetadata) -> bool)
    ensures AlwaysSafeUnder(names) <==> forall id, m :: names(id, m) ==> m.id == id
  {
    if id, m :| names(id, m) && m.id != id {
      UnsafeRun(id, m);
      var steps := [WriteMeta(id, Parses(m)), WriteDone(id), Pick(id, NO_SERVICES, ALL_WELL)];
      assert Keeps(names, steps);
    } else {
      forall steps | Runs(EMPTY, steps) && Keeps(names, steps)
        ensures Safe(After(EMPTY, steps).d, After(EMPTY, steps).pending)
      {
        assert NamesFiles(steps);
        RunInvariant(EMPTY, steps);
      }
    }
  }

  /** Writing misnamed metadata and a sentinel and picking it up is enough. */
  lemma UnsafeRun(id: string, m: CallMetadata)
    requires m.id != id
    ensures var steps := [WriteMeta(id, Parses(m)), WriteDone(id), Pick(id, NO_SERVICES, ALL_WELL)];
            Runs(EMPTY, steps) && !Safe(After(EMPTY, steps).d, After(EMPTY, steps).pending)
  {
    var steps := [WriteMeta(id, Parses(m)), WriteDone(id), Pick(id, NO_SERVICES, ALL_WELL)];
    var written := Next(EMPTY, steps[0]);
    var listed := Next(written, steps[1]);
    var picked := Next(listed, steps[2]);
    assert steps[1..][1..] == steps[2..] && steps[2..][1..] == [];
    assert After(listed, steps[2..]) == picked;
    MisnamedUnsafe(listed.d, id);
  }

  /** In every reachable state, crashes anywhere: each call was uploaded to STT at most once and put
      in memory at most once, and both have a row. */
  lemma AtMostOncePerCall(steps: seq<Step>)
    requires Runs(EMPTY, steps) && NamesFiles(steps)
    ensures var d := After(EMPTY, steps).d;
            && (forall i, j :: 0 <= i < j < |d.uploads| ==> d.uploads[i] != d.uploads[j])
            && (forall i, j :: 0 <= i < j < |d.memories| ==> d.memories[i].0 != d.memories[j].0)
            && (forall i :: 0 <= i < |d.uploads| ==> d.uploads[i] in d.rows)
            && (forall i :: 0 <= i < |d.memories| ==> d.memories[i].0 in d.rows)
  {
    RunInvariant(EMPTY, steps);
  }

  /** From every reachable state, every step: processing deletes audio only of a skipped or
      transcribed call; rows stay, never go back to `recorded`, and keep their transcript. */
  lemma EveryStepKeepsCalls(steps: seq<Step>, step: Step, id: string)
    requires Runs(EMPTY, steps) && NamesFiles(steps) && Enabled(After(EMPTY, steps), step)
    ensures var s := After(EMPTY, steps);
            var t := Next(s, step);
            && (step.Issue? && id in s.d.audio && id !in t.d.audio ==>
                  id in s.d.rows && (s.d.rows[id].state == Skipped || s.d.rows[id].transcript.Some?))
            && (id in s.d.rows ==>
                  && id in t.d.rows
                  && (t.d.rows[id].state == Recorded ==> s.d.rows[id].state == Recorded)
                  && (s.d.rows[id].transcript.Some? ==> t.d.rows[id].transcript == s.d.rows[id].transcript))
  {
    RunInvariant(EMPTY, steps);
  }

  // ---- A pass that is not interrupted ----------------------------------------

  function Dropped(effects: seq<Effect>): set<string> {
    set i | 0 <= i < |effects| && effects[i].RemoveDone? :: effects[i].id
  }

  lemma {:induction false} SentinelsLeft(d: Durable, effects: seq<Effect>)
    ensures PerformAll(d, effects).done == d.done - Dropped(effects)
    decreases |effects|
  {
    if |effects| > 0 {
      var rest := effects[1..];
      SentinelsLeft(Perform(d, effects[0]), rest);
      assert forall x :: x in Dropped(effects) <==>
        x in Dropped(rest) || (effects[0].RemoveDone? && effects[0].id == x) by {
        forall x | x in Dropped(rest)
          ensures x in Dropped(effects)
        {
          var i :| 0 <= i < |rest| && rest[i].RemoveDone? && rest[i].id == x;
          assert effects[i + 1] == rest[i];
        }
        assert forall i :: 0 < i < |effects| ==> effects[i] == rest[i - 1];
      }
    }
  }

  /** Every effect of a pass is about the call it was started for. */
  predicate About(effects: seq<Effect>, id: string) {
    forall i :: 0 <= i < |effects| ==> effects[i].id == id
  }

  lemma AboutBoth(a: seq<Effect>, b: seq<Effect>, id: string)
    requires About(a, id) && About(b, id)
    ensures About(a + b, id)
  {
  }

  lemma AfterTranscriptAbout(cfg: Config, luck: Luck, id: string)
    ensures About(AfterTranscript(cfg, luck, id).effects, id)
  {
  }

  lemma AfterInsertAbout(cfg: Config, luck: Luck, id: string)
    ensures About(AfterInsert(cfg, luck, id).effects, id)
  {
    AfterTranscriptAbout(cfg, luck, id);
    if cfg.sttKey != "" && luck.transcribe.Ok? {
      AboutBoth([Upload(id), UpdateTranscript(id, luck.transcribe.value)], AfterTranscript(cfg, luck, id).effects, id);
    }
  }

  lemma ProcessOneAbout(cfg: Config, luck: Luck, d: Durable, id: string)
    requires Sound(d)
    ensures About(ProcessOne(cfg, luck, d, id).effects, id)
  {
    AfterInsertAbout(cfg, luck, id);
    if id in d.meta && d.meta[id].Parses? {
      AboutBoth([Insert(id, NewRecord(d.meta[id].meta))], AfterInsert(cfg, luck, id).effects, id);
    }
  }

  lemma HandleAbout(cfg: Config, luck: Luck, d: Durable, id: string)
    requires Sound(d)
    ensures About(Handle(cfg, luck, d, id), id)
  {
    ProcessOneAbout(cfg, luck, d, id);
  }

  lemma ProcessOneEnds(cfg: Config, luck: Luck, d: Durable, id: string)
    requires ProcessOne(cfg, luck, d, id).error.None?
    ensures var es := ProcessOne(cfg, luck, d, id).effects; |es| > 0 && es[|es| - 1] == RemoveDone(id)
  {
    var rest := AfterTranscript(cfg, luck, id);
    assert rest.error.None? ==> |rest.effects| > 0 && rest.effects[|rest.effects| - 1] == RemoveDone(id);
    var more := AfterInsert(cfg, luck, id);
    assert more.error.None? ==> |more.effects| > 0 && more.effects[|more.effects| - 1] == RemoveDone(id);
  }

  /** A pass that runs to its end removes the sentinel it saw, and only that one. */
  lemma PassClearsItsSentinel(cfg: Config, luck: Luck, d: Durable, id: string)
    requires Sound(d)
    ensures PerformAll(d, Handle(cfg, luck, d, id)).done == d.done - {id}
  {
    var effects := Handle(cfg, luck, d, id);
    SentinelsLeft(d, effects);
    HandleAbout(cfg, luck, d, id);
    HandleEnds(cfg, luck, d, id);
    DropsOnly(effects, id);
  }

  lemma HandleEnds(cfg: Config, luck: Luck, d: Durable, id: string)
    ensures var es := Handle(cfg, luck, d, id); |es| > 0 && es[|es| - 1] == RemoveDone(id)
  {
    if ProcessOne(cfg, luck, d, id).error.None? {
      ProcessOneEnds(cfg, luck, d, id);
    }
  }

  lemma DropsOnly(effects: seq<Effect>, id: string)
    requires About(effects, id) && |effects| > 0 && effects[|effects| - 1] == RemoveDone(id)
    ensures Dropped(effects) == {id}
  {
  }

  lemma {:induction false} PassSound(d: Durable, effects: seq<Effect>)
    requires Sound(d) && Safe(d, effects)
    ensures Sound(PerformAll(d, effects))
    decreases |effects|
  {
    if |effects| > 0 {
      IssueSound(d, effects[0]);
      PassSound(Perform(d, effects[0]), effects[1..]);
    }
  }

  /** A pass run to its end. */
  function Handled(cfg: Config, luck: Luck, d: Durable, id: string): Durable {
    PerformAll(d, Handle(cfg, luck, d, id))
  }

  lemma HandledSound(cfg: Config, luck: Luck, d: Durable, id: string)
    requires Sound(d)
    ensures Sound(Handled(cfg, luck, d, id)) && Handled(cfg, luck, d, id).done == d.done - {id}
  {
    HandleSafe(cfg, luck, d, id);
    PassSound(d, Handle(cfg, luck, d, id));
    PassClearsItsSentinel(cfg, luck, d, id);
  }

  /** `tick` over the sentinels it saw, in the order the directory listed them. */
  function Tick(cfg: Config, luck: nat -> Luck, d: Durable, seen: seq<string>): Durable {
    if |seen| == 0 then d
    else Handled(cfg, luck(|seen| - 1), Tick(cfg, luck, d, seen[..|seen| - 1]), seen[|seen| - 1])
  }

  lemma SeenOneMore(done: set<string>, start: set<string>, seen: seq<string>)
    requires |seen| > 0
    requires forall id :: id in done <==> id in start && id !in seen[..|seen| - 1]
    ensures forall id :: id in done - {seen[|seen| - 1]} <==> id in start && id !in seen
  {
    assert forall id :: id in seen <==> id in seen[..|seen| - 1] || id == seen[|seen| - 1];
  }

  /** A tick that does not crash leaves none of the sentinels it saw, and all the others. */
  lemma {:induction false} TickClearsSentinels(cfg: Config, luck: nat -> Luck, d: Durable, seen: seq<string>)
    requires Sound(d)
    ensures Sound(Tick(cfg, luck, d, seen))
    ensures forall id :: id in Tick(cfg, luck, d, seen).done <==> id in d.done && id !in seen
  {
    if |seen| > 0 {
      var n := |seen| - 1;
      TickClearsSentinels(cfg, luck, d, seen[..n]);
      var before := Tick(cfg, luck, d, seen[..n]);
      HandledSound(cfg, luck(n), before, seen[n]);
      SeenOneMore(before.done, d.done, seen);
    } else {
      assert seen == [];
    }
  }

  // ---- What a crash costs ----------------------------------------------------

  /** Files a pass would transcribe: metadata that reads, says there is audio and no error, and the
      audio. */
  predicate Transcribable(d: Durable, id: string) {
    && id in d.meta && d.meta[id].Parses? && id in d.audio
    && d.meta[id].meta.audioBytes != 0 && d.meta[id].meta.error.None?
  }

  const KEYED := Config(0, "key", false)

  /** Some pass over `id` may upload it exactly when it has no row yet and its files are there: once it
      has a row nothing is retried. */
  lemma PassUploadsIff(d: Durable, id: string)
    ensures (exists cfg, luck :: Upload(id) in Handle(cfg, luck, d, id)) <==> id !in d.rows && Transcribable(d, id)
  {
    if id !in d.rows && Transcribable(d, id) {
      assert Upload(id) == Handle(KEYED, ALL_WELL, d, id)[1];
    }
    forall cfg, luck | id in d.rows || !Transcribable(d, id)
      ensures Upload(id) !in Handle(cfg, luck, d, id)
    {
    }
  }

  predicate NoUploadPending(s: System, id: string) {
    id in s.d.rows && Upload(id) !in s.pending
  }

  lemma EachStepUploadsNothing(s: System, step: Step, id: string)
    requires Enabled(s, step) && NoUploadPending(s, id)
    ensures NoUploadPending(Next(s, step), id)
    ensures id in Next(s, step).d.uploads <==> id in s.d.uploads
  {
    match step {
      case Pick(other, cfg, luck) =>
        if other == id {
          PassUploadsIff(s.d, id);
        } else {
          HandleUploadsOnly(cfg, luck, s.d, other, id);
        }
      case Issue =>
        assert s.pending[0] in s.pending;
      case _ =>
    }
  }

  lemma HandleUploadsOnly(cfg: Config, luck: Luck, d: Durable, other: string, id: string)
    requires other != id
    ensures Upload(id) !in Handle(cfg, luck, d, other)
  {
    assert Upload(id) !in AfterTranscript(cfg, luck, other).effects;
    assert Upload(id) !in AfterInsert(cfg, luck, other).effects;
    assert Upload(id) !in ProcessOne(cfg, luck, d, other).effects;
  }

  lemma {:induction false} UploadsNothing(s: System, steps: seq<Step>, id: string)
    requires Runs(s, steps) && NoUploadPending(s, id)
    ensures id in After(s, steps).d.uploads <==> id in s.d.uploads
    decreases |steps|
  {
    if |steps| > 0 {
      EachStepUploadsNothing(s, steps[0], id);
      UploadsNothing(Next(s, steps[0]), steps[1..], id);
    }
  }

  lemma RunsFrom(s: System, steps: seq<Step>, t: System)
    requires |steps| > 0 && Enabled(s, steps[0]) && t == Next(s, steps[0]) && Runs(t, steps[1..])
    ensures Runs(s, steps) && After(s, steps) == After(t, steps[1..])
  {
  }

  lemma {:induction false} RunsOn(s: System, a: seq<Step>, b: seq<Step>)
    requires Runs(s, a) && Runs(After(s, a), b)
    ensures Runs(s, a + b) && After(s, a + b) == After(After(s, a), b)
    decreases |a|
  {
    if |a| == 0 {
      assert a + b == b;
    } else {
      var both, t := a + b, Next(s, a[0]);
      assert both[1..] == a[1..] + b;
      RunsOn(t, a[1..], b);
      RunsFrom(s, both, t);
    }
  }

  lemma OneStep(s: System, step: Step)
    requires Enabled(s, step)
    ensures Runs(s, [step]) && After(s, [step]) == Next(s, step)
  {
    assert [step][1..] == [];
  }

  /** A quiet system can be brought to one without a sentinel for the call: a pass whose first query
      fails only drops it. */
  lemma DropSentinel(s: System, id: string) returns (steps: seq<Step>)
    requires s.pending == []
    ensures Runs(s, steps) && NamesFiles(steps)
    ensures After(s, steps) == s.(d := s.d.(done := s.d.done - {id}))
  {
    if id !in s.d.done {
      steps := [];
      return;
    }
    var pick := Pick(id, KEYED, ALL_WELL.(existsOk := false, lockAndUpdateOk := false));
    var picked := Next(s, pick);
    assert picked.pending == [RemoveDone(id)];
    OneStep(s, pick);
    OneStep(picked, Issue);
    RunsOn(s, [pick], [Issue]);
    steps := [pick] + [Issue];
  }

  const SOUND_CALL := CallMetadata("", "", "", "", 0, "", 1, None)

  /** The files of a call without a sentinel, and then the sentinel. */
  lemma RecordCall(s: System, id: string) returns (steps: seq<Step>)
    requires s.pending == [] && id !in s.d.done
    ensures Runs(s, steps) && NamesFiles(steps)
    ensures var t := After(s, steps);
            t.pending == [] && t.d.rows == s.d.rows && id in t.d.done && Transcribable(t.d, id)
  {
    var write := WriteMeta(id, Parses(SOUND_CALL.(id := id)));
    var a := Next(s, WriteAudio(id));
    var b := Next(a, write);
    OneStep(s, WriteAudio(id));
    OneStep(a, write);
    OneStep(b, WriteDone(id));
    RunsOn(s, [WriteAudio(id)], [write]);
    RunsOn(s, [WriteAudio(id)] + [write], [WriteDone(id)]);
    steps := [WriteAudio(id)] + [write] + [WriteDone(id)];
  }

  /** A recorded call, picked up and processed as far as its upload. */
  lemma UploadCall(s: System, id: string) returns (steps: seq<Step>)
    requires s.pending == [] && id in s.d.done && id !in s.d.rows && Transcribable(s.d, id)
    ensures Runs(s, steps) && NamesFiles(steps) && id in After(s, steps).d.uploads
  {
    var pick := Pick(id, KEYED, ALL_WELL);
    var a := Next(s, pick);
    assert a.pending[0].Insert? && a.pending[1] == Upload(id);
    var b := Next(a, Issue);
    OneStep(s, pick);
    OneStep(a, Issue);
    OneStep(b, Issue);
    RunsOn(s, [pick], [Issue]);
    RunsOn(s, [pick] + [Issue], [Issue]);
    steps := [pick] + [Issue] + [Issue];
    assert Next(b, Issue).d.uploads == b.d.uploads + [id];
  }

  /** The call is uploaded, now or in some run from here. */
  ghost predicate CanBeUploaded(s: System, id: string) {
    exists steps :: Runs(s, steps) && NamesFiles(steps) && id in After(s, steps).d.uploads
  }

  /** What a crash costs: from a state with nothing in flight, as every crash leaves, a call can still
      be uploaded, or has been, exactly when it has no row or was uploaded before. A pass that dies
      between its insert and its upload loses the call for good. */
  lemma CrashLosesCallIff(s: System, id: string)
    requires s.pending == []
    ensures CanBeUploaded(s, id) <==> id in s.d.uploads || id !in s.d.rows
  {
    if id in s.d.uploads {
      assert Runs(s, []) && After(s, []) == s && NamesFiles([]);
    } else if id !in s.d.rows {
      var clear := DropSentinel(s, id);
      var record := RecordCall(After(s, clear), id);
      RunsOn(s, clear, record);
      var upload := UploadCall(After(s, clear + record), id);
      RunsOn(s, clear + record, upload);
      assert NamesFiles(clear + record + upload);
    } else {
      forall steps | Runs(s, steps)
        ensures id !in After(s, steps).d.uploads
      {
        UploadsNothing(s, steps, id);
      }
    }
  }
}
