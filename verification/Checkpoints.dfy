/** Checkpoints of a running job (background.rs). */
module Checkpoints {
  import opened Messages
  import opened Wrappers

  type Bytes = seq<bv8>

  const CHECKPOINT_MAX_BYTES: nat := 256 * 1024
  const IMAGE_DROPPED := "[image attached; dropped on checkpoint, re-capture if needed]"

  datatype Checkpoint = Checkpoint(
    task: string,
    iterations: nat,
    tokensSoFar: nat,
    messages: seq<Message>,
    systemPromptSnapshot: Option<string>,
    schema: nat)

  /** MessagePack, abstractly: a total encoding and a decoding that may fail. */
  datatype Codec = Codec(encode: Checkpoint -> Bytes, decode: Bytes -> Option<Checkpoint>) {
    ghost predicate Lawful() {
      forall c :: decode(encode(c)) == Some(c)
    }
  }

  function SanitiseMessage(m: Message): Message {
    if m.ToolResult? && m.image.Some? then
      m.(content := if m.content == "" then IMAGE_DROPPED else m.content + "\n" + IMAGE_DROPPED, image := None)
    else m
  }

  function Sanitise(ms: seq<Message>): (clean: seq<Message>)
    ensures |clean| == |ms|
    ensures forall i :: 0 <= i < |ms| ==> clean[i] == SanitiseMessage(ms[i])
  {
    if |ms| == 0 then [] else [SanitiseMessage(ms[0])] + Sanitise(ms[1..])
  }

  predicate NoImages(ms: seq<Message>) {
    forall i :: 0 <= i < |ms| ==> ms[i].ToolResult? ==> ms[i].image.None?
  }

  /** `Checkpoint::new`. */
  function New(task: string, iterations: nat, messages: seq<Message>): Checkpoint {
    Checkpoint(task, iterations, 0, Sanitise(messages), None, 1)
  }

  /** The checkpoint after `k` removals at position 1. */
  function Shrunk(c: Checkpoint, k: nat): Checkpoint
    requires k == 0 || k < |c.messages|
  {
    if k == 0 then c else c.(messages := [c.messages[0]] + c.messages[k + 1..])
  }

  /** Small enough to store, or nothing left to drop. */
  predicate Settled(c: Checkpoint, codec: Codec) {
    |codec.encode(c)| <= CHECKPOINT_MAX_BYTES || |c.messages| <= 2
  }

  /** The fewest removals that settle. */
  predicate Fewest(c: Checkpoint, codec: Codec, dropped: nat) {
    && (dropped == 0 || dropped < |c.messages|)
    && Settled(Shrunk(c, dropped), codec)
    && forall k :: 0 <= k < dropped ==> !Settled(Shrunk(c, k), codec)
  }

  /** The number of messages dropped, as a function. */
  function Drops(c: Checkpoint, codec: Codec, k: nat): (d: nat)
    requires k == 0 || k < |c.messages|
    ensures k <= d && (d == 0 || d < |c.messages|)
    ensures Settled(Shrunk(c, d), codec) && forall j :: k <= j < d ==> !Settled(Shrunk(c, j), codec)
    decreases |c.messages| - k
  {
    if Settled(Shrunk(c, k), codec) then k else Drops(c, codec, k + 1)
  }

  function Stored(c: Checkpoint, codec: Codec): Checkpoint {
    Shrunk(c, Drops(c, codec, 0))
  }

  /** `encode`: keep the first message, drop the oldest others until it fits or two are left. The
      blob encodes the checkpoint with the fewest messages dropped that settles. */
  method Encode(c: Checkpoint, codec: Codec) returns (blob: Bytes)
    ensures blob == codec.encode(Stored(c, codec))
    ensures exists dropped :: Fewest(c, codec, dropped) && blob == codec.encode(Shrunk(c, dropped))
  {
    blob := codec.encode(c);
    ghost var dropped := 0;
    if |blob| > CHECKPOINT_MAX_BYTES {
      var shrunk := c;
      while |shrunk.messages| > 2 && |blob| > CHECKPOINT_MAX_BYTES
        invariant dropped == 0 || dropped < |c.messages|
        invariant shrunk == Shrunk(c, dropped) && blob == codec.encode(shrunk)
        invariant forall k :: 0 <= k < dropped ==> !Settled(Shrunk(c, k), codec)
        decreases |shrunk.messages|
      {
        shrunk := shrunk.(messages := shrunk.messages[..1] + shrunk.messages[2..]);
        blob := codec.encode(shrunk);
        dropped := dropped + 1;
        assert shrunk.messages == Shrunk(c, dropped).messages;
      }
    }
    assert Fewest(c, codec, dropped);
    FewestIsStored(c, codec, dropped);
  }

  /** There is one fewest number of removals, and it determines what is stored. */
  lemma FewestIsStored(c: Checkpoint, codec: Codec, dropped: nat)
    requires Fewest(c, codec, dropped)
    ensures dropped == Drops(c, codec, 0) && Shrunk(c, dropped) == Stored(c, codec)
  {
  }

  /** What comes back from a stored checkpoint: same task and counters, no images, the first
      message and an unbroken tail of the rest; everything if it fits. */
  lemma DecodeStored(task: string, iterations: nat, messages: seq<Message>, codec: Codec)
    requires codec.Lawful()
    ensures var c := New(task, iterations, messages);
            var s := Stored(c, codec);
            && codec.decode(codec.encode(s)) == Some(s)
            && s.task == task && s.iterations == iterations
            && NoImages(s.messages)
            && (|messages| > 0 ==> |s.messages| > 0 && s.messages[0] == SanitiseMessage(messages[0]))
            && (exists k :: 0 <= k <= |messages| && s.messages[if |messages| > 0 then 1 else 0..] == c.messages[k..])
            && (|codec.encode(c)| <= CHECKPOINT_MAX_BYTES ==> s == c)
            && (|messages| >= 2 ==> |s.messages| >= 2)
  {
    var c := New(task, iterations, messages);
    var s := Stored(c, codec);
    var d := Drops(c, codec, 0);
    if d == 0 {
      assert s.messages == c.messages;
      assert s.messages[if |messages| > 0 then 1 else 0..] == c.messages[if |messages| > 0 then 1 else 0..];
    } else {
      assert s.messages[1..] == c.messages[d + 1..];
      assert !Settled(Shrunk(c, d - 1), codec);
    }
  }

  /** What a checkpoint keeps of a message: everything, but for an image, which a note at the end of the
      text stands for. */
  lemma SanitisedSays(m: Message)
    ensures var clean, dropped := SanitiseMessage(m), m.ToolResult? && m.image.Some?;
            && (!dropped ==> clean == m)
            && (dropped ==>
                  && clean == m.(content := clean.content, image := None)
                  && m.content <= clean.content && IMAGE_DROPPED <= clean.content[|clean.content| - |IMAGE_DROPPED|..])
  {
  }
}
