/**
 * What one sample goes through: read all chunks against the global memory, merge what is new,
 * repeat until a pass brings nothing new or the passes are used up, then answer.
 */
module Rollout {
  import opened Arith
  import opened Text
  import opened Wrappers

  type Token = int

  /** A user prompt, before the template text is put around its fields. */
  datatype Message =
    | ChunkPrompt(prompt: string, memory: string, chunk: string)
    | MergePrompt(prompt: string, memories: string)
    | FinalPrompt(prompt: string, memory: string)

  /**
   * The parts the agents do not define. `reply(i, n, m)` is what the model answers to the `n`-th
   * request of sample `i` when that request is `m`: any function, so any outcome of sampling.
   */
  datatype World = World(
    reply: (nat, nat, Message) -> string,
    decode: seq<Token> -> string,
    noNewInfo: string -> bool,
    padToken: Token)

  datatype Config = Config(chunkSize: nat, maxPasses: nat) {
    predicate Valid() {
      chunkSize >= 1 && maxPasses >= 1
    }
  }

  datatype Sample = Sample(prompt: string, contextIds: seq<Token>, contextLength: nat)

  /** What a sample leaves behind: its requests in order, its last memory, the passes it used. */
  datatype Outcome = Outcome(msgs: seq<Message>, memory: string, passUsed: nat)

  /** Python's `xs[from:to]` for non-negative bounds. */
  function Slice<T>(xs: seq<T>, from: nat, to: nat): seq<T> {
    var hi := if to < |xs| then to else |xs|;
    if from < hi then xs[from..hi] else []
  }

  function Unpad(tokens: seq<Token>, padToken: Token): seq<Token> {
    if tokens == [] then []
    else if tokens[0] != padToken then [tokens[0]] + Unpad(tokens[1..], padToken)
    else Unpad(tokens[1..], padToken)
  }

  function ChunkMessage(w: World, c: Config, s: Sample, memory: string, step: nat): Message {
    ChunkPrompt(s.prompt, memory,
                w.decode(Unpad(Slice(s.contextIds, step * c.chunkSize, (step + 1) * c.chunkSize), w.padToken)))
  }

  predicate HasChunk(c: Config, s: Sample, step: nat) {
    s.contextLength > step * c.chunkSize
  }

  /** `math.ceil(context_length / chunk_size)` */
  function ChunkCount(c: Config, s: Sample): (n: nat)
    requires c.Valid()
  {
    (s.contextLength + c.chunkSize - 1) / c.chunkSize
  }

  lemma ChunkCountBounds(c: Config, s: Sample)
    requires c.Valid()
    ensures ChunkCount(c, s) * c.chunkSize >= s.contextLength
    ensures ChunkCount(c, s) * c.chunkSize < s.contextLength + c.chunkSize
  {
    var a := s.contextLength + c.chunkSize - 1;
    assert a == a / c.chunkSize * c.chunkSize + a % c.chunkSize;
  }

  /** The batch agent asks "is there context left", the async agent counts chunks: the same. */
  lemma HasChunkIffCounted(c: Config, s: Sample, step: nat)
    requires c.Valid()
    ensures HasChunk(c, s, step) <==> step < ChunkCount(c, s)
  {
    ChunkCountBounds(c, s);
    if step < ChunkCount(c, s) {
      LessTimes(step, ChunkCount(c, s), c.chunkSize);
    } else if step > ChunkCount(c, s) {
      LessTimes(ChunkCount(c, s), step, c.chunkSize);
    }
  }

  function Prepend(m: Message, o: Outcome): Outcome {
    o.(msgs := [m] + o.msgs)
  }

  function Prefix(sent: seq<Message>, o: Outcome): Outcome {
    o.(msgs := sent + o.msgs)
  }

  function Answer(s: Sample, memory: string, passUsed: nat): Outcome {
    Outcome([FinalPrompt(s.prompt, memory)], memory, passUsed)
  }

  function WithReply(w: World, news: seq<string>, reply: string): seq<string> {
    if w.noNewInfo(reply) then news else news + [reply]
  }

  /**
   * The rest of the rollout of sample `i`, from the `step`-th chunk of pass `pass` on; `n` requests
   * have been made, and `news` holds the informative replies of this pass.
   */
  function FromChunk(w: World, c: Config, i: nat, s: Sample, n: nat,
                     memory: string, pass: nat, step: nat, news: seq<string>): Outcome
    requires c.Valid() && pass < c.maxPasses
    decreases c.maxPasses - pass, 2, ChunkCount(c, s) - step
  {
    if step < ChunkCount(c, s) then
      var m := ChunkMessage(w, c, s, memory, step);
      Prepend(m, FromChunk(w, c, i, s, n + 1, memory, pass, step + 1, WithReply(w, news, w.reply(i, n, m))))
    else if news == [] then
      Answer(s, memory, pass + 1)
    else
      FromMerge(w, c, i, s, n, memory, pass, news)
  }

  function FromMerge(w: World, c: Config, i: nat, s: Sample, n: nat,
                     memory: string, pass: nat, news: seq<string>): Outcome
    requires c.Valid() && pass < c.maxPasses
    decreases c.maxPasses - pass, 1
  {
    var m := MergePrompt(s.prompt, MergeText(Some(memory), news));
    var merged := Strip(w.reply(i, n, m));
    Prepend(m, if pass + 1 >= c.maxPasses then Answer(s, merged, pass + 1)
               else FromChunk(w, c, i, s, n + 1, merged, pass + 1, 0, []))
  }

  /** The whole rollout of sample `i`. */
  function RolloutOf(w: World, c: Config, i: nat, s: Sample): Outcome
    requires c.Valid()
  {
    FromChunk(w, c, i, s, 0, NO_MEMORY, 0, 0, [])
  }

  lemma PrefixPrepend(sent: seq<Message>, m: Message, o: Outcome)
    ensures Prefix(sent, Prepend(m, o)) == Prefix(sent + [m], o)
  {
    assert sent + ([m] + o.msgs) == (sent + [m]) + o.msgs;
  }

  /** The informative replies among the recorded ones. */
  function Known(memories: seq<Option<string>>): seq<string> {
    if memories == [] then []
    else
      var init := Known(memories[..|memories| - 1]);
      if memories[|memories| - 1].Some? then init + [memories[|memories| - 1].value] else init
  }

  lemma KnownSnoc(memories: seq<Option<string>>, m: Option<string>)
    ensures Known(memories + [m]) == Known(memories) + if m.Some? then [m.value] else []
  {
    assert (memories + [m])[..|memories|] == memories;
  }

  /** One recorded conversation turn, as the trainer gets it. */
  datatype Row = Row(sample: nat, isFinal: bool, msg: Message, reply: string, passUsed: int)
}
