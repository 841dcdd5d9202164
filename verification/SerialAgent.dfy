/**
 * The serial agent: every sample reads its chunks one after the other, each request carrying the memory
 * that the reply before it left. There is a batched form and a form for one sample.
 */
module SerialAgent {
  import opened Arith
  import opened Sequences
  import opened Wrappers
  import opened Text
  import opened Rollout
  import opened Transcript
  import opened BatchAgent

  /**
   * The memory as the prompt shows it. The batched form asks whether there is a memory (`is not None`),
   * the form for one sample whether it is truthy, which an empty reply is not.
   */
  function Shown(memory: Option<string>, truthy: bool): string {
    if memory.None? || (truthy && memory.value == "") then NO_MEMORY else memory.value
  }

  /** The memory of sample `i` after its first `k` chunks. */
  function MemoryAfter(w: World, c: Config, i: nat, s: Sample, truthy: bool, k: nat): Option<string>
    decreases k, 0
  {
    if k == 0 then None else Some(w.reply(i, k - 1, PromptAt(w, c, i, s, truthy, k - 1)))
  }

  function PromptAt(w: World, c: Config, i: nat, s: Sample, truthy: bool, k: nat): Message
    decreases k, 1
  {
    ChunkMessage(w, c, s, Shown(MemoryAfter(w, c, i, s, truthy, k), truthy), k)
  }

  /** The requests for the first `k` chunks. */
  function Prompts(w: World, c: Config, i: nat, s: Sample, truthy: bool, k: nat): (r: seq<Message>)
    ensures |r| == k
  {
    if k == 0 then [] else Prompts(w, c, i, s, truthy, k - 1) + [PromptAt(w, c, i, s, truthy, k - 1)]
  }

  function LastPrompt(w: World, c: Config, i: nat, s: Sample, truthy: bool): Message
    requires c.Valid()
  {
    FinalPrompt(s.prompt, Shown(MemoryAfter(w, c, i, s, truthy, ChunkCount(c, s)), truthy))
  }

  /** All requests of sample `i`. */
  function Requests(w: World, c: Config, i: nat, s: Sample, truthy: bool): seq<Message>
    requires c.Valid()
  {
    Prompts(w, c, i, s, truthy, ChunkCount(c, s)) + [LastPrompt(w, c, i, s, truthy)]
  }

  // ----- the form for one sample

  /** `Failure` stands for the assertion `step < max_chunks`; it fails exactly for too long a context. */
  method RolloutOne(w: World, c: Config, i: nat, s: Sample, maxChunks: nat) returns (r: Result<Outcome>)
    requires c.Valid()
    ensures r.Failure? <==> s.contextLength > maxChunks * c.chunkSize
    ensures r.Success? ==> IsSerialRun(w, c, i, s, true, r.value.msgs)
    ensures r.Success? ==> r.value.msgs == Requests(w, c, i, s, true)
    ensures r.Success? ==> r.value.memory == Shown(MemoryAfter(w, c, i, s, true, ChunkCount(c, s)), true)
  {
    RequestsAreRun(w, c, i, s, true);
    hide IsSerialRun;
    TooLongIff(c, s, maxChunks);
    var step: nat := 0;
    var msgs: seq<Message> := [];
    var memory: Option<string> := None;
    while true
      invariant step <= ChunkCount(c, s) && step <= maxChunks
      invariant msgs == Prompts(w, c, i, s, true, step) && memory == MemoryAfter(w, c, i, s, true, step)
      decreases ChunkCount(c, s) - step
    {
      HasChunkIffCounted(c, s, step);
      if step * c.chunkSize >= s.contextLength {
        break;
      }
      if step >= maxChunks {
        return Failure;
      }
      var m := ChunkMessage(w, c, s, Shown(memory, true), step);
      memory := Some(w.reply(i, step, m));
      msgs := msgs + [m];
      step := step + 1;
    }
    msgs := msgs + [FinalPrompt(s.prompt, Shown(memory, true))];
    r := Success(Outcome(msgs, Shown(memory, true), 1));
  }

  lemma TooLongIff(c: Config, s: Sample, maxChunks: nat)
    requires c.Valid()
    ensures ChunkCount(c, s) > maxChunks <==> s.contextLength > maxChunks * c.chunkSize
  {
    HasChunkIffCounted(c, s, maxChunks);
  }

  // ----- the two forms compared

  /** Some chunk of the batched rollout is answered with nothing at all. */
  ghost predicate EmptyReply(w: World, c: Config, i: nat, s: Sample, n: nat) {
    exists k :: 0 < k <= n && MemoryAfter(w, c, i, s, false, k) == Some("")
  }

  lemma {:induction false} SameUntil(w: World, c: Config, i: nat, s: Sample, n: nat)
    requires !EmptyReply(w, c, i, s, n)
    ensures MemoryAfter(w, c, i, s, false, n) == MemoryAfter(w, c, i, s, true, n)
    ensures Shown(MemoryAfter(w, c, i, s, false, n), false) == Shown(MemoryAfter(w, c, i, s, true, n), true)
    ensures Prompts(w, c, i, s, false, n) == Prompts(w, c, i, s, true, n)
  {
    if n > 0 {
      SameUntil(w, c, i, s, n - 1);
    }
  }

  /** The first empty reply. */
  lemma {:induction false} FirstEmpty(w: World, c: Config, i: nat, s: Sample, n: nat) returns (k: nat)
    requires EmptyReply(w, c, i, s, n)
    ensures 0 < k <= n && MemoryAfter(w, c, i, s, false, k) == Some("") && !EmptyReply(w, c, i, s, k - 1)
  {
    if EmptyReply(w, c, i, s, n - 1) {
      k := FirstEmpty(w, c, i, s, n - 1);
    } else {
      k := n;
    }
  }

  lemma {:induction false} PromptsAt(w: World, c: Config, i: nat, s: Sample, truthy: bool, n: nat, k: nat)
    requires k < n
    ensures Prompts(w, c, i, s, truthy, n)[k] == PromptAt(w, c, i, s, truthy, k)
  {
    if k < n - 1 {
      PromptsAt(w, c, i, s, truthy, n - 1, k);
    }
  }

  /** The two forms make the same requests if and only if no chunk is answered with the empty text. */
  lemma SameIffNoEmptyReply(w: World, c: Config, i: nat, s: Sample)
    requires c.Valid()
    ensures Requests(w, c, i, s, false) == Requests(w, c, i, s, true) <==> !EmptyReply(w, c, i, s, ChunkCount(c, s))
  {
    hide Prompts, MemoryAfter, Shown;
    if !EmptyReply(w, c, i, s, ChunkCount(c, s)) {
      SameUntil(w, c, i, s, ChunkCount(c, s));
    } else {
      var k := FirstEmpty(w, c, i, s, ChunkCount(c, s));
      EmptyShowsDifferently(w, c, i, s, k);
      RequestMemory(w, c, i, s, false, k);
      RequestMemory(w, c, i, s, true, k);
    }
  }

  lemma EmptyShowsDifferently(w: World, c: Config, i: nat, s: Sample, k: nat)
    requires k > 0 && MemoryAfter(w, c, i, s, false, k) == Some("") && !EmptyReply(w, c, i, s, k - 1)
    ensures Shown(MemoryAfter(w, c, i, s, false, k), false) != Shown(MemoryAfter(w, c, i, s, true, k), true)
  {
    SameUntil(w, c, i, s, k - 1);
  }

  function MemoryField(m: Message): string {
    if m.MergePrompt? then m.memories else m.memory
  }

  /** Request `k` shows the memory after the first `k` chunks. */
  lemma RequestMemory(w: World, c: Config, i: nat, s: Sample, truthy: bool, k: nat)
    requires c.Valid() && k <= ChunkCount(c, s)
    ensures k < |Requests(w, c, i, s, truthy)|
    ensures MemoryField(Requests(w, c, i, s, truthy)[k]) == Shown(MemoryAfter(w, c, i, s, truthy, k), truthy)
  {
    if k < ChunkCount(c, s) {
      PromptsAt(w, c, i, s, truthy, ChunkCount(c, s), k);
    }
  }

  // ----- what the requests are

  /** The memory that request `k` has to show, from the reply to the request before it. */
  function Carried(w: World, i: nat, truthy: bool, msgs: seq<Message>, k: nat): string
    requires k <= |msgs|
  {
    if k == 0 || (truthy && w.reply(i, k - 1, msgs[k - 1]) == "") then "No previous memory"
    else w.reply(i, k - 1, msgs[k - 1])
  }

  /** The chunks of the context in order, each against the reply before it, and the answer. */
  ghost predicate IsSerialRun(w: World, c: Config, i: nat, s: Sample, truthy: bool, msgs: seq<Message>) {
    && msgs != [] && Covers(c, s, |msgs| - 1)
    && (forall k :: 0 <= k < |msgs| - 1 ==> ShowsChunk(w, c, s, msgs[k], Carried(w, i, truthy, msgs, k), k))
    && msgs[|msgs| - 1] == FinalPrompt(s.prompt, Carried(w, i, truthy, msgs, |msgs| - 1))
  }

  lemma CarriedIs(w: World, c: Config, i: nat, s: Sample, truthy: bool, k: nat)
    requires c.Valid() && k <= ChunkCount(c, s)
    ensures k <= |Requests(w, c, i, s, truthy)|
    ensures Carried(w, i, truthy, Requests(w, c, i, s, truthy), k) == Shown(MemoryAfter(w, c, i, s, truthy, k), truthy)
  {
    hide ChunkMessage;
    if k > 0 {
      PromptsAt(w, c, i, s, truthy, ChunkCount(c, s), k - 1);
    }
  }

  /** The requests of either form are such a run over the sample's own context. */
  lemma RequestsAreRun(w: World, c: Config, i: nat, s: Sample, truthy: bool)
    requires c.Valid()
    ensures IsSerialRun(w, c, i, s, truthy, Requests(w, c, i, s, truthy))
  {
    hide ShowsChunk, Covers, Shown, MemoryAfter, Carried, ChunkMessage;
    var msgs, n := Requests(w, c, i, s, truthy), ChunkCount(c, s);
    CountCovers(c, s);
    forall k | 0 <= k < n
      ensures ShowsChunk(w, c, s, msgs[k], Carried(w, i, truthy, msgs, k), k)
    {
      PromptsAt(w, c, i, s, truthy, n, k);
      CarriedIs(w, c, i, s, truthy, k);
      ChunkMessageShows(w, c, s, Shown(MemoryAfter(w, c, i, s, truthy, k), truthy), k);
    }
    CarriedIs(w, c, i, s, truthy, n);
  }

  function ChunkTexts(msgs: seq<Message>): (r: seq<string>)
    ensures |r| == |msgs| && forall k :: 0 <= k < |r| ==> r[k] == if msgs[k].ChunkPrompt? then msgs[k].chunk else ""
  {
    seq(|msgs|, k requires 0 <= k < |msgs| => if msgs[k].ChunkPrompt? then msgs[k].chunk else "")
  }

  /**
   * The chunks that the requests of a run show are, put together, the first `contextLength` tokens without
   * pad tokens: nothing is read twice or left out, for a context that is padded behind its length.
   */
  lemma ReadsTheContext(w: World, c: Config, i: nat, s: Sample, truthy: bool, msgs: seq<Message>)
      returns (ts: seq<seq<Token>>)
    requires IsSerialRun(w, c, i, s, truthy, msgs)
    requires forall j :: s.contextLength <= j < |s.contextIds| ==> s.contextIds[j] == w.padToken
    ensures AreTokens(w, ChunkTexts(msgs[..|msgs| - 1]), ts)
    ensures NonPadTokens(Flatten(ts), s.contextIds, 0, s.contextLength, w.padToken)
  {
    hide IsChunkText, Covers, NonPadTokens, Carried;
    ts := ChunksAreTheContext(w, c, s, ChunkTexts(msgs[..|msgs| - 1]));
  }

  // ----- the budget of the dataset

  /** `math.ceil(a / b)` */
  function CeilDiv(a: nat, b: nat): nat
    requires b >= 1
  {
    (a + b - 1) / b
  }

  /** The chunk budget and the prompt budget after the alignment; `Failure` when neither is given. */
  function AlignBudget(chunkSize: nat, maxChunks: Option<nat>, maxPrompt: Option<nat>): Result<(nat, nat)>
    requires chunkSize >= 1
  {
    if maxPrompt.Some? then Success((CeilDiv(maxPrompt.value, chunkSize), CeilDiv(maxPrompt.value, chunkSize) * chunkSize))
    else if maxChunks.Some? then Success((maxChunks.value, maxChunks.value * chunkSize))
    else Failure
  }

  /** The aligned budgets agree, and the prompt budget only grows, by less than a chunk. */
  lemma AlignedBudget(chunkSize: nat, maxChunks: Option<nat>, maxPrompt: Option<nat>)
    requires chunkSize >= 1
    ensures AlignBudget(chunkSize, maxChunks, maxPrompt).Failure? <==> maxChunks.None? && maxPrompt.None?
    ensures var r := AlignBudget(chunkSize, maxChunks, maxPrompt);
      r.Success? ==>
        && r.value.1 == r.value.0 * chunkSize
        && (maxPrompt.Some? ==> maxPrompt.value <= r.value.1 < maxPrompt.value + chunkSize)
        && (maxPrompt.None? ==> maxChunks == Some(r.value.0))
  {
    if maxPrompt.Some? {
      var a := maxPrompt.value + chunkSize - 1;
      assert a == a / chunkSize * chunkSize + a % chunkSize;
    }
  }

  /** So a context within the aligned prompt budget never trips the assertion of the rollout. */
  method RolloutWithinBudget(w: World, c: Config, i: nat, s: Sample, maxChunks: Option<nat>, maxPrompt: Option<nat>)
      returns (r: Result<Outcome>)
    requires c.Valid() && !(maxChunks.None? && maxPrompt.None?)
    requires s.contextLength <= AlignBudget(c.chunkSize, maxChunks, maxPrompt).value.1
    ensures r.Success? && r.value.msgs == Requests(w, c, i, s, true) && IsSerialRun(w, c, i, s, true, r.value.msgs)
  {
    AlignedBudget(c.chunkSize, maxChunks, maxPrompt);
    var budget := AlignBudget(c.chunkSize, maxChunks, maxPrompt).value;
    r := RolloutOne(w, c, i, s, budget.0);
  }

  // ----- the batched form

  /** Where sample `i` is after `step` rounds of the batch. */
  ghost predicate SampleAt(w: World, c: Config, i: nat, s: Sample, memory: Option<string>, sent: seq<Message>, step: nat)
    requires c.Valid()
  {
    var k := Dispatched(c, s, step);
    memory == MemoryAfter(w, c, i, s, false, k) && sent == Prompts(w, c, i, s, false, k)
  }

  /** How many chunks of a sample have been sent in `step` rounds. */
  function Dispatched(c: Config, s: Sample, step: nat): nat
    requires c.Valid()
  {
    if step < ChunkCount(c, s) then step else ChunkCount(c, s)
  }

  /** `ctx_length > step * chunk_size` */
  function ActiveMask(c: Config, batch: seq<Sample>, step: nat): (r: seq<bool>)
    ensures |r| == |batch|
    ensures forall i :: 0 <= i < |batch| ==> r[i] == HasChunk(c, batch[i], step)
  {
    seq(|batch|, i requires 0 <= i < |batch| => HasChunk(c, batch[i], step))
  }

  /** `memory[mask] = values` */
  function Assigned(memory: seq<Option<string>>, mask: seq<bool>, values: seq<string>): (r: seq<Option<string>>)
    requires |memory| == |mask| && |values| == |Indices(mask)|
    ensures |r| == |memory|
  {
    if mask == [] then []
    else
      var n := |mask| - 1;
      if mask[n] then Assigned(memory[..n], mask[..n], values[..|values| - 1]) + [Some(values[|values| - 1])]
      else Assigned(memory[..n], mask[..n], values) + [memory[n]]
  }

  lemma {:induction false} AssignedOff(memory: seq<Option<string>>, mask: seq<bool>, values: seq<string>, i: nat)
    requires |memory| == |mask| && |values| == |Indices(mask)| && i < |mask| && !mask[i]
    ensures Assigned(memory, mask, values)[i] == memory[i]
  {
    var n := |mask| - 1;
    if i < n {
      AssignedOff(memory[..n], mask[..n], if mask[n] then values[..|values| - 1] else values, i);
    }
  }

  lemma {:induction false} AssignedOn(memory: seq<Option<string>>, mask: seq<bool>, values: seq<string>, k: nat)
    requires |memory| == |mask| && |values| == |Indices(mask)| && k < |values|
    ensures Indices(mask)[k] < |mask| && Assigned(memory, mask, values)[Indices(mask)[k]] == Some(values[k])
  {
    var n := |mask| - 1;
    if !mask[n] {
      AssignedOn(memory[..n], mask[..n], values, k);
    } else if k < |values| - 1 {
      AssignedOn(memory[..n], mask[..n], values[..|values| - 1], k);
    }
  }

  predicate NoneActive(mask: seq<bool>) {
    forall i :: 0 <= i < |mask| ==> !mask[i]
  }

  /** The request that sample `i` makes in round `step`. */
  function RoundMessage(w: World, c: Config, s: Sample, memory: Option<string>, step: nat): Message {
    ChunkMessage(w, c, s, Shown(memory, false), step)
  }

  /** The chunk requests after a round. */
  function Extended(w: World, c: Config, batch: seq<Sample>, memory: seq<Option<string>>, sent: seq<seq<Message>>, step: nat)
      : (r: seq<seq<Message>>)
    requires |memory| == |batch| == |sent|
    ensures |r| == |batch|
  {
    seq(|batch|, i requires 0 <= i < |batch| =>
      if HasChunk(c, batch[i], step) then sent[i] + [RoundMessage(w, c, batch[i], memory[i], step)] else sent[i])
  }

  ghost predicate BatchAt(w: World, c: Config, batch: seq<Sample>, memory: seq<Option<string>>, sent: seq<seq<Message>>, step: nat) {
    && c.Valid() && |memory| == |batch| == |sent|
    && forall i :: 0 <= i < |batch| ==> SampleAt(w, c, i, batch[i], memory[i], sent[i], step)
  }

  /** The replies of a round: each sample is answered on its own request, of which it is the `step`-th. */
  ghost predicate Answered(w: World, c: Config, batch: seq<Sample>, memory: seq<Option<string>>, step: nat, replies: seq<string>)
    requires |memory| == |batch|
  {
    var idx := Indices(ActiveMask(c, batch, step));
    && |replies| == |idx|
    && forall k :: 0 <= k < |idx| ==>
         replies[k] == w.reply(idx[k], step, RoundMessage(w, c, batch[idx[k]], memory[idx[k]], step))
  }

  lemma SampleMoves(w: World, c: Config, i: nat, s: Sample, memory: Option<string>, sent: seq<Message>, step: nat)
    requires c.Valid() && SampleAt(w, c, i, s, memory, sent, step)
    ensures HasChunk(c, s, step) ==>
      SampleAt(w, c, i, s, Some(w.reply(i, step, RoundMessage(w, c, s, memory, step))),
               sent + [RoundMessage(w, c, s, memory, step)], step + 1)
    ensures !HasChunk(c, s, step) ==> SampleAt(w, c, i, s, memory, sent, step + 1)
  {
    HasChunkIffCounted(c, s, step);
  }

  lemma IndexOf(mask: seq<bool>, i: nat) returns (k: nat)
    requires i < |mask| && mask[i]
    ensures k < |Indices(mask)| && Indices(mask)[k] == i
  {
    IndicesComplete(mask, i);
    k :| 0 <= k < |Indices(mask)| && Indices(mask)[k] == i;
  }

  /** A round takes every active sample one chunk further and leaves the others as they are. */
  lemma NextRound(w: World, c: Config, batch: seq<Sample>, memory: seq<Option<string>>, sent: seq<seq<Message>>, step: nat,
                  replies: seq<string>)
    requires BatchAt(w, c, batch, memory, sent, step) && Answered(w, c, batch, memory, step, replies)
    ensures BatchAt(w, c, batch, Assigned(memory, ActiveMask(c, batch, step), replies),
                    Extended(w, c, batch, memory, sent, step), step + 1)
  {
    var mask := ActiveMask(c, batch, step);
    var memory', sent' := Assigned(memory, mask, replies), Extended(w, c, batch, memory, sent, step);
    hide Assigned, SampleAt, RoundMessage, Indices, HasChunk;
    forall i | 0 <= i < |batch|
      ensures SampleAt(w, c, i, batch[i], memory'[i], sent'[i], step + 1)
    {
      SampleMoves(w, c, i, batch[i], memory[i], sent[i], step);
      if mask[i] {
        var k := IndexOf(mask, i);
        AssignedOn(memory, mask, replies, k);
      } else {
        AssignedOff(memory, mask, replies, i);
      }
    }
  }

  /** A round without active samples changes nothing. */
  lemma IdleRound(w: World, c: Config, batch: seq<Sample>, memory: seq<Option<string>>, sent: seq<seq<Message>>, step: nat)
    requires BatchAt(w, c, batch, memory, sent, step) && NoneActive(ActiveMask(c, batch, step))
    ensures BatchAt(w, c, batch, memory, sent, step + 1)
    ensures forall i :: 0 <= i < |batch| ==>
      memory[i] == MemoryAfter(w, c, i, batch[i], false, ChunkCount(c, batch[i]))
      && sent[i] + [FinalPrompt(batch[i].prompt, Shown(memory[i], false))] == Requests(w, c, i, batch[i], false)
  {
    hide MemoryAfter, Shown, Prompts;
    forall i | 0 <= i < |batch|
      ensures SampleAt(w, c, i, batch[i], memory[i], sent[i], step + 1) && ChunkCount(c, batch[i]) <= step
    {
      HasChunkIffCounted(c, batch[i], step);
      assert !ActiveMask(c, batch, step)[i];
    }
  }

  class BatchedSerialAgent {
    const w: World
    const c: Config
    const batch: seq<Sample>

    var step: nat
    var memory: seq<Option<string>>
    var activeMask: seq<bool>
    var isFinal: bool
    var finalMaskList: seq<seq<bool>>
    var sampleIndexList: seq<seq<nat>>

    /** The chunk requests made so far, sample by sample. */
    ghost var sent: seq<seq<Message>>

    ghost predicate Valid()
      reads this
    {
      BatchAt(w, c, batch, memory, sent, step)
    }

    /** `start` */
    constructor (w: World, c: Config, batch: seq<Sample>)
      requires c.Valid()
      ensures Valid() && !isFinal && step == 0 && finalMaskList == [] && sampleIndexList == []
      ensures this.w == w && this.c == c && this.batch == batch
    {
      this.w, this.c, this.batch := w, c, batch;
      step, isFinal := 0, false;
      memory := seq(|batch|, _ => None);
      activeMask := [];
      finalMaskList, sampleIndexList := [], [];
      sent := seq(|batch|, _ => []);
    }

    /** The message to sample `i` of this turn. */
    function MessageOf(i: nat): Message
      requires i < |batch| && i < |memory|
      reads this
    {
      if isFinal then FinalPrompt(batch[i].prompt, Shown(memory[i], false))
      else RoundMessage(w, c, batch[i], memory[i], step)
    }

    /** The samples that get a message: all of them in the final turn, the active ones before. */
    function Receivers(): seq<nat>
      reads this
    {
      if isFinal then UpTo(|batch|) else Indices(activeMask)
    }

    method Action() returns (messages: seq<Message>)
      requires Valid() && !isFinal
      modifies this`activeMask, this`isFinal, this`finalMaskList, this`sampleIndexList
      ensures Valid() && activeMask == ActiveMask(c, batch, step) && isFinal == NoneActive(activeMask)
      ensures finalMaskList == old(finalMaskList) + [Flags(|Receivers()|, isFinal)]
      ensures sampleIndexList == old(sampleIndexList) + [Receivers()]
      ensures |messages| == |Receivers()|
      ensures forall k :: 0 <= k < |messages| ==> Receivers()[k] < |batch| && messages[k] == MessageOf(Receivers()[k])
    {
      hide SampleAt, RoundMessage, Shown, Indices;
      activeMask := ActiveMask(c, batch, step);
      isFinal := NoneActive(activeMask);
      var idx := Receivers();
      messages := [];
      for k := 0 to |idx|
        invariant |messages| == k
        invariant forall j :: 0 <= j < k ==> idx[j] < |batch| && messages[j] == MessageOf(idx[j])
      {
        messages := messages + [MessageOf(idx[k])];
      }
      finalMaskList := finalMaskList + [Flags(|idx|, isFinal)];
      sampleIndexList := sampleIndexList + [idx];
    }

    /** The replies become the memories of the active samples; the answers of the final turn do not. */
    method Update(replies: seq<string>)
      requires Valid() && activeMask == ActiveMask(c, batch, step) && isFinal == NoneActive(activeMask)
      requires !isFinal ==> Answered(w, c, batch, memory, step, replies)
      modifies this`memory, this`step, this`sent
      ensures Valid() && step == old(step) + 1
      ensures memory == if isFinal then old(memory) else Assigned(old(memory), activeMask, replies)
      ensures isFinal ==> sent == old(sent)
    {
      hide Assigned, Extended, Indices, SampleAt;
      if !isFinal {
        NextRound(w, c, batch, memory, sent, step, replies);
        sent := Extended(w, c, batch, memory, sent, step);
        memory := Assigned(memory, activeMask, replies);
      } else {
        IdleRound(w, c, batch, memory, sent, step);
      }
      step := step + 1;
    }
  }

  predicate AtMostChunks(c: Config, batch: seq<Sample>, most: nat)
    requires c.Valid()
  {
    forall i :: 0 <= i < |batch| ==> ChunkCount(c, batch[i]) <= most
  }

  lemma SomeoneActive(c: Config, batch: seq<Sample>, step: nat, most: nat)
    requires c.Valid() && AtMostChunks(c, batch, most) && !NoneActive(ActiveMask(c, batch, step))
    ensures step < most
  {
    var i :| 0 <= i < |batch| && ActiveMask(c, batch, step)[i];
    HasChunkIffCounted(c, batch[i], step);
  }

  /** The model answers each message of the turn. */
  method Generate(w: World, idx: seq<nat>, step: nat, messages: seq<Message>) returns (replies: seq<string>)
    requires |messages| == |idx|
    ensures |replies| == |idx| && forall k :: 0 <= k < |idx| ==> replies[k] == w.reply(idx[k], step, messages[k])
  {
    replies := [];
    for k := 0 to |idx|
      invariant |replies| == k && forall j :: 0 <= j < k ==> replies[j] == w.reply(idx[j], step, messages[j])
    {
      replies := replies + [w.reply(idx[k], step, messages[k])];
    }
  }

  /** Every sample has made the requests of its own serial rollout and has the memory these leave. */
  ghost predicate AllServed(w: World, c: Config, batch: seq<Sample>, requests: seq<seq<Message>>, memory: seq<Option<string>>)
    requires c.Valid()
  {
    && |requests| == |memory| == |batch|
    && forall i :: 0 <= i < |batch| ==>
         && IsSerialRun(w, c, i, batch[i], false, requests[i])
         && requests[i] == Requests(w, c, i, batch[i], false)
         && memory[i] == MemoryAfter(w, c, i, batch[i], false, ChunkCount(c, batch[i]))
  }

  /** One final row for each sample, all in the last turn. */
  ghost predicate FinalRowsLast(n: nat, sampleIndex: seq<nat>, finalMask: seq<bool>) {
    exists before: seq<nat> :: sampleIndex == before + UpTo(n) && finalMask == Flags(|before|, false) + Flags(n, true)
  }

  /** All requests, the answered ones and those of the final turn. */
  function WithFinal(sent: seq<seq<Message>>, messages: seq<Message>): (r: seq<seq<Message>>)
    requires |sent| == |messages|
    ensures |r| == |sent| && forall i :: 0 <= i < |r| ==> r[i] == sent[i] + [messages[i]]
  {
    seq(|sent|, i requires 0 <= i < |sent| => sent[i] + [messages[i]])
  }

  lemma Served(w: World, c: Config, batch: seq<Sample>, memory: seq<Option<string>>, sent: seq<seq<Message>>, step: nat,
               messages: seq<Message>)
    requires BatchAt(w, c, batch, memory, sent, step) && NoneActive(ActiveMask(c, batch, step))
    requires |messages| == |batch|
    requires forall i :: 0 <= i < |batch| ==> messages[i] == FinalPrompt(batch[i].prompt, Shown(memory[i], false))
    ensures AllServed(w, c, batch, WithFinal(sent, messages), memory)
  {
    hide IsSerialRun;
    IdleRound(w, c, batch, memory, sent, step);
    forall i | 0 <= i < |batch|
      ensures IsSerialRun(w, c, i, batch[i], false, Requests(w, c, i, batch[i], false))
    {
      RequestsAreRun(w, c, i, batch[i], false);
    }
  }

  /** The rows before the final turn: none of them is final. */
  ghost predicate NoFinalRow(sampleIndexList: seq<seq<nat>>, finalMaskList: seq<seq<bool>>) {
    Flatten(finalMaskList) == Flags(|Flatten(sampleIndexList)|, false)
  }

  lemma RowsGrow(sampleIndexList: seq<seq<nat>>, finalMaskList: seq<seq<bool>>, idx: seq<nat>)
    requires NoFinalRow(sampleIndexList, finalMaskList)
    ensures NoFinalRow(sampleIndexList + [idx], finalMaskList + [Flags(|idx|, false)])
    ensures idx == UpTo(|idx|) ==>
      FinalRowsLast(|idx|, Flatten(sampleIndexList + [idx]), Flatten(finalMaskList + [Flags(|idx|, true)]))
  {
    FlattenSnoc(sampleIndexList, idx);
    FlattenSnoc(finalMaskList, Flags(|idx|, false));
    FlattenSnoc(finalMaskList, Flags(|idx|, true));
  }

  /**
   * The loop over the turns. Every sample makes exactly the requests of its own serial rollout, whatever
   * else is in the batch; the last turn holds one final row for each sample, and no other row is final.
   */
  method RunBatched(w: World, c: Config, batch: seq<Sample>, ghost most: nat)
      returns (ghost requests: seq<seq<Message>>, memory: seq<Option<string>>, sampleIndex: seq<nat>, finalMask: seq<bool>,
               turns: nat)
    requires c.Valid() && AtMostChunks(c, batch, most)
    ensures AllServed(w, c, batch, requests, memory) && turns <= most + 1
    ensures FinalRowsLast(|batch|, sampleIndex, finalMask)
  {
    hide BatchAt, AllServed, Answered, ActiveMask, Indices, NoFinalRow, FinalRowsLast, Flatten, Shown, AtMostChunks,
         RoundMessage, Assigned;
    var agent := new BatchedSerialAgent(w, c, batch);
    requests, turns := [], 0;
    StartRows();
    while !agent.isFinal
      invariant fresh(agent) && agent.Valid() && agent.w == w && agent.c == c && agent.batch == batch
      invariant turns == agent.step <= most + if agent.isFinal then 1 else 0
      invariant !agent.isFinal ==> NoFinalRow(agent.sampleIndexList, agent.finalMaskList)
      invariant agent.isFinal ==> AllServed(w, c, batch, requests, agent.memory)
      invariant agent.isFinal ==>
        FinalRowsLast(|batch|, Flatten(agent.sampleIndexList), Flatten(agent.finalMaskList))
      decreases if agent.isFinal then 0 else 1 + most - turns
    {
      ghost var indexList, maskList := agent.sampleIndexList, agent.finalMaskList;
      BatchSizes(agent.w, agent.c, batch, agent.memory, agent.sent, agent.step);
      var messages := agent.Action();
      var idx := agent.Receivers();
      RowsGrow(indexList, maskList, idx);
      var replies := Generate(w, idx, agent.step, messages);
      if agent.isFinal {
        Served(w, c, batch, agent.memory, agent.sent, agent.step, messages);
        requests := WithFinal(agent.sent, messages);
      } else {
        SomeoneActive(c, batch, agent.step, most);
        RoundAnswered(w, c, batch, agent.memory, agent.step, replies, messages);
      }
      agent.Update(replies);
      turns := turns + 1;
    }
    memory, sampleIndex, finalMask := agent.memory, Flatten(agent.sampleIndexList), Flatten(agent.finalMaskList);
  }

  lemma StartRows()
    ensures NoFinalRow([], [])
  {
  }

  lemma BatchSizes(w: World, c: Config, batch: seq<Sample>, memory: seq<Option<string>>, sent: seq<seq<Message>>, step: nat)
    requires BatchAt(w, c, batch, memory, sent, step)
    ensures |memory| == |batch| == |sent|
  {
  }

  lemma RoundAnswered(w: World, c: Config, batch: seq<Sample>, memory: seq<Option<string>>, step: nat, replies: seq<string>,
                      messages: seq<Message>)
    requires var idx := Indices(ActiveMask(c, batch, step));
      && |memory| == |batch| && |messages| == |replies| == |idx|
      && forall k :: 0 <= k < |idx| ==>
           replies[k] == w.reply(idx[k], step, messages[k])
           && messages[k] == RoundMessage(w, c, batch[idx[k]], memory[idx[k]], step)
    ensures Answered(w, c, batch, memory, step, replies)
  {
  }
}
