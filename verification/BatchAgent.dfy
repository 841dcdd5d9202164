/** `MemoryAgent`: the class behind the lockstep machine, with the fields of the source. */
module BatchAgent {
  import opened Text
  import opened Wrappers
  import opened Rollout
  import opened BatchMachine
  import opened Transcript

  /** `torch.arange(len(mask))[mask]` */
  function Indices(mask: seq<bool>): (r: seq<nat>)
    ensures forall k :: 0 <= k < |r| ==> r[k] < |mask| && mask[r[k]]
  {
    if mask == [] then []
    else
      var init := Indices(mask[..|mask| - 1]);
      if mask[|mask| - 1] then init + [|mask| - 1] else init
  }

  lemma {:induction false} IndicesComplete(mask: seq<bool>, i: nat)
    requires i < |mask| && mask[i]
    ensures i in Indices(mask)
  {
    if i < |mask| - 1 {
      IndicesComplete(mask[..|mask| - 1], i);
    } else {
      var r := Indices(mask);
      assert r[|r| - 1] == i;
    }
  }

  lemma {:induction false} IndicesIncrease(mask: seq<bool>)
    ensures forall j, k :: 0 <= j < k < |Indices(mask)| ==> Indices(mask)[j] < Indices(mask)[k]
  {
    if mask != [] {
      IndicesIncrease(mask[..|mask| - 1]);
    }
  }

  lemma {:induction false} AllIndices(mask: seq<bool>)
    requires forall i :: 0 <= i < |mask| ==> mask[i]
    ensures Indices(mask) == seq(|mask|, i => i)
  {
    if mask != [] {
      AllIndices(mask[..|mask| - 1]);
    }
  }

  /** `torch.full(n, flag)` */
  function Flags(n: nat, flag: bool): (r: seq<bool>)
    ensures |r| == n && forall k :: 0 <= k < n ==> r[k] == flag
  {
    seq(n, k => flag)
  }

  /** `np.full(n, current_pass)` */
  function PassRow(n: nat, pass: nat): (r: seq<int>)
    ensures |r| == n && forall k :: 0 <= k < n ==> r[k] == pass
  {
    seq(n, k => pass)
  }

  /** What the chunk turns of this pass recorded for sample `i`. */
  function Column(memories: seq<seq<Option<string>>>, i: nat): (r: seq<Option<string>>)
    requires forall t :: 0 <= t < |memories| ==> i < |memories[t]|
    ensures |r| == |memories|
    ensures forall t :: 0 <= t < |memories| ==> r[t] == memories[t][i]
  {
    seq(|memories|, t requires 0 <= t < |memories| => memories[t][i])
  }

  lemma {:induction false} KnownEmptyIffNone(column: seq<Option<string>>)
    ensures Known(column) == [] <==> forall t :: 0 <= t < |column| ==> column[t].None?
  {
    if column != [] {
      KnownEmptyIffNone(column[..|column| - 1]);
      assert column[|column| - 1].None? || Known(column) != [];
    }
  }

  function TrackAt(sent: seq<seq<Message>>, converged: seq<bool>, memory: seq<Option<string>>,
                   chunkMemories: seq<seq<Option<string>>>, passUsed: seq<int>, i: nat): Track
    requires i < |sent| && i < |converged| && i < |memory| && i < |passUsed|
    requires forall t :: 0 <= t < |chunkMemories| ==> i < |chunkMemories[t]|
  {
    Track(sent[i], converged[i], memory[i], Column(chunkMemories, i), passUsed[i])
  }

  function TracksFrom(n: nat, sent: seq<seq<Message>>, converged: seq<bool>, memory: seq<Option<string>>,
                      chunkMemories: seq<seq<Option<string>>>, passUsed: seq<int>): (r: seq<Track>)
    requires |sent| == |converged| == |memory| == |passUsed| == n
    requires forall t :: 0 <= t < |chunkMemories| ==> |chunkMemories[t]| == n
    ensures |r| == n
    ensures forall i :: 0 <= i < n ==> r[i] == TrackAt(sent, converged, memory, chunkMemories, passUsed, i)
  {
    seq(n, i requires 0 <= i < n => TrackAt(sent, converged, memory, chunkMemories, passUsed, i))
  }

  /** The samples that take part in a turn. */
  function TurnMask(c: Config, batch: seq<Sample>, phase: Phase, chunkStep: nat, converged: seq<bool>): (mask: seq<bool>)
    requires |converged| == |batch|
    ensures |mask| == |batch|
    ensures forall i :: 0 <= i < |batch| ==> mask[i] == Takes(c, batch[i], phase, chunkStep, converged[i])
  {
    seq(|batch|, i requires 0 <= i < |batch| => Takes(c, batch[i], phase, chunkStep, converged[i]))
  }

  /** The memory as the prompt shows it: the placeholder before the first merge, then the stripped text. */
  ghost predicate IsMemoryText(memory: Option<string>, shown: string) {
    if memory.None? then shown == "No previous memory" else Trims(memory.value, shown)
  }

  /** `m` asks sample `s` about chunk `step` of its own context. */
  ghost predicate AsksChunk(w: World, c: Config, s: Sample, m: Message, memory: Option<string>, step: nat) {
    m.ChunkPrompt? && IsMemoryText(memory, m.memory) && ShowsChunk(w, c, s, m, m.memory, step)
  }

  lemma ChunkMessageAsks(w: World, c: Config, s: Sample, memory: Option<string>, step: nat)
    ensures AsksChunk(w, c, s, ChunkMessage(w, c, s, DecodeText(memory), step), memory, step)
  {
    hide ShowsChunk, Strip, Trims;
    ChunkMessageShows(w, c, s, DecodeText(memory), step);
    if memory.Some? {
      StripTrims(memory.value);
    }
  }

  class MemoryAgent {
    const w: World
    const c: Config
    const batch: seq<Sample>

    var phase: Phase
    var passNum: nat
    var chunkStep: nat
    var globalMemory: seq<Option<string>>
    var chunkMemories: seq<seq<Option<string>>>
    var converged: seq<bool>
    var samplePassUsed: seq<int>
    var activeMask: seq<bool>
    var mergeMask: seq<bool>
    var sampleIndexList: seq<seq<nat>>
    var finalMaskList: seq<seq<bool>>
    var isDone: bool
    ghost var sent: seq<seq<Message>>

    ghost predicate Shaped()
      reads `globalMemory, `chunkMemories, `converged, `samplePassUsed, `sent
    {
      && c.Valid()
      && |sent| == |converged| == |globalMemory| == |samplePassUsed| == |batch|
      && (forall t :: 0 <= t < |chunkMemories| ==> |chunkMemories[t]| == |batch|)
    }

    ghost function View(): (st: State)
      requires Shaped()
      reads `phase, `passNum, `chunkStep, `isDone, `globalMemory, `chunkMemories, `converged, `samplePassUsed, `sent
      ensures |st.tracks| == |batch|
    {
      State(phase, passNum, chunkStep, isDone,
            TracksFrom(|batch|, sent, converged, globalMemory, chunkMemories, samplePassUsed))
    }

    ghost predicate Valid()
      reads `phase, `passNum, `chunkStep, `isDone, `globalMemory, `chunkMemories, `converged, `samplePassUsed, `sent
    {
      Shaped() && Consistent(w, c, batch, View())
    }

    function SendMask(): (mask: seq<bool>)
      requires |converged| == |batch|
      reads `phase, `chunkStep, `converged
      ensures |mask| == |batch|
    {
      TurnMask(c, batch, phase, chunkStep, converged)
    }

    ghost function MessageOf(i: nat): Message
      requires Shaped() && i < |batch|
      reads `phase, `chunkStep, `globalMemory, `chunkMemories, `converged, `samplePassUsed, `sent
    {
      MessageTo(w, c, batch[i], phase, chunkStep, globalMemory[i], Column(chunkMemories, i))
    }

    constructor (w: World, c: Config, batch: seq<Sample>)
      requires c.Valid()
      ensures Valid() && View() == Start(|batch|)
      ensures this.w == w && this.c == c && this.batch == batch
      ensures sampleIndexList == [] && finalMaskList == []
    {
      this.w, this.c, this.batch := w, c, batch;
      phase, passNum, chunkStep, isDone := ChunkPhase, 0, 0, false;
      globalMemory := seq(|batch|, i => None);
      chunkMemories := [];
      converged := seq(|batch|, i => false);
      samplePassUsed := seq(|batch|, i => -1);
      activeMask, mergeMask, sampleIndexList, finalMaskList := [], [], [], [];
      sent := seq(|batch|, i => []);
      new;
      assert View().tracks == Start(|batch|).tracks;
      StartConsistent(w, c, batch);
    }

    /** Marks the samples whose pass brought nothing new. */
    method CheckPassConvergence()
      requires Shaped()
      modifies `converged, `samplePassUsed
      ensures Shaped() && View().tracks == SettleAll(old(View().tracks), passNum)
    {
      for i := 0 to |batch|
        invariant Shaped()
        invariant forall j :: i <= j < |batch| ==> View().tracks[j] == old(View().tracks)[j]
        invariant forall j :: 0 <= j < i ==> View().tracks[j] == Settle(old(View().tracks)[j], passNum)
      {
        if converged[i] {
          continue;
        }
        var hasNewInfo := exists t :: 0 <= t < |chunkMemories| && chunkMemories[t][i].Some?;
        KnownEmptyIffNone(Column(chunkMemories, i));
        if !hasNewInfo {
          converged := converged[i := true];
          if samplePassUsed[i] < 0 {
            samplePassUsed := samplePassUsed[i := passNum + 1];
          }
        }
      }
    }

    /** Gives the samples that never converged the number of the last pass. */
    method FinalizeSamplePassUsed(lastPass: nat)
      requires Shaped()
      modifies `samplePassUsed
      ensures Shaped() && View().tracks == FinalizeAll(old(View().tracks), lastPass)
    {
      var finalPass := if lastPass < 1 then 1 else lastPass;
      var passUsed := samplePassUsed;
      samplePassUsed := seq(|batch|, i requires 0 <= i < |batch| == |passUsed| =>
        if passUsed[i] < 0 then finalPass else passUsed[i]);
    }

    /** `bool(self.converged.all())` */
    method AllHaveConverged() returns (all: bool)
      requires Shaped()
      ensures all == AllConverged(View().tracks)
    {
      all := forall i :: 0 <= i < |batch| ==> converged[i];
      assert forall i :: 0 <= i < |batch| ==> View().tracks[i].converged == converged[i];
    }

    /** The pass is read: skip to the answer if every sample has converged, else merge. */
    method FinishPass()
      requires Shaped() && phase == ChunkPhase
      modifies `converged, `samplePassUsed, `passNum, `phase
      ensures Shaped() && View() == EndPass(old(View()))
    {
      CheckPassConvergence();
      var allConverged := AllHaveConverged();
      if allConverged {
        passNum := passNum + 1;
        FinalizeSamplePassUsed(passNum);
        phase := FinalPhase;
      } else {
        phase := MergePhase;
      }
    }

    /** `messages` are the prompts of this turn, one for each sample that takes part, in order. */
    ghost predicate Asked(messages: seq<Message>)
      reads this
    {
      && Shaped()
      && var idx := Indices(SendMask());
      && |messages| == |idx| && (forall k :: 0 <= k < |idx| ==> messages[k] == MessageOf(idx[k]))
      && (phase == ChunkPhase ==> activeMask == SendMask())
      && (phase == MergePhase ==> mergeMask == SendMask())
    }

    /** The turn is on record: who was asked, and whether these are the final answers. */
    twostate predicate OnRecord(messages: seq<Message>)
      requires |converged| == |batch|
      reads this
    {
      && sampleIndexList == old(sampleIndexList) + [Indices(SendMask())]
      && finalMaskList == old(finalMaskList) + [Flags(|messages|, phase == FinalPhase)]
    }

    method ChunkMessages(sampleIndex: seq<nat>) returns (messages: seq<Message>)
      requires Shaped() && phase == ChunkPhase
      requires forall k :: 0 <= k < |sampleIndex| ==> sampleIndex[k] < |batch|
      ensures |messages| == |sampleIndex|
      ensures forall k :: 0 <= k < |messages| ==> messages[k] == MessageOf(sampleIndex[k])
      ensures AskTheirChunks(sampleIndex, messages)
    {
      hide AsksChunk, ChunkMessage, DecodeText;
      messages := [];
      for k := 0 to |sampleIndex|
        invariant |messages| == k
        invariant forall j :: 0 <= j < k ==> messages[j] == MessageOf(sampleIndex[j])
      {
        var i := sampleIndex[k];
        messages := messages + [ChunkMessage(w, c, batch[i], DecodeText(globalMemory[i]), chunkStep)];
      }
      MessagesAsk(sampleIndex, messages);
    }

    lemma MessagesAsk(sampleIndex: seq<nat>, messages: seq<Message>)
      requires Shaped() && phase == ChunkPhase && |messages| == |sampleIndex|
      requires forall k :: 0 <= k < |sampleIndex| ==> sampleIndex[k] < |batch| && messages[k] == MessageOf(sampleIndex[k])
      ensures AskTheirChunks(sampleIndex, messages)
    {
      hide AsksChunk, ChunkMessage, DecodeText;
      forall k | 0 <= k < |messages|
        ensures AsksChunk(w, c, batch[sampleIndex[k]], messages[k], globalMemory[sampleIndex[k]], chunkStep)
      {
        ChunkMessageAsks(w, c, batch[sampleIndex[k]], globalMemory[sampleIndex[k]], chunkStep);
      }
    }

    /** Each of these samples is asked about the current chunk of its own context, against its own memory. */
    ghost predicate AskTheirChunks(sampleIndex: seq<nat>, messages: seq<Message>)
      reads `globalMemory, `chunkStep
    {
      && |messages| == |sampleIndex|
      && forall k :: 0 <= k < |messages| ==>
           sampleIndex[k] < |batch| && sampleIndex[k] < |globalMemory|
           && AsksChunk(w, c, batch[sampleIndex[k]], messages[k], globalMemory[sampleIndex[k]], chunkStep)
    }

    /** One merge prompt per sample that has not converged. */
    method MergeMessages() returns (messages: seq<Message>)
      requires Shaped() && phase == MergePhase
      ensures |messages| == |Indices(SendMask())|
      ensures forall k :: 0 <= k < |messages| ==> messages[k] == MessageOf(Indices(SendMask())[k])
    {
      hide MergeText, Strip, IsPayload, StripAll, Known;
      messages := [];
      var mask := SendMask();
      for i := 0 to |batch|
        invariant |messages| == |Indices(mask[..i])|
        invariant forall k :: 0 <= k < |messages| ==> messages[k] == MessageOf(Indices(mask[..i])[k])
      {
        assert mask[..i + 1][..i] == mask[..i];
        if converged[i] {
          continue;
        }
        var newMemories := StripAll(Known(Column(chunkMemories, i)));
        var previous := if globalMemory[i].Some? then Some(DecodeText(globalMemory[i])) else None;
        var memories := BuildMergeMemories(previous, newMemories);
        messages := messages + [MergePrompt(batch[i].prompt, memories)];
      }
      assert mask[..|batch|] == mask;
    }

    method FinalMessages() returns (messages: seq<Message>)
      requires Shaped() && phase == FinalPhase
      ensures |messages| == |batch|
      ensures forall k :: 0 <= k < |messages| ==> messages[k] == MessageOf(k)
    {
      messages := [];
      for i := 0 to |batch|
        invariant |messages| == i
        invariant forall k :: 0 <= k < i ==> messages[k] == MessageOf(k)
      {
        messages := messages + [FinalPrompt(batch[i].prompt, DecodeText(globalMemory[i]))];
      }
    }

    method FinalAction() returns (messages: seq<Message>)
      requires Shaped() && phase == FinalPhase
      modifies `sampleIndexList, `finalMaskList
      ensures Asked(messages) && OnRecord(messages) && View() == old(View())
    {
      messages := FinalMessages();
      var sampleIndex := seq(|batch|, i => i);
      AllIndices(SendMask());
      sampleIndexList := sampleIndexList + [sampleIndex];
      finalMaskList := finalMaskList + [Flags(|sampleIndex|, true)];
    }

    method MergeAction() returns (messages: seq<Message>)
      requires Shaped() && phase == MergePhase
      modifies `mergeMask, `sampleIndexList, `finalMaskList
      ensures Asked(messages) && OnRecord(messages) && View() == old(View())
    {
      messages := MergeMessages();
      mergeMask := SendMask();
      var sampleIndex := Indices(mergeMask);
      sampleIndexList := sampleIndexList + [sampleIndex];
      finalMaskList := finalMaskList + [Flags(|sampleIndex|, false)];
    }

    /**
     * When no sample has a chunk to read, the source would go on to the merge if some sample had not
     * converged; for a consistent state that cannot be, so only the final turn is left.
     */
    method ChunkAction() returns (messages: seq<Message>)
      requires Valid() && phase == ChunkPhase
      modifies `activeMask, `sampleIndexList, `finalMaskList, `converged, `samplePassUsed, `passNum, `phase
      ensures Asked(messages) && OnRecord(messages)
      ensures phase == ChunkPhase ==> AskTheirChunks(Indices(activeMask), messages)
      ensures View() == Ready(c, batch, old(View()))
    {
      hide Consistent, EndPass, NobodyActive, MessageTo, Takes, AsksChunk;
      activeMask := SendMask();
      var sampleIndex := Indices(activeMask);
      ActiveIndices();
      if |sampleIndex| == 0 {
        FreshPassConverges(w, c, batch, View());
        FinishPass();
        if phase == FinalPhase {
          messages := FinalAction();
        } else {
          assert false;
        }
      } else {
        messages := ChunkMessages(sampleIndex);
        sampleIndexList := sampleIndexList + [sampleIndex];
        finalMaskList := finalMaskList + [Flags(|sampleIndex|, false)];
      }
    }

    lemma ActiveIndices()
      requires Shaped() && phase == ChunkPhase
      ensures Indices(SendMask()) == [] <==> NobodyActive(c, batch, View())
    {
      if i :| 0 <= i < |batch| && Active(c, batch, View(), i) {
        IndicesComplete(SendMask(), i);
      }
      if Indices(SendMask()) != [] {
        assert Active(c, batch, View(), Indices(SendMask())[0]);
      }
    }

    method Action() returns (messages: seq<Message>)
      requires Valid() && !isDone
      modifies `activeMask, `mergeMask, `sampleIndexList, `finalMaskList, `converged, `samplePassUsed, `passNum, `phase
      ensures Valid() && !isDone && Asked(messages) && OnRecord(messages)
      ensures View() == Ready(c, batch, old(View()))
    {
      ReadyConsistent(w, c, batch, View());
      hide Consistent, MessageTo, Indices, TurnMask, TracksFrom, NobodyActive, EndPass;
      match phase
      case ChunkPhase => messages := ChunkAction();
      case MergePhase => messages := MergeAction();
      case FinalPhase => messages := FinalAction();
    }

    /** The replies are the model's: the sample at `idx[k]` gets the answer to its next request. */
    ghost predicate Answered(messages: seq<Message>, replies: seq<string>)
      requires Asked(messages)
      reads this
    {
      var idx := Indices(SendMask());
      && |replies| == |messages|
      && forall k :: 0 <= k < |replies| ==> replies[k] == w.reply(idx[k], |sent[idx[k]]|, messages[k])
    }

    /** Every sample that takes part has its answer among the replies. */
    lemma ReplyOf(messages: seq<Message>, replies: seq<string>, i: nat) returns (k: nat)
      requires Asked(messages) && Answered(messages, replies) && i < |batch| && SendMask()[i]
      ensures k < |replies| && Indices(SendMask())[k] == i
      ensures replies[k] == w.reply(i, |sent[i]|, MessageOf(i))
    {
      IndicesComplete(SendMask(), i);
      k :| 0 <= k < |replies| && Indices(SendMask())[k] == i;
    }

    /** The requests on record after this turn. */
    ghost method Remember()
      requires Shaped()
      modifies `sent
      ensures |sent| == |batch|
      ensures forall i :: 0 <= i < |batch| ==>
        sent[i] == if SendMask()[i] then old(sent[i]) + [old(MessageOf(i))] else old(sent[i])
    {
      hide MessageTo, TurnMask, Takes, Column;
      var mask := SendMask();
      var all: seq<seq<Message>> := [];
      for i := 0 to |batch|
        invariant |all| == i
        invariant forall j :: 0 <= j < i ==> all[j] == if mask[j] then sent[j] + [MessageOf(j)] else sent[j]
      {
        all := all + [if mask[i] then sent[i] + [MessageOf(i)] else sent[i]];
      }
      sent := all;
    }

    /** `r[idx] = values` on a copy of `base`. */
    method Scatter<T>(base: seq<T>, idx: seq<nat>, values: seq<T>) returns (r: seq<T>)
      requires |values| == |idx|
      requires forall k :: 0 <= k < |idx| ==> idx[k] < |base|
      requires forall j, k :: 0 <= j < k < |idx| ==> idx[j] < idx[k]
      ensures |r| == |base|
      ensures forall k :: 0 <= k < |idx| ==> r[idx[k]] == values[k]
      ensures forall i :: 0 <= i < |base| && i !in idx ==> r[i] == base[i]
    {
      r := base;
      for n := 0 to |idx|
        invariant |r| == |base|
        invariant forall k :: 0 <= k < n ==> r[idx[k]] == values[k]
        invariant forall i :: 0 <= i < |base| && i !in idx[..n] ==> r[i] == base[i]
      {
        r := r[idx[n] := values[n]];
      }
    }

    /** The entry a chunk turn adds for each sample. */
    method ReplyColumn(ghost messages: seq<Message>, replies: seq<string>) returns (chunkMem: seq<Option<string>>)
      requires Asked(messages) && Answered(messages, replies) && phase == ChunkPhase
      ensures |chunkMem| == |batch|
      ensures forall i :: 0 <= i < |batch| ==>
        chunkMem[i] == if SendMask()[i] then Recorded(w, w.reply(i, |sent[i]|, MessageOf(i))) else None
    {
      hide MessageTo, Takes, Indices;
      var activeIndices := Indices(activeMask);
      IndicesIncrease(activeMask);
      var memories := seq(|replies|, k requires 0 <= k < |replies| =>
        if w.noNewInfo(replies[k]) then None else Some(replies[k]));
      chunkMem := Scatter(seq(|batch|, i => None), activeIndices, memories);
      forall i | 0 <= i < |batch| && SendMask()[i]
        ensures chunkMem[i] == Recorded(w, w.reply(i, |sent[i]|, MessageOf(i)))
      {
        var k := ReplyOf(messages, replies, i);
      }
    }

    method UpdateChunk(ghost messages: seq<Message>, replies: seq<string>)
      requires Asked(messages) && Answered(messages, replies) && phase == ChunkPhase
      modifies `chunkMemories, `chunkStep, `sent, `converged, `samplePassUsed, `passNum, `phase
      ensures Shaped() && View() == AfterChunk(w, c, batch, old(View()))
    {
      hide MessageTo, EndPass, Indices, Known;
      var chunkMem := ReplyColumn(messages, replies);
      Remember();
      chunkMemories := chunkMemories + [chunkMem];
      chunkStep := chunkStep + 1;
      forall i | 0 <= i < |batch|
        ensures View().tracks[i] == Turn(w, c, i, batch[i], ChunkPhase, old(chunkStep), old(View().tracks[i]))
      {
        assert Column(chunkMemories, i) == old(Column(chunkMemories, i)) + [chunkMem[i]];
      }
      assert View().tracks == TurnAll(w, c, batch, old(View()));
      ActiveIndices();
      var nextActive := SendMask();
      if |Indices(nextActive)| == 0 {
        FinishPass();
      }
    }

    /** The memories after a merge turn: converged samples keep theirs. */
    method MergedMemory(ghost messages: seq<Message>, replies: seq<string>) returns (memory: seq<Option<string>>)
      requires Asked(messages) && Answered(messages, replies) && phase == MergePhase
      ensures |memory| == |batch|
      ensures forall i :: 0 <= i < |batch| ==>
        memory[i] == if SendMask()[i] then Some(w.reply(i, |sent[i]|, MessageOf(i))) else globalMemory[i]
    {
      hide MessageTo, Takes, Indices;
      var mergeIndices := Indices(mergeMask);
      IndicesIncrease(mergeMask);
      var newMemories := seq(|replies|, k requires 0 <= k < |replies| => Some(replies[k]));
      memory := Scatter(globalMemory, mergeIndices, newMemories);
      forall i | 0 <= i < |batch| && SendMask()[i]
        ensures memory[i] == Some(w.reply(i, |sent[i]|, MessageOf(i)))
      {
        var k := ReplyOf(messages, replies, i);
      }
    }

    method UpdateMerge(ghost messages: seq<Message>, replies: seq<string>)
      requires Asked(messages) && Answered(messages, replies) && phase == MergePhase && !isDone
      modifies `chunkMemories, `chunkStep, `sent, `globalMemory, `samplePassUsed, `passNum, `phase
      ensures Shaped() && View() == AfterMerge(w, c, batch, old(View()))
    {
      hide MessageTo, Indices, Known, AllConverged, FinalizeAll, ClearAll;
      var memory := MergedMemory(messages, replies);
      TakeMerged(messages, replies, memory);
      passNum := passNum + 1;
      var allConverged := AllHaveConverged();
      if passNum >= c.maxPasses || allConverged {
        FinalizeSamplePassUsed(passNum);
        phase := FinalPhase;
      } else {
        StartPass();
      }
    }

    /** The merged memories become the global ones. */
    method TakeMerged(ghost messages: seq<Message>, ghost replies: seq<string>, memory: seq<Option<string>>)
      requires Asked(messages) && Answered(messages, replies) && phase == MergePhase && |memory| == |batch|
      requires forall i :: 0 <= i < |batch| ==>
        memory[i] == if SendMask()[i] then Some(w.reply(i, |sent[i]|, MessageOf(i))) else globalMemory[i]
      modifies `sent, `globalMemory
      ensures Shaped() && View() == old(View()).(tracks := TurnAll(w, c, batch, old(View())))
    {
      hide MessageTo, Indices, Known;
      Remember();
      globalMemory := memory;
      assert View().tracks == TurnAll(w, c, batch, old(View()));
    }

    /** The next pass begins with the first chunk and without chunk memories. */
    method StartPass()
      requires Shaped()
      modifies `chunkStep, `chunkMemories, `phase
      ensures Shaped() && View() == State(ChunkPhase, passNum, 0, isDone, ClearAll(old(View()).tracks))
    {
      chunkStep := 0;
      chunkMemories := [];
      phase := ChunkPhase;
      assert View().tracks == ClearAll(old(View()).tracks);
    }

    method UpdateFinal(ghost messages: seq<Message>, replies: seq<string>) returns (passUsed: seq<int>)
      requires Asked(messages) && Answered(messages, replies) && phase == FinalPhase
      modifies `sent, `samplePassUsed, `isDone
      ensures Shaped() && View() == AfterFinal(w, c, batch, old(View()))
      ensures passUsed == samplePassUsed && |passUsed| == |replies|
    {
      hide MessageTo, Indices, Known;
      AllIndices(SendMask());
      Remember();
      assert View().tracks == TurnAll(w, c, batch, old(View()));
      FinalizeSamplePassUsed(passNum);
      passUsed := samplePassUsed;
      isDone := true;
    }

    /** Takes in the replies and returns `pass_used` for the rows of this turn. */
    method Update(ghost messages: seq<Message>, replies: seq<string>) returns (passUsed: seq<int>)
      requires Valid() && !isDone && Asked(messages) && Answered(messages, replies)
      modifies `chunkMemories, `chunkStep, `sent, `globalMemory, `converged, `samplePassUsed, `passNum, `phase, `isDone
      ensures Valid() && View() == AfterTurn(w, c, batch, old(View()))
      ensures passUsed == if old(phase) == FinalPhase then samplePassUsed
                          else PassRow(|replies|, old(passNum) + 1)
      ensures |passUsed| == |replies|
    {
      hide Consistent, AfterTurn, MessageTo, Indices, TurnMask, TracksFrom;
      AfterTurnConsistent(w, c, batch, View());
      passUsed := UpdateTurn(messages, replies);
    }

    method UpdateTurn(ghost messages: seq<Message>, replies: seq<string>) returns (passUsed: seq<int>)
      requires !isDone && Asked(messages) && Answered(messages, replies)
      modifies `chunkMemories, `chunkStep, `sent, `globalMemory, `converged, `samplePassUsed, `passNum, `phase, `isDone
      ensures Shaped() && View() == AfterTurn(w, c, batch, old(View()))
      ensures passUsed == if old(phase) == FinalPhase then samplePassUsed
                          else PassRow(|replies|, old(passNum) + 1)
      ensures |passUsed| == |replies|
    {
      hide AfterChunk, AfterMerge, AfterFinal, MessageTo, Indices, TurnMask;
      var currentPass := passNum + 1;
      match phase
      case ChunkPhase =>
        UpdateChunk(messages, replies);
        passUsed := PassRow(|replies|, currentPass);
      case MergePhase =>
        UpdateMerge(messages, replies);
        passUsed := PassRow(|replies|, currentPass);
      case FinalPhase =>
        passUsed := UpdateFinal(messages, replies);
    }
  }
}