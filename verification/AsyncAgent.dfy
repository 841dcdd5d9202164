/** The per-sample loop: nested loops over passes, request windows and chunks. */
module AsyncAgent {
  import opened Text
  import opened Wrappers
  import opened Rollout
  import opened Transcript

  datatype Turn = Turn(msg: Message, reply: string)

  function Prompts(turns: seq<Turn>): (r: seq<Message>)
    ensures |r| == |turns|
  {
    seq(|turns|, k requires 0 <= k < |turns| => turns[k].msg)
  }

  /** What it means for `rows` to be the record of sample `i` alone. */
  ghost predicate RecordsSample(w: World, c: Config, i: nat, s: Sample, rows: seq<Row>)
    requires c.Valid()
  {
    var o := RolloutOf(w, c, i, s);
    && |rows| == |o.msgs|
    && forall k :: 0 <= k < |rows| ==>
      rows[k] == Row(i, k == |rows| - 1, o.msgs[k], w.reply(i, k, o.msgs[k]), o.passUsed)
  }

  method ChunkRequests(w: World, c: Config, s: Sample, memory: string, total: nat)
    returns (requests: seq<Message>)
    ensures |requests| == total
    ensures forall k :: 0 <= k < total ==> requests[k] == ChunkMessage(w, c, s, memory, k)
  {
    requests := [];
    for step := 0 to total
      invariant |requests| == step
      invariant forall k :: 0 <= k < step ==> requests[k] == ChunkMessage(w, c, s, memory, k)
    {
      requests := requests + [ChunkMessage(w, c, s, memory, step)];
    }
  }

  /** Sends the requests window by window; `base` requests were made before. */
  method GatherInWindows(w: World, i: nat, base: nat, requests: seq<Message>, window: nat)
    returns (outputs: seq<string>)
    requires window >= 1
    ensures |outputs| == |requests|
    ensures forall k :: 0 <= k < |requests| ==> outputs[k] == w.reply(i, base + k, requests[k])
  {
    outputs := [];
    var start := 0;
    while start < |requests|
      invariant |outputs| == if start < |requests| then start else |requests|
      invariant forall k :: 0 <= k < |outputs| ==> outputs[k] == w.reply(i, base + k, requests[k])
    {
      var slice := Slice(requests, start, start + window);
      outputs := outputs
        + seq(|slice|, j requires 0 <= j < |slice| => w.reply(i, base + start + j, slice[j]));
      start := start + window;
    }
  }

  /** Every recorded reply is the model's answer to that request of sample `i`. */
  ghost predicate Genuine(w: World, i: nat, turns: seq<Turn>) {
    forall k :: 0 <= k < |turns| ==> turns[k].reply == w.reply(i, k, turns[k].msg)
  }

  lemma KnownNone()
    ensures Known([]) == []
  {
  }

  /** One chunk of the pass: the rest of the rollout goes on from the next chunk. */
  lemma ReadOne(w: World, c: Config, i: nat, s: Sample, turns: seq<Turn>, memory: string, passNum: nat, step: nat,
                news: seq<string>)
    requires c.Valid() && passNum < c.maxPasses && step < ChunkCount(c, s)
    ensures var m := ChunkMessage(w, c, s, memory, step);
      var reply := w.reply(i, |turns|, m);
      Prefix(Prompts(turns), FromChunk(w, c, i, s, |turns|, memory, passNum, step, news))
        == Prefix(Prompts(turns + [Turn(m, reply)]),
                  FromChunk(w, c, i, s, |turns| + 1, memory, passNum, step + 1, WithReply(w, news, reply)))
  {
    hide Prefix, ChunkMessage, ChunkCount;
    var m := ChunkMessage(w, c, s, memory, step);
    var reply := w.reply(i, |turns|, m);
    PrefixPrepend(Prompts(turns), m,
      FromChunk(w, c, i, s, |turns| + 1, memory, passNum, step + 1, WithReply(w, news, reply)));
    assert Prompts(turns + [Turn(m, reply)]) == Prompts(turns) + [m];
  }

  /** All chunks of one pass, read against the same memory. */
  method ReadChunks(w: World, c: Config, i: nat, s: Sample, window: nat, memory: string, passNum: nat, turns: seq<Turn>)
    returns (conversations: seq<Turn>, chunkMemories: seq<Option<string>>, allNoNewInfo: bool)
    requires c.Valid() && passNum < c.maxPasses && window >= 1
    requires Genuine(w, i, turns)
    ensures Genuine(w, i, conversations)
    ensures allNoNewInfo <==> Known(chunkMemories) == []
    ensures Prefix(Prompts(turns), FromChunk(w, c, i, s, |turns|, memory, passNum, 0, []))
         == Prefix(Prompts(conversations),
                   FromChunk(w, c, i, s, |conversations|, memory, passNum, ChunkCount(c, s), Known(chunkMemories)))
  {
    hide Prefix, ChunkMessage, FromChunk, Known, Prompts, ChunkCount;
    KnownNone();
    var total := ChunkCount(c, s);
    var requests := ChunkRequests(w, c, s, memory, total);
    var outputs := GatherInWindows(w, i, |turns|, requests, window);
    conversations := turns;
    chunkMemories := [];
    allNoNewInfo := true;
    for step := 0 to total
      invariant |conversations| == |turns| + step
      invariant Genuine(w, i, conversations)
      invariant allNoNewInfo <==> Known(chunkMemories) == []
      invariant Prefix(Prompts(turns), FromChunk(w, c, i, s, |turns|, memory, passNum, 0, []))
             == Prefix(Prompts(conversations),
                       FromChunk(w, c, i, s, |conversations|, memory, passNum, step, Known(chunkMemories)))
    {
      var content := outputs[step];
      var memo := if w.noNewInfo(content) then None else Some(content);
      KnownSnoc(chunkMemories, memo);
      assert Known(chunkMemories + [memo]) == WithReply(w, Known(chunkMemories), content);
      ReadOne(w, c, i, s, conversations, memory, passNum, step, Known(chunkMemories));
      conversations := conversations + [Turn(requests[step], content)];
      chunkMemories := chunkMemories + [memo];
      allNoNewInfo := allNoNewInfo && memo.None?;
    }
  }

  /** What is left of the rollout once pass `passNum` is the next one. */
  ghost function Remaining(w: World, c: Config, i: nat, s: Sample, n: nat, memory: string, passNum: nat): Outcome
    requires c.Valid() && passNum <= c.maxPasses
  {
    if passNum < c.maxPasses then FromChunk(w, c, i, s, n, memory, passNum, 0, [])
    else Answer(s, memory, passNum)
  }

  /** Consolidates the new memories of pass `passNum` into the global memory. */
  method MergeMemories(w: World, c: Config, i: nat, s: Sample, memory: string, passNum: nat,
                       news: seq<string>, turns: seq<Turn>)
    returns (conversations: seq<Turn>, merged: string)
    requires c.Valid() && passNum < c.maxPasses
    requires Genuine(w, i, turns)
    ensures Genuine(w, i, conversations)
    ensures Prefix(Prompts(turns), FromMerge(w, c, i, s, |turns|, memory, passNum, news))
         == Prefix(Prompts(conversations), Remaining(w, c, i, s, |conversations|, merged, passNum + 1))
  {
    hide MergeText, Strip, IsPayload;
    var memoriesText := BuildMergeMemories(Some(memory), news);
    var mergePrompt := MergePrompt(s.prompt, memoriesText);
    var reply := w.reply(i, |turns|, mergePrompt);
    conversations := turns + [Turn(mergePrompt, reply)];
    merged := Strip(reply);
    assert Prompts(conversations) == Prompts(turns) + [mergePrompt];
    PrefixPrepend(Prompts(turns), mergePrompt, Remaining(w, c, i, s, |conversations|, merged, passNum + 1));
  }

  /** Turns the finished conversations into rows; only the last one is final. */
  method Record(w: World, c: Config, i: nat, s: Sample, conversations: seq<Turn>, finalPassUsed: nat)
    returns (rows: seq<Row>)
    requires c.Valid() && Genuine(w, i, conversations)
    requires Prompts(conversations) == RolloutOf(w, c, i, s).msgs
    requires finalPassUsed == RolloutOf(w, c, i, s).passUsed
    ensures RecordsSample(w, c, i, s, rows)
  {
    hide RolloutOf;
    rows := seq(|conversations|, k requires 0 <= k < |conversations| =>
      Row(i, k == |conversations| - 1, conversations[k].msg, conversations[k].reply, finalPassUsed));
    forall k | 0 <= k < |rows|
      ensures rows[k].msg == RolloutOf(w, c, i, s).msgs[k]
    {
      assert Prompts(conversations)[k] == conversations[k].msg;
    }
  }

  lemma SampleIsRecord(w: World, c: Config, i: nat, s: Sample, rows: seq<Row>)
    requires c.Valid() && rows != [] && RecordsSample(w, c, i, s, rows)
    ensures IsRecord(w, c, i, s, rows, RolloutOf(w, c, i, s).memory)
  {
    hide RolloutOf, IsRecord;
    RecordIs(w, c, i, s, rows);
  }

  /**
   * `AsyncMemoryAgent.rollout`. Any `parallelism`, also none or a negative one, gives the same
   * record: the rollout of the sample.
   */
  method RolloutSample(w: World, c: Config, i: nat, s: Sample, parallelism: int)
    returns (rows: seq<Row>, globalMemory: string)
    requires c.Valid()
    ensures IsRecord(w, c, i, s, rows, globalMemory)
    ensures RecordsSample(w, c, i, s, rows)
    ensures globalMemory == RolloutOf(w, c, i, s).memory
  {
    hide IsRecord;
    hide MergeText, Strip, ChunkMessage;
    ghost var whole := RolloutOf(w, c, i, s);
    var total := ChunkCount(c, s);
    var window: nat := if parallelism > 0 then parallelism else if total > 1 then total else 1;
    var conversations: seq<Turn> := [];
    globalMemory := NO_MEMORY;
    var finalPassUsed := 1;
    var passNum := 0;
    while passNum < c.maxPasses
      invariant passNum <= c.maxPasses && Genuine(w, i, conversations)
      invariant passNum == c.maxPasses ==> finalPassUsed == passNum
      invariant whole == Prefix(Prompts(conversations),
                                Remaining(w, c, i, s, |conversations|, globalMemory, passNum))
    {
      finalPassUsed := passNum + 1;
      var chunkMemories, allNoNewInfo;
      conversations, chunkMemories, allNoNewInfo :=
        ReadChunks(w, c, i, s, window, globalMemory, passNum, conversations);
      if allNoNewInfo {
        break;
      }
      conversations, globalMemory :=
        MergeMemories(w, c, i, s, globalMemory, passNum, Known(chunkMemories), conversations);
      passNum := passNum + 1;
    }
    assert whole == Prefix(Prompts(conversations), Answer(s, globalMemory, finalPassUsed));
    var finalPrompt := FinalPrompt(s.prompt, globalMemory);
    var answered := conversations + [Turn(finalPrompt, w.reply(i, |conversations|, finalPrompt))];
    assert Prompts(answered) == Prompts(conversations) + [finalPrompt];
    rows := Record(w, c, i, s, answered, finalPassUsed);
    SampleIsRecord(w, c, i, s, rows);
  }
}
