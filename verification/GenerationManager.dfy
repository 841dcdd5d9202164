/** `LLMGenerationManager.run_llm_loop`: the turns of the batch agent and the rows they leave. */
module GenerationManager {
  import opened Text
  import opened Wrappers
  import opened Sequences
  import opened Masks
  import opened Rollout
  import opened BatchMachine
  import opened BatchAgent
  import AsyncAgent
  import opened Transcript

  /** The rows of sample `i`, in the order they were made. */
  function RowsOf(rows: seq<Row>, i: nat): seq<Row> {
    if rows == [] then []
    else
      var init := RowsOf(rows[..|rows| - 1], i);
      if rows[|rows| - 1].sample == i then init + [rows[|rows| - 1]] else init
  }

  /** The places of the rows of sample `i`. */
  ghost predicate PlacesOf(at: seq<nat>, own: seq<Row>, rows: seq<Row>, i: nat) {
    && |at| == |own| && Ascending(at)
    && (forall k :: 0 <= k < |at| ==> at[k] < |rows| && rows[at[k]] == own[k])
    && forall j :: 0 <= j < |rows| ==> (j in at <==> rows[j].sample == i)
  }

  /** All rows of the sample and no others, in order. */
  lemma {:induction false} RowsOfIs(rows: seq<Row>, i: nat) returns (at: seq<nat>)
    ensures PlacesOf(at, RowsOf(rows, i), rows, i)
  {
    if rows == [] {
      at := [];
    } else {
      var n := |rows| - 1;
      at := RowsOfIs(rows[..n], i);
      PlacesSnoc(at, RowsOf(rows[..n], i), rows, i);
      if rows[n].sample == i {
        at := at + [n];
      }
    }
  }

  lemma PlacesSnoc(at: seq<nat>, own: seq<Row>, rows: seq<Row>, i: nat)
    requires rows != [] && PlacesOf(at, own, rows[..|rows| - 1], i)
    ensures var n := |rows| - 1;
      if rows[n].sample == i then PlacesOf(at + [n], own + [rows[n]], rows, i) else PlacesOf(at, own, rows, i)
  {
    var n := |rows| - 1;
    assert forall j :: 0 <= j < n ==> rows[..n][j] == rows[j];
    assert forall j :: 0 <= j < n ==> (j in at + [n] <==> j in at);
    assert n in at + [n];
  }

  lemma {:induction false} RowsOfConcat(a: seq<Row>, b: seq<Row>, i: nat)
    ensures RowsOf(a + b, i) == RowsOf(a, i) + RowsOf(b, i)
  {
    if b == [] {
      assert a + b == a;
    } else {
      assert (a + b)[..|a + b| - 1] == a + b[..|b| - 1];
      RowsOfConcat(a, b[..|b| - 1], i);
    }
  }

  predicate IncreasingSamples(turn: seq<Row>) {
    forall j, k :: 0 <= j < k < |turn| ==> turn[j].sample < turn[k].sample
  }

  lemma {:induction false} RowsOfAbsent(turn: seq<Row>, i: nat)
    requires forall k :: 0 <= k < |turn| ==> turn[k].sample != i
    ensures RowsOf(turn, i) == []
  {
    if turn != [] {
      RowsOfAbsent(turn[..|turn| - 1], i);
    }
  }

  lemma {:induction false} RowsOfPresent(turn: seq<Row>, k: nat)
    requires IncreasingSamples(turn) && k < |turn|
    ensures RowsOf(turn, turn[k].sample) == [turn[k]]
  {
    var init := turn[..|turn| - 1];
    if k == |turn| - 1 {
      RowsOfAbsent(init, turn[k].sample);
    } else {
      RowsOfPresent(init, k);
    }
  }

  function Samples(rows: seq<Row>): (r: seq<nat>)
    ensures |r| == |rows| && forall k :: 0 <= k < |r| ==> r[k] == rows[k].sample
  {
    seq(|rows|, k requires 0 <= k < |rows| => rows[k].sample)
  }

  function Finals(rows: seq<Row>): (r: seq<bool>)
    ensures |r| == |rows| && forall k :: 0 <= k < |r| ==> r[k] == rows[k].isFinal
  {
    seq(|rows|, k requires 0 <= k < |rows| => rows[k].isFinal)
  }

  /** The recorded requests of sample `i` are `sent`, each with the model's answer to it. */
  ghost predicate Tells(w: World, i: nat, rows: seq<Row>, sent: seq<Message>) {
    && |rows| == |sent|
    && forall k :: 0 <= k < |rows| ==>
      rows[k].sample == i && rows[k].msg == sent[k] && rows[k].reply == w.reply(i, k, sent[k])
  }

  /** What the batch run must leave for sample `i`: its own rollout, the last row being final. */
  ghost predicate RecordsRollout(w: World, c: Config, i: nat, s: Sample, rows: seq<Row>)
    requires c.Valid()
  {
    var o := RolloutOf(w, c, i, s);
    && Tells(w, i, rows, o.msgs)
    && rows != []
    && (forall k :: 0 <= k < |rows| ==> (rows[k].isFinal <==> k == |rows| - 1))
    && rows[|rows| - 1].passUsed == o.passUsed
  }

  /** The same conversations with the same final flags; the rows before the last may differ in `passUsed`. */
  ghost predicate SameUpToPass(a: seq<Row>, b: seq<Row>) {
    |a| == |b| && forall k :: 0 <= k < |a| ==> a[k].(passUsed := 0) == b[k].(passUsed := 0)
  }

  /**
   * The batch run and the per-sample loop agree on every sample: the same prompts in the same order
   * with the same replies, the same final row and the same number of passes used.
   */
  lemma BatchRefinesAsync(w: World, c: Config, i: nat, s: Sample, batchRows: seq<Row>, asyncRows: seq<Row>)
    requires c.Valid()
    requires RecordsRollout(w, c, i, s, batchRows)
    requires AsyncAgent.RecordsSample(w, c, i, s, asyncRows)
    ensures |batchRows| > 0 && SameUpToPass(batchRows, asyncRows)
    ensures batchRows[|batchRows| - 1] == asyncRows[|asyncRows| - 1]
  {
    hide RolloutOf;
  }

  /** The model answers: each sample's next request gets the reply to that request. */
  method Generate(w: World, rows: seq<Row>, idx: seq<nat>, messages: seq<Message>) returns (replies: seq<string>)
    requires |idx| == |messages|
    ensures |replies| == |messages|
    ensures forall k :: 0 <= k < |replies| ==> replies[k] == w.reply(idx[k], |RowsOf(rows, idx[k])|, messages[k])
  {
    replies := seq(|messages|, k requires 0 <= k < |messages| == |idx| =>
      w.reply(idx[k], |RowsOf(rows, idx[k])|, messages[k]));
  }

  /** The rows are what the samples of `st` have sent so far. */
  ghost predicate InStep(w: World, st: State, rows: seq<Row>) {
    forall i :: 0 <= i < |st.tracks| ==> Tells(w, i, RowsOf(rows, i), st.tracks[i].sent)
  }

  function TurnRows(idx: seq<nat>, isFinal: bool, messages: seq<Message>, replies: seq<string>, passUsed: seq<int>): (r: seq<Row>)
    requires |idx| == |messages| == |replies| == |passUsed|
    ensures |r| == |idx|
    ensures forall k :: 0 <= k < |r| ==> r[k] == Row(idx[k], isFinal, messages[k], replies[k], passUsed[k])
  {
    seq(|idx|, k requires 0 <= k < |idx| => Row(idx[k], isFinal, messages[k], replies[k], passUsed[k]))
  }

  /** The rows of one turn for sample `i`. */
  lemma TurnRowsOf(mask: seq<bool>, turn: seq<Row>, i: nat)
    requires i < |mask| && Samples(turn) == Indices(mask)
    ensures !mask[i] ==> RowsOf(turn, i) == []
    ensures mask[i] ==> exists k :: 0 <= k < |turn| && turn[k].sample == i && RowsOf(turn, i) == [turn[k]]
  {
    assert forall k :: 0 <= k < |turn| ==> turn[k].sample == Samples(turn)[k];
    if mask[i] {
      IndicesComplete(mask, i);
      var k :| 0 <= k < |turn| && Samples(turn)[k] == i;
      IndicesIncrease(mask);
      assert IncreasingSamples(turn);
      RowsOfPresent(turn, k);
    } else {
      RowsOfAbsent(turn, i);
    }
  }

  /** `turn` holds the rows of one turn from state `st`, after `rows`. */
  ghost predicate IsTurn(w: World, c: Config, batch: seq<Sample>, st: State, rows: seq<Row>, turn: seq<Row>)
    requires |batch| == |st.tracks|
  {
    && Samples(turn) == Indices(MaskOf(c, batch, st))
    && forall k :: 0 <= k < |turn| && turn[k].sample < |batch| ==>
      var i := turn[k].sample;
      var m := MessageTo(w, c, batch[i], st.phase, st.chunkStep, st.tracks[i].memory, st.tracks[i].column);
      turn[k].msg == m && turn[k].reply == w.reply(i, |RowsOf(rows, i)|, m)
  }

  function MaskOf(c: Config, batch: seq<Sample>, st: State): (mask: seq<bool>)
    requires |batch| == |st.tracks|
    ensures |mask| == |batch|
  {
    TurnMask(c, batch, st.phase, st.chunkStep,
             seq(|batch|, i requires 0 <= i < |batch| == |st.tracks| => st.tracks[i].converged))
  }

  lemma TellsSnoc(w: World, i: nat, rows: seq<Row>, sent: seq<Message>, row: Row, m: Message)
    requires Tells(w, i, rows, sent)
    requires row.sample == i && row.msg == m && row.reply == w.reply(i, |sent|, m)
    ensures Tells(w, i, rows + [row], sent + [m])
  {
  }

  lemma SampleInStep(w: World, c: Config, batch: seq<Sample>, st: State, rows: seq<Row>, turn: seq<Row>, i: nat)
    requires i < |batch| == |st.tracks| && Tells(w, i, RowsOf(rows, i), st.tracks[i].sent)
    requires IsTurn(w, c, batch, st, rows, turn)
    ensures Tells(w, i, RowsOf(rows + turn, i), AfterTurn(w, c, batch, st).tracks[i].sent)
  {
    RowsOfConcat(rows, turn, i);
    TurnRowsOf(MaskOf(c, batch, st), turn, i);
    AfterTurnSteady(w, c, batch, st, i);
    hide AfterTurn, MessageTo, Takes, RowsOf;
    var t := st.tracks[i];
    if MaskOf(c, batch, st)[i] {
      var k :| 0 <= k < |turn| && turn[k].sample == i && RowsOf(turn, i) == [turn[k]];
      var m := MessageTo(w, c, batch[i], st.phase, st.chunkStep, t.memory, t.column);
      TellsSnoc(w, i, RowsOf(rows, i), t.sent, turn[k], m);
    } else {
      assert RowsOf(rows, i) + [] == RowsOf(rows, i);
    }
  }

  lemma TurnInStep(w: World, c: Config, batch: seq<Sample>, st: State, rows: seq<Row>, turn: seq<Row>)
    requires |batch| == |st.tracks| && InStep(w, st, rows) && IsTurn(w, c, batch, st, rows, turn)
    ensures InStep(w, AfterTurn(w, c, batch, st), rows + turn)
  {
    AfterTurnSize(w, c, batch, st);
    hide IsTurn, Tells, AfterTurn, RowsOf;
    forall i | 0 <= i < |batch|
      ensures Tells(w, i, RowsOf(rows + turn, i), AfterTurn(w, c, batch, st).tracks[i].sent)
    {
      SampleInStep(w, c, batch, st, rows, turn, i);
    }
  }

  lemma AfterTurnSize(w: World, c: Config, batch: seq<Sample>, st: State)
    requires |batch| == |st.tracks|
    ensures |AfterTurn(w, c, batch, st).tracks| == |batch|
  {
  }

  /** Before the final turn no row is final; after it the last rows are, one per sample in order. */
  ghost predicate FinalRowsLast(st: State, rows: seq<Row>) {
    var n := |st.tracks|;
    if !st.isDone then forall k :: 0 <= k < |rows| ==> !rows[k].isFinal
    else
      && n <= |rows|
      && var head, tail := rows[..|rows| - n], rows[|rows| - n..];
      && (forall k :: 0 <= k < |head| ==> !head[k].isFinal)
      && FinalTurnRows(st, tail)
  }

  /** The rows of the final turn: one for each sample, with the number of passes it used. */
  ghost predicate FinalTurnRows(st: State, tail: seq<Row>) {
    && |tail| == |st.tracks|
    && forall i :: 0 <= i < |tail| ==>
         tail[i].isFinal && tail[i].sample == i && tail[i].passUsed == st.tracks[i].passUsed
  }

  /** The last row of each sample is its row of the final turn, and only that one is final. */
  lemma LastRowFinal(head: seq<Row>, tail: seq<Row>, i: nat)
    requires forall k :: 0 <= k < |head| ==> !head[k].isFinal
    requires i < |tail| && tail[i].isFinal && forall k :: 0 <= k < |tail| ==> tail[k].sample == k
    ensures var own := RowsOf(head + tail, i);
      && |own| == |RowsOf(head, i)| + 1 && own[|own| - 1] == tail[i]
      && (forall k :: 0 <= k < |own| ==> (own[k].isFinal <==> k == |own| - 1))
  {
    RowsOfConcat(head, tail, i);
    RowsOfPresent(tail, i);
    RowsOfNotFinal(head, i);
    hide RowsOf;
  }

  /** With all rows in place each sample has its rollout on record. */
  lemma RecordsAll(w: World, c: Config, batch: seq<Sample>, st: State, rows: seq<Row>, i: nat)
    requires Consistent(w, c, batch, st) && st.isDone && i < |batch|
    requires InStep(w, st, rows) && FinalRowsLast(st, rows)
    ensures RecordsRollout(w, c, i, batch[i], RowsOf(rows, i))
  {
    IsFinished(w, c, batch, st, i);
    hide RolloutOf, RowsOf, Consistent, Tells;
    OwnRows(st, rows, i);
  }

  lemma IsFinished(w: World, c: Config, batch: seq<Sample>, st: State, i: nat)
    requires Consistent(w, c, batch, st) && st.isDone && i < |batch|
    ensures |st.tracks| == |batch| && Finished(w, c, i, batch[i], st.tracks[i])
  {
    hide Finished;
  }

  lemma OwnRows(st: State, rows: seq<Row>, i: nat)
    requires st.isDone && i < |st.tracks| && FinalRowsLast(st, rows)
    ensures var own := RowsOf(rows, i);
      && own != [] && own[|own| - 1].passUsed == st.tracks[i].passUsed
      && (forall k :: 0 <= k < |own| ==> (own[k].isFinal <==> k == |own| - 1))
  {
    hide RowsOf;
    var n := |st.tracks|;
    var head, tail := rows[..|rows| - n], rows[|rows| - n..];
    assert FinalTurnRows(st, tail);
    LastRowFinal(head, tail, i);
    assert head + tail == rows;
  }

  lemma {:induction false} RowsOfNotFinal(rows: seq<Row>, i: nat)
    requires forall k :: 0 <= k < |rows| ==> !rows[k].isFinal
    ensures forall k :: 0 <= k < |RowsOf(rows, i)| ==> !RowsOf(rows, i)[k].isFinal
  {
    if rows != [] {
      RowsOfNotFinal(rows[..|rows| - 1], i);
    }
  }

  /** The turn's rows keep the order of final rows. */
  lemma FinalRowsStayLast(w: World, c: Config, batch: seq<Sample>, st: State, rows: seq<Row>, turn: seq<Row>)
    requires |batch| == |st.tracks| && !st.isDone && FinalRowsLast(st, rows)
    requires var next := AfterTurn(w, c, batch, st);
      if st.phase != FinalPhase then forall k :: 0 <= k < |turn| ==> !turn[k].isFinal
      else
        && |turn| == |batch| == |next.tracks|
        && forall i :: 0 <= i < |batch| ==>
          turn[i].isFinal && turn[i].sample == i && turn[i].passUsed == next.tracks[i].passUsed
    ensures FinalRowsLast(AfterTurn(w, c, batch, st), rows + turn)
  {
    NextPhase(w, c, batch, st);
    AfterTurnSize(w, c, batch, st);
    hide AfterTurn;
    var all := rows + turn;
    if st.phase == FinalPhase {
      assert all[..|all| - |batch|] == rows && all[|all| - |batch|..] == turn;
    }
  }

  /** Prompts out, replies in: the generation half of a turn. */
  method Ask(agent: MemoryAgent, rows: seq<Row>)
    returns (idx: seq<nat>, messages: seq<Message>, replies: seq<string>)
    requires agent.Valid() && !agent.isDone && InStep(agent.w, agent.View(), rows)
    modifies agent
    ensures agent.Valid() && !agent.isDone && agent.Asked(messages) && agent.Answered(messages, replies)
    ensures agent.View() == Ready(agent.c, agent.batch, old(agent.View()))
    ensures idx == Indices(agent.SendMask()) && |messages| == |idx| == |replies|
    ensures agent.sampleIndexList == old(agent.sampleIndexList) + [idx]
    ensures agent.finalMaskList == old(agent.finalMaskList) + [Flags(|idx|, agent.phase == FinalPhase)]
    ensures InStep(agent.w, agent.View(), rows)
    ensures forall k :: 0 <= k < |idx| ==>
      messages[k] == agent.MessageOf(idx[k]) && replies[k] == agent.w.reply(idx[k], |RowsOf(rows, idx[k])|, messages[k])
  {
    hide Consistent, MessageTo, Takes, Indices, RowsOf, Ready, Tells;
    messages := agent.Action();
    idx := agent.sampleIndexList[|agent.sampleIndexList| - 1];
    ReadyInStep(agent.w, agent.c, agent.batch, old(agent.View()), rows);
    replies := Generate(agent.w, rows, idx, messages);
    forall k | 0 <= k < |replies|
      ensures replies[k] == agent.w.reply(idx[k], |agent.sent[idx[k]]|, messages[k])
    {
      SentCount(agent.w, agent.View(), rows, idx[k]);
    }
  }

  lemma SentCount(w: World, st: State, rows: seq<Row>, i: nat)
    requires i < |st.tracks| && InStep(w, st, rows)
    ensures |RowsOf(rows, i)| == |st.tracks[i].sent|
  {
    assert Tells(w, i, RowsOf(rows, i), st.tracks[i].sent);
  }

  /** One iteration of the loop: prompts, generation, update. */
  method TakeTurn(agent: MemoryAgent, rows: seq<Row>) returns (turn: seq<Row>)
    requires agent.Valid() && !agent.isDone
    requires InStep(agent.w, agent.View(), rows) && FinalRowsLast(agent.View(), rows)
    modifies agent
    ensures agent.Valid()
    ensures agent.View() == AfterTurn(agent.w, agent.c, agent.batch, Ready(agent.c, agent.batch, old(agent.View())))
    ensures InStep(agent.w, agent.View(), rows + turn) && FinalRowsLast(agent.View(), rows + turn)
    ensures agent.sampleIndexList == old(agent.sampleIndexList) + [Samples(turn)]
    ensures agent.finalMaskList == old(agent.finalMaskList) + [Finals(turn)]
    ensures forall k :: 0 <= k < |turn| ==> turn[k].sample < |agent.batch|
  {
    hide Consistent, MessageTo, Takes, Indices, RowsOf, Ready, AfterTurn, FinalRowsLast, InStep;
    var idx, messages, replies := Ask(agent, rows);
    ghost var ready := agent.View();
    var isFinal := agent.phase == FinalPhase;
    AgentMask(agent);
    StillNoFinalRow(old(agent.View()), ready, rows);
    var passUsed := agent.Update(messages, replies);
    turn := TurnRows(idx, isFinal, messages, replies, passUsed);
    assert Samples(turn) == idx && Finals(turn) == Flags(|idx|, isFinal);
    TurnInStep(agent.w, agent.c, agent.batch, ready, rows, turn);
    FinalRowsStayLast(agent.w, agent.c, agent.batch, ready, rows, turn);
  }

  lemma AgentMask(agent: MemoryAgent)
    requires agent.Shaped()
    ensures MaskOf(agent.c, agent.batch, agent.View()) == agent.SendMask()
    ensures agent.phase == FinalPhase ==>
      Indices(agent.SendMask()) == seq(|agent.batch|, i => i) && |Indices(agent.SendMask())| == |agent.batch|
  {
    assert forall i :: 0 <= i < |agent.batch| ==> agent.View().tracks[i].converged == agent.converged[i];
    if agent.phase == FinalPhase {
      AllIndices(agent.SendMask());
    }
  }

  lemma StillNoFinalRow(st: State, st': State, rows: seq<Row>)
    requires !st.isDone && !st'.isDone && FinalRowsLast(st, rows)
    ensures FinalRowsLast(st', rows)
  {
  }

  lemma ReadyInStep(w: World, c: Config, batch: seq<Sample>, st: State, rows: seq<Row>)
    requires |batch| == |st.tracks| && InStep(w, st, rows)
    ensures InStep(w, Ready(c, batch, st), rows)
  {
    forall i | 0 <= i < |batch|
      ensures Tells(w, i, RowsOf(rows, i), Ready(c, batch, st).tracks[i].sent)
    {
      hide Ready;
      ReadySteady(c, batch, st, i);
    }
  }

  /** As many final rows as the batch has samples: the assertion before the loop's result. */
  lemma {:induction false} CountFinalRows(head: seq<bool>, tail: seq<bool>)
    requires forall k :: 0 <= k < |head| ==> !head[k]
    requires forall k :: 0 <= k < |tail| ==> tail[k]
    ensures Count(head + tail) == |tail|
  {
    var all := head + tail;
    if tail != [] {
      assert all[..|all| - 1] == head + tail[..|tail| - 1];
      CountFinalRows(head, tail[..|tail| - 1]);
    } else if head != [] {
      assert all == head && head[..|head| - 1] + [] == head[..|head| - 1];
      CountFinalRows(head[..|head| - 1], []);
    }
  }

  lemma CountFinals(st: State, rows: seq<Row>)
    requires st.isDone && FinalRowsLast(st, rows)
    ensures Count(Finals(rows)) == |st.tracks|
  {
    var n := |st.tracks|;
    var head, tail := Finals(rows[..|rows| - n]), Finals(rows[|rows| - n..]);
    assert Finals(rows) == head + tail;
    CountFinalRows(head, tail);
  }

  lemma ColumnsConcat(a: seq<Row>, b: seq<Row>)
    ensures Samples(a + b) == Samples(a) + Samples(b)
    ensures Finals(a + b) == Finals(a) + Finals(b)
  {
  }

  lemma NothingYet()
    ensures Samples([]) == Flatten<nat>([]) && Finals([]) == Flatten<bool>([]) && Sum([]) == 0
  {
  }

  lemma Beginning(w: World, c: Config, n: nat, maxChunks: nat)
    requires c.Valid()
    ensures InStep(w, Start(n), []) && FinalRowsLast(Start(n), [])
    ensures TurnsLeft(c, maxChunks, Start(n)) == c.maxPasses * (maxChunks + 1) + 1 > 0
  {
    PassTurns(c.maxPasses, maxChunks);
  }

  /** The last `n` rows are the final rows of the samples, in batch order. */
  predicate AnswersLast(n: nat, rows: seq<Row>) {
    && n <= |rows|
    && var tail := rows[|rows| - n..];
    && forall i :: 0 <= i < n ==> tail[i].sample == i && tail[i].isFinal
  }

  lemma LastRowsInOrder(st: State, rows: seq<Row>)
    requires st.isDone && FinalRowsLast(st, rows)
    ensures AnswersLast(|st.tracks|, rows)
  {
  }

  lemma RolloutRecorded(w: World, c: Config, i: nat, s: Sample, rows: seq<Row>)
    requires c.Valid() && RecordsRollout(w, c, i, s, rows)
    ensures HasRecord(w, c, i, s, rows)
  {
    hide RolloutOf, IsRecord;
    RecordIs(w, c, i, s, rows);
  }

  /**
   * `run_llm_loop` with the batch agent. Whatever the model answers, the loop ends within the stated
   * number of turns, and every sample has exactly its own rollout on record. An empty batch would
   * fail when the prompts are padded to the longest of none.
   */
  method RunLlmLoop(w: World, c: Config, batch: seq<Sample>, ghost maxChunks: nat)
    returns (rows: seq<Row>, finalMask: seq<bool>, sampleIndex: seq<nat>, activeNums: seq<nat>)
    requires c.Valid() && batch != [] && AtMostChunks(c, batch, maxChunks)
    ensures forall i :: 0 <= i < |batch| ==> HasRecord(w, c, i, batch[i], RowsOf(rows, i))
    ensures forall i :: 0 <= i < |batch| ==> RecordsRollout(w, c, i, batch[i], RowsOf(rows, i))
    ensures finalMask == Finals(rows) && sampleIndex == Samples(rows)
    ensures |sampleIndex| == Sum(activeNums) && Count(finalMask) == |batch|
    ensures AnswersLast(|batch|, rows)
    ensures forall k :: 0 <= k < |rows| ==> rows[k].sample < |batch|
    ensures 1 <= |activeNums| <= c.maxPasses * (maxChunks + 1) + 1
  {
    hide Consistent, Ready, AfterTurn, InStep, FinalRowsLast, TurnsLeft, RowsOf, RecordsRollout, AnswersLast,
         Samples, Finals, Flatten, Sum, Count, Start, AtMostChunks, HasRecord;
    rows, activeNums := [], [];
    NothingYet();
    var agent := new MemoryAgent(w, c, batch);
    Beginning(w, c, |batch|, maxChunks);
    while !agent.isDone
      invariant agent.Valid() && agent.w == w && agent.c == c && agent.batch == batch
      invariant InStep(w, agent.View(), rows) && FinalRowsLast(agent.View(), rows)
      invariant Flatten(agent.sampleIndexList) == Samples(rows)
      invariant Flatten(agent.finalMaskList) == Finals(rows)
      invariant forall k :: 0 <= k < |rows| ==> rows[k].sample < |batch|
      invariant |rows| == Sum(activeNums)
      invariant 0 <= TurnsLeft(c, maxChunks, agent.View())
      invariant |activeNums| + TurnsLeft(c, maxChunks, agent.View()) <= c.maxPasses * (maxChunks + 1) + 1
      invariant agent.isDone ==> 1 <= |activeNums|
      decreases TurnsLeft(c, maxChunks, agent.View())
    {
      TurnUsesUp(w, c, batch, agent.View(), maxChunks);
      ghost var samples, finals := agent.sampleIndexList, agent.finalMaskList;
      var turn := TakeTurn(agent, rows);
      FlattenSnoc(samples, Samples(turn));
      FlattenSnoc(finals, Finals(turn));
      ColumnsConcat(rows, turn);
      SumSnoc(activeNums, |turn|);
      rows, activeNums := rows + turn, activeNums + [|turn|];
    }
    forall i | 0 <= i < |batch|
      ensures RecordsRollout(w, c, i, batch[i], RowsOf(rows, i))
      ensures HasRecord(w, c, i, batch[i], RowsOf(rows, i))
    {
      RecordsAll(w, c, batch, agent.View(), rows, i);
      RolloutRecorded(w, c, i, batch[i], RowsOf(rows, i));
    }
    CountFinals(agent.View(), rows);
    LastRowsInOrder(agent.View(), rows);
    finalMask, sampleIndex := Flatten(agent.finalMaskList), Flatten(agent.sampleIndexList);
  }
}
