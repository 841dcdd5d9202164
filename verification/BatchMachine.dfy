/**
 * The lockstep run of a whole batch as a machine over values: what one turn does to the state of
 * every sample, and why each sample nevertheless goes through its own rollout.
 */
module BatchMachine {
  import opened Arith
  import opened Text
  import opened Wrappers
  import opened Rollout

  datatype Phase = ChunkPhase | MergePhase | FinalPhase

  /**
   * One sample in a lockstep run: the requests it has sent, its memory as the raw merge reply, what
   * the chunk turns of this pass recorded for it, and its entry of `sample_pass_used`.
   */
  datatype Track = Track(sent: seq<Message>, converged: bool, memory: Option<string>,
                         column: seq<Option<string>>, passUsed: int)

  datatype State = State(phase: Phase, passNum: nat, chunkStep: nat, isDone: bool, tracks: seq<Track>)

  function DecodeText(value: Option<string>): string {
    if value.Some? then Strip(value.value) else NO_MEMORY
  }

  function Recorded(w: World, reply: string): Option<string> {
    if w.noNewInfo(reply) then None else Some(reply)
  }

  // ----- one turn of one sample

  /** The sample takes part in a turn of this phase. */
  predicate Takes(c: Config, s: Sample, phase: Phase, chunkStep: nat, converged: bool) {
    match phase
    case ChunkPhase => HasChunk(c, s, chunkStep) && !converged
    case MergePhase => !converged
    case FinalPhase => true
  }

  /** What it is asked then. */
  function MessageTo(w: World, c: Config, s: Sample, phase: Phase, chunkStep: nat,
                     memory: Option<string>, column: seq<Option<string>>): Message
  {
    match phase
    case ChunkPhase => ChunkMessage(w, c, s, DecodeText(memory), chunkStep)
    case MergePhase =>
      MergePrompt(s.prompt, MergeText(if memory.Some? then Some(DecodeText(memory)) else None, StripAll(Known(column))))
    case FinalPhase => FinalPrompt(s.prompt, DecodeText(memory))
  }

  function Turn(w: World, c: Config, i: nat, s: Sample, phase: Phase, chunkStep: nat, t: Track): Track {
    var m := MessageTo(w, c, s, phase, chunkStep, t.memory, t.column);
    var reply := w.reply(i, |t.sent|, m);
    if !Takes(c, s, phase, chunkStep, t.converged) then
      if phase == ChunkPhase then t.(column := t.column + [None]) else t
    else match phase
      case ChunkPhase => t.(sent := t.sent + [m], column := t.column + [Recorded(w, reply)])
      case MergePhase => t.(sent := t.sent + [m], memory := Some(reply))
      case FinalPhase => t.(sent := t.sent + [m])
  }

  /** A sample whose chunks are all read: without new information it has converged. */
  function Settle(t: Track, passNum: nat): Track {
    if t.converged || Known(t.column) != [] then t
    else t.(converged := true, passUsed := if t.passUsed < 0 then passNum + 1 else t.passUsed)
  }

  function Finalize(t: Track, lastPass: nat): Track {
    if t.passUsed < 0 then t.(passUsed := if lastPass < 1 then 1 else lastPass) else t
  }

  // ----- one turn of the batch

  predicate Active(c: Config, batch: seq<Sample>, st: State, i: nat)
    requires i < |batch| == |st.tracks|
  {
    Takes(c, batch[i], ChunkPhase, st.chunkStep, st.tracks[i].converged)
  }

  predicate NobodyActive(c: Config, batch: seq<Sample>, st: State)
    requires |batch| == |st.tracks|
  {
    forall i :: 0 <= i < |batch| ==> !Active(c, batch, st, i)
  }

  predicate AllConverged(tracks: seq<Track>) {
    forall i :: 0 <= i < |tracks| ==> tracks[i].converged
  }

  function SettleAll(tracks: seq<Track>, passNum: nat): (r: seq<Track>)
    ensures |r| == |tracks| && forall i :: 0 <= i < |r| ==> r[i] == Settle(tracks[i], passNum)
  {
    seq(|tracks|, i requires 0 <= i < |tracks| => Settle(tracks[i], passNum))
  }

  function FinalizeAll(tracks: seq<Track>, lastPass: nat): (r: seq<Track>)
    ensures |r| == |tracks| && forall i :: 0 <= i < |r| ==> r[i] == Finalize(tracks[i], lastPass)
  {
    seq(|tracks|, i requires 0 <= i < |tracks| => Finalize(tracks[i], lastPass))
  }

  function TurnAll(w: World, c: Config, batch: seq<Sample>, st: State): (r: seq<Track>)
    requires |batch| == |st.tracks|
    ensures |r| == |batch|
    ensures forall i :: 0 <= i < |r| ==> r[i] == Turn(w, c, i, batch[i], st.phase, st.chunkStep, st.tracks[i])
  {
    seq(|batch|, i requires 0 <= i < |batch| => Turn(w, c, i, batch[i], st.phase, st.chunkStep, st.tracks[i]))
  }

  function ClearAll(tracks: seq<Track>): (r: seq<Track>)
    ensures |r| == |tracks| && forall i :: 0 <= i < |r| ==> r[i] == tracks[i].(column := [])
  {
    seq(|tracks|, i requires 0 <= i < |tracks| => tracks[i].(column := []))
  }

  /** The pass is read: on to the answer if every sample has converged, else to the merge. */
  function EndPass(st: State): State {
    var settled := SettleAll(st.tracks, st.passNum);
    if AllConverged(settled)
    then st.(phase := FinalPhase, passNum := st.passNum + 1, tracks := FinalizeAll(settled, st.passNum + 1))
    else st.(phase := MergePhase, tracks := settled)
  }

  /** The state in which `action` picks its prompts. */
  function Ready(c: Config, batch: seq<Sample>, st: State): State
    requires |batch| == |st.tracks|
  {
    if st.phase == ChunkPhase && NobodyActive(c, batch, st) then EndPass(st) else st
  }

  function AfterChunk(w: World, c: Config, batch: seq<Sample>, st: State): State
    requires |batch| == |st.tracks|
  {
    var read := st.(chunkStep := st.chunkStep + 1, tracks := TurnAll(w, c, batch, st));
    if NobodyActive(c, batch, read) then EndPass(read) else read
  }

  function AfterMerge(w: World, c: Config, batch: seq<Sample>, st: State): State
    requires |batch| == |st.tracks|
  {
    var tracks := TurnAll(w, c, batch, st);
    var passNum := st.passNum + 1;
    if passNum >= c.maxPasses || AllConverged(tracks)
    then st.(phase := FinalPhase, passNum := passNum, tracks := FinalizeAll(tracks, passNum))
    else State(ChunkPhase, passNum, 0, false, ClearAll(tracks))
  }

  function AfterFinal(w: World, c: Config, batch: seq<Sample>, st: State): State
    requires |batch| == |st.tracks|
  {
    st.(isDone := true, tracks := FinalizeAll(TurnAll(w, c, batch, st), st.passNum))
  }

  /** The state after `update` has received the replies. */
  function AfterTurn(w: World, c: Config, batch: seq<Sample>, st: State): State
    requires |batch| == |st.tracks|
  {
    match st.phase
    case ChunkPhase => AfterChunk(w, c, batch, st)
    case MergePhase => AfterMerge(w, c, batch, st)
    case FinalPhase => AfterFinal(w, c, batch, st)
  }

  function Start(n: nat): (st: State)
    ensures |st.tracks| == n
  {
    State(ChunkPhase, 0, 0, false, seq(n, i => Track([], false, None, [], -1)))
  }

  // ----- each sample stays on the track of its own rollout

  /** The sent requests, continued from this state, make up the sample's own rollout. */
  ghost predicate OnTrack(w: World, c: Config, i: nat, s: Sample, phase: Phase, passNum: nat, chunkStep: nat, t: Track)
    requires c.Valid() && (phase != FinalPhase ==> passNum < c.maxPasses)
  {
    var whole := RolloutOf(w, c, i, s);
    var memory := DecodeText(t.memory);
    if t.converged then
      1 <= t.passUsed <= c.maxPasses && whole == Prefix(t.sent, Answer(s, memory, t.passUsed))
    else match phase
      case ChunkPhase =>
        && t.passUsed == -1
        && whole == Prefix(t.sent, FromChunk(w, c, i, s, |t.sent|, memory, passNum, chunkStep, Known(t.column)))
      case MergePhase =>
        && t.passUsed == -1 && Known(t.column) != []
        && whole == Prefix(t.sent, FromMerge(w, c, i, s, |t.sent|, memory, passNum, Known(t.column)))
      case FinalPhase =>
        1 <= t.passUsed <= c.maxPasses && whole == Prefix(t.sent, Answer(s, memory, t.passUsed))
  }

  /** The sample has had its final turn. */
  ghost predicate Finished(w: World, c: Config, i: nat, s: Sample, t: Track)
    requires c.Valid()
  {
    && 1 <= t.passUsed <= c.maxPasses
    && RolloutOf(w, c, i, s) == Outcome(t.sent, DecodeText(t.memory), t.passUsed)
  }

  lemma StartOnTrack(w: World, c: Config, i: nat, s: Sample)
    requires c.Valid()
    ensures OnTrack(w, c, i, s, ChunkPhase, 0, 0, Track([], false, None, [], -1))
  {
    var o := RolloutOf(w, c, i, s);
    assert Prefix([], o) == o;
  }

  lemma ChunkTurnOnTrack(w: World, c: Config, i: nat, s: Sample, passNum: nat, chunkStep: nat, t: Track)
    requires c.Valid() && passNum < c.maxPasses
    requires OnTrack(w, c, i, s, ChunkPhase, passNum, chunkStep, t)
    ensures OnTrack(w, c, i, s, ChunkPhase, passNum, chunkStep + 1, Turn(w, c, i, s, ChunkPhase, chunkStep, t))
  {
    hide ChunkMessage, DecodeText, MergeText;
    HasChunkIffCounted(c, s, chunkStep);
    var memory := DecodeText(t.memory);
    if HasChunk(c, s, chunkStep) && !t.converged {
      var m := ChunkMessage(w, c, s, memory, chunkStep);
      var reply := w.reply(i, |t.sent|, m);
      KnownSnoc(t.column, Recorded(w, reply));
      PrefixPrepend(t.sent, m,
        FromChunk(w, c, i, s, |t.sent| + 1, memory, passNum, chunkStep + 1, WithReply(w, Known(t.column), reply)));
    } else {
      KnownSnoc(t.column, None);
    }
  }

  lemma SettleOnTrack(w: World, c: Config, i: nat, s: Sample, passNum: nat, chunkStep: nat, t: Track)
    requires c.Valid() && passNum < c.maxPasses
    requires OnTrack(w, c, i, s, ChunkPhase, passNum, chunkStep, t)
    requires t.converged || !HasChunk(c, s, chunkStep)
    ensures OnTrack(w, c, i, s, MergePhase, passNum, chunkStep, Settle(t, passNum))
  {
    hide DecodeText;
    HasChunkIffCounted(c, s, chunkStep);
  }

  lemma MergeTurnOnTrack(w: World, c: Config, i: nat, s: Sample, passNum: nat, chunkStep: nat, t: Track)
    requires c.Valid() && passNum < c.maxPasses
    requires OnTrack(w, c, i, s, MergePhase, passNum, chunkStep, t)
    ensures
      var t' := Turn(w, c, i, s, MergePhase, chunkStep, t);
      if passNum + 1 >= c.maxPasses
      then OnTrack(w, c, i, s, FinalPhase, passNum + 1, chunkStep, Finalize(t', passNum + 1))
      else OnTrack(w, c, i, s, ChunkPhase, passNum + 1, 0, t'.(column := []))
  {
    hide MergeText, Strip, ChunkMessage;
    if !t.converged {
      MergeTextAgrees(t.memory, Known(t.column));
      var m := MessageTo(w, c, s, MergePhase, chunkStep, t.memory, t.column);
      assert m == MergePrompt(s.prompt, MergeText(Some(DecodeText(t.memory)), Known(t.column)));
      var merged := Strip(w.reply(i, |t.sent|, m));
      PrefixPrepend(t.sent, m,
        if passNum + 1 >= c.maxPasses then Answer(s, merged, passNum + 1)
        else FromChunk(w, c, i, s, |t.sent| + 1, merged, passNum + 1, 0, []));
    }
  }

  lemma FinalTurnFinishes(w: World, c: Config, i: nat, s: Sample, passNum: nat, chunkStep: nat, t: Track)
    requires c.Valid() && OnTrack(w, c, i, s, FinalPhase, passNum, chunkStep, t)
    ensures Finished(w, c, i, s, Finalize(Turn(w, c, i, s, FinalPhase, chunkStep, t), passNum))
  {
    hide MergeText, Strip, ChunkMessage;
  }

  /** For a converged sample it does not matter where the batch is. */
  lemma ConvergedForGood(w: World, c: Config, i: nat, s: Sample, passNum: nat, chunkStep: nat, t: Track)
    requires c.Valid() && passNum < c.maxPasses && t.converged
    requires OnTrack(w, c, i, s, MergePhase, passNum, chunkStep, t)
    ensures OnTrack(w, c, i, s, FinalPhase, passNum + 1, chunkStep, Finalize(t, passNum + 1))
  {
  }

  // ----- what every turn keeps

  ghost predicate AllOnTrack(w: World, c: Config, batch: seq<Sample>, st: State)
    requires c.Valid() && |batch| == |st.tracks| && (st.phase != FinalPhase ==> st.passNum < c.maxPasses)
  {
    forall i :: 0 <= i < |batch| ==> OnTrack(w, c, i, batch[i], st.phase, st.passNum, st.chunkStep, st.tracks[i])
  }

  ghost predicate AllFinished(w: World, c: Config, batch: seq<Sample>, st: State)
    requires c.Valid() && |batch| == |st.tracks|
  {
    forall i :: 0 <= i < |batch| ==> Finished(w, c, i, batch[i], st.tracks[i])
  }

  /** Only samples with a context have informative replies. */
  predicate ContextBacked(s: Sample, t: Track) {
    Known(t.column) != [] ==> s.contextLength > 0
  }

  /** Nothing has been sent yet. */
  predicate Fresh(st: State) {
    && st.passNum == 0 && st.chunkStep == 0
    && forall i :: 0 <= i < |st.tracks| ==> !st.tracks[i].converged && st.tracks[i].column == []
  }

  ghost predicate Consistent(w: World, c: Config, batch: seq<Sample>, st: State) {
    && c.Valid() && |batch| == |st.tracks|
    && (st.phase != FinalPhase ==> st.passNum < c.maxPasses && !st.isDone)
    && (if st.isDone then AllFinished(w, c, batch, st) else AllOnTrack(w, c, batch, st))
    && (forall i :: 0 <= i < |batch| ==> ContextBacked(batch[i], st.tracks[i]))
    && (st.phase == ChunkPhase ==> Fresh(st) || !NobodyActive(c, batch, st))
    && (st.phase == MergePhase ==> !AllConverged(st.tracks))
  }

  lemma StartConsistent(w: World, c: Config, batch: seq<Sample>)
    requires c.Valid()
    ensures Consistent(w, c, batch, Start(|batch|))
  {
    forall i | 0 <= i < |batch|
      ensures OnTrack(w, c, i, batch[i], ChunkPhase, 0, 0, Start(|batch|).tracks[i])
    {
      StartOnTrack(w, c, i, batch[i]);
    }
  }

  lemma EndPassConsistent(w: World, c: Config, batch: seq<Sample>, st: State)
    requires c.Valid() && |batch| == |st.tracks| && st.phase == ChunkPhase && st.passNum < c.maxPasses && !st.isDone
    requires AllOnTrack(w, c, batch, st) && NobodyActive(c, batch, st)
    requires forall i :: 0 <= i < |batch| ==> ContextBacked(batch[i], st.tracks[i])
    ensures Consistent(w, c, batch, EndPass(st))
  {
    hide OnTrack, Known;
    var settled := SettleAll(st.tracks, st.passNum);
    forall i | 0 <= i < |batch|
      ensures OnTrack(w, c, i, batch[i], MergePhase, st.passNum, st.chunkStep, settled[i])
    {
      assert !Active(c, batch, st, i);
      SettleOnTrack(w, c, i, batch[i], st.passNum, st.chunkStep, st.tracks[i]);
    }
    if AllConverged(settled) {
      forall i | 0 <= i < |batch|
        ensures OnTrack(w, c, i, batch[i], FinalPhase, st.passNum + 1, st.chunkStep, EndPass(st).tracks[i])
      {
        ConvergedForGood(w, c, i, batch[i], st.passNum, st.chunkStep, settled[i]);
      }
    }
  }

  /** Before the first request nobody has a chunk only if nobody has a context: all converge. */
  lemma FreshPassConverges(w: World, c: Config, batch: seq<Sample>, st: State)
    requires Consistent(w, c, batch, st) && st.phase == ChunkPhase && NobodyActive(c, batch, st)
    ensures EndPass(st).phase == FinalPhase
  {
    assert Fresh(st);
  }

  lemma ReadyConsistent(w: World, c: Config, batch: seq<Sample>, st: State)
    requires Consistent(w, c, batch, st) && !st.isDone
    ensures Consistent(w, c, batch, Ready(c, batch, st)) && !Ready(c, batch, st).isDone
    ensures Ready(c, batch, st).phase == MergePhase ==> st.phase == MergePhase
    ensures Ready(c, batch, st).phase == ChunkPhase ==> !NobodyActive(c, batch, Ready(c, batch, st))
  {
    if st.phase == ChunkPhase && NobodyActive(c, batch, st) {
      EndPassConsistent(w, c, batch, st);
      FreshPassConverges(w, c, batch, st);
    }
  }

  lemma ChunkTurnConsistent(w: World, c: Config, batch: seq<Sample>, st: State)
    requires Consistent(w, c, batch, st) && st.phase == ChunkPhase
    ensures Consistent(w, c, batch, AfterChunk(w, c, batch, st))
  {
    hide OnTrack, MessageTo, Known, NobodyActive, EndPass, ContextBacked;
    var read := st.(chunkStep := st.chunkStep + 1, tracks := TurnAll(w, c, batch, st));
    forall i | 0 <= i < |batch|
      ensures OnTrack(w, c, i, batch[i], ChunkPhase, read.passNum, read.chunkStep, read.tracks[i])
      ensures ContextBacked(batch[i], read.tracks[i])
    {
      ChunkTurnOnTrack(w, c, i, batch[i], st.passNum, st.chunkStep, st.tracks[i]);
      TurnContextBacked(w, c, i, batch[i], st.chunkStep, st.tracks[i]);
    }
    if NobodyActive(c, batch, read) {
      EndPassConsistent(w, c, batch, read);
    }
  }

  lemma TurnContextBacked(w: World, c: Config, i: nat, s: Sample, chunkStep: nat, t: Track)
    requires ContextBacked(s, t)
    ensures ContextBacked(s, Turn(w, c, i, s, ChunkPhase, chunkStep, t))
  {
    hide MessageTo;
    KnownSnoc(t.column, None);
    KnownSnoc(t.column, Recorded(w, w.reply(i, |t.sent|, MessageTo(w, c, s, ChunkPhase, chunkStep, t.memory, t.column))));
  }

  /** A sample that is sent to the merge has news from this pass, so it has a context. */
  lemma MergedHaveNews(w: World, c: Config, batch: seq<Sample>, st: State, i: nat)
    requires Consistent(w, c, batch, st) && st.phase == MergePhase && i < |batch| && !st.tracks[i].converged
    ensures Known(st.tracks[i].column) != [] && batch[i].contextLength > 0
  {
    assert OnTrack(w, c, i, batch[i], MergePhase, st.passNum, st.chunkStep, st.tracks[i]);
    assert ContextBacked(batch[i], st.tracks[i]);
  }

  lemma MergeTurnKeeps(w: World, c: Config, i: nat, s: Sample, chunkStep: nat, t: Track)
    ensures Turn(w, c, i, s, MergePhase, chunkStep, t).converged == t.converged
    ensures Turn(w, c, i, s, MergePhase, chunkStep, t).column == t.column
  {
  }

  lemma MergeTurnAllOnTrack(w: World, c: Config, batch: seq<Sample>, st: State)
    requires Consistent(w, c, batch, st) && st.phase == MergePhase
    requires !AllConverged(TurnAll(w, c, batch, st))
    ensures AllOnTrack(w, c, batch, AfterMerge(w, c, batch, st))
  {
    hide OnTrack, MessageTo, Known, Turn;
    forall i | 0 <= i < |batch|
      ensures var t' := Turn(w, c, i, batch[i], MergePhase, st.chunkStep, st.tracks[i]);
        if st.passNum + 1 >= c.maxPasses
        then OnTrack(w, c, i, batch[i], FinalPhase, st.passNum + 1, st.chunkStep, Finalize(t', st.passNum + 1))
        else OnTrack(w, c, i, batch[i], ChunkPhase, st.passNum + 1, 0, t'.(column := []))
    {
      MergeTurnOnTrack(w, c, i, batch[i], st.passNum, st.chunkStep, st.tracks[i]);
    }
  }

  lemma MergeTurnContextBacked(w: World, c: Config, batch: seq<Sample>, st: State)
    requires Consistent(w, c, batch, st) && st.phase == MergePhase
    ensures forall i :: 0 <= i < |batch| ==> ContextBacked(batch[i], AfterMerge(w, c, batch, st).tracks[i])
  {
    hide OnTrack, MessageTo, Known, Turn;
    KnownNothing();
    forall i | 0 <= i < |batch|
      ensures ContextBacked(batch[i], AfterMerge(w, c, batch, st).tracks[i])
    {
      assert ContextBacked(batch[i], st.tracks[i]);
      MergeTurnKeeps(w, c, i, batch[i], st.chunkStep, st.tracks[i]);
    }
  }

  /** Somebody merged, so somebody has a chunk to read in the next pass. */
  lemma MergeTurnLeavesSomeone(w: World, c: Config, batch: seq<Sample>, st: State, j: nat)
    requires j < |batch| == |st.tracks| && st.phase == MergePhase
    requires batch[j].contextLength > 0 && !st.tracks[j].converged
    ensures !AllConverged(TurnAll(w, c, batch, st))
    ensures AfterMerge(w, c, batch, st).phase == ChunkPhase ==> !NobodyActive(c, batch, AfterMerge(w, c, batch, st))
  {
    hide MessageTo, Known, Turn, NobodyActive;
    MergeTurnKeeps(w, c, j, batch[j], st.chunkStep, st.tracks[j]);
    assert !TurnAll(w, c, batch, st)[j].converged;
    if AfterMerge(w, c, batch, st).phase == ChunkPhase {
      FirstChunkActive(c, batch, AfterMerge(w, c, batch, st), j);
    }
  }

  lemma MergeTurnConsistent(w: World, c: Config, batch: seq<Sample>, st: State)
    requires Consistent(w, c, batch, st) && st.phase == MergePhase
    ensures Consistent(w, c, batch, AfterMerge(w, c, batch, st))
  {
    hide OnTrack, AllOnTrack, ContextBacked, MessageTo, Known, Turn, NobodyActive;
    assert !AllConverged(st.tracks);
    var j :| 0 <= j < |st.tracks| && !st.tracks[j].converged;
    MergedHaveNews(w, c, batch, st, j);
    MergeTurnLeavesSomeone(w, c, batch, st, j);
    MergeTurnAllOnTrack(w, c, batch, st);
    MergeTurnContextBacked(w, c, batch, st);
    AfterMergeShape(w, c, batch, st);
    hide AfterMerge, TurnAll, AllConverged;
  }

  lemma AfterMergeShape(w: World, c: Config, batch: seq<Sample>, st: State)
    requires |batch| == |st.tracks|
    ensures var st' := AfterMerge(w, c, batch, st);
      && |st'.tracks| == |batch| && st'.phase != MergePhase
      && (st'.phase == ChunkPhase ==> st'.passNum < c.maxPasses && !st'.isDone)
      && (st'.phase == FinalPhase ==> st'.isDone == st.isDone)
  {
    hide Turn;
  }

  lemma FirstChunkActive(c: Config, batch: seq<Sample>, st: State, j: nat)
    requires j < |batch| == |st.tracks| && st.chunkStep == 0
    requires batch[j].contextLength > 0 && !st.tracks[j].converged
    ensures !NobodyActive(c, batch, st)
  {
    assert Active(c, batch, st, j);
  }

  lemma KnownNothing()
    ensures Known([]) == []
  {
  }

  lemma FinalTurnConsistent(w: World, c: Config, batch: seq<Sample>, st: State)
    requires Consistent(w, c, batch, st) && st.phase == FinalPhase && !st.isDone
    ensures Consistent(w, c, batch, AfterFinal(w, c, batch, st))
  {
    hide OnTrack, MessageTo, Known;
    var st' := AfterFinal(w, c, batch, st);
    forall i | 0 <= i < |batch|
      ensures Finished(w, c, i, batch[i], st'.tracks[i])
    {
      FinalTurnFinishes(w, c, i, batch[i], st.passNum, st.chunkStep, st.tracks[i]);
    }
  }

  lemma AfterTurnConsistent(w: World, c: Config, batch: seq<Sample>, st: State)
    requires Consistent(w, c, batch, st) && !st.isDone
    ensures Consistent(w, c, batch, AfterTurn(w, c, batch, st))
  {
    hide AfterChunk, AfterMerge, AfterFinal;
    match st.phase
    case ChunkPhase => ChunkTurnConsistent(w, c, batch, st);
    case MergePhase => MergeTurnConsistent(w, c, batch, st);
    case FinalPhase => FinalTurnConsistent(w, c, batch, st);
  }

  // ----- what is settled stays settled

  /** A converged sample keeps its memory, and an entry of `sample_pass_used` is set at most once. */
  predicate Steady(t: Track, t': Track) {
    && t.sent <= t'.sent
    && (t.converged ==> t'.converged && t'.memory == t.memory)
    && (t.passUsed >= 0 ==> t'.passUsed == t.passUsed)
  }

  lemma ReadySteady(c: Config, batch: seq<Sample>, st: State, i: nat)
    requires i < |batch| == |st.tracks|
    ensures Steady(st.tracks[i], Ready(c, batch, st).tracks[i])
    ensures Ready(c, batch, st).tracks[i].sent == st.tracks[i].sent
  {
    hide NobodyActive, Known;
  }

  lemma AfterTurnSteady(w: World, c: Config, batch: seq<Sample>, st: State, i: nat)
    requires i < |batch| == |st.tracks|
    ensures Steady(st.tracks[i], AfterTurn(w, c, batch, st).tracks[i])
    ensures var t := st.tracks[i];
      AfterTurn(w, c, batch, st).tracks[i].sent
      == if Takes(c, batch[i], st.phase, st.chunkStep, t.converged)
         then t.sent + [MessageTo(w, c, batch[i], st.phase, st.chunkStep, t.memory, t.column)]
         else t.sent
  {
    hide NobodyActive, AllConverged, MessageTo, Known, HasChunk;
    assert TurnAll(w, c, batch, st)[i] == Turn(w, c, i, batch[i], st.phase, st.chunkStep, st.tracks[i]);
  }

  // ----- how many turns are left

  ghost predicate AtMostChunks(c: Config, batch: seq<Sample>, maxChunks: nat)
    requires c.Valid()
  {
    forall i :: 0 <= i < |batch| ==> ChunkCount(c, batch[i]) <= maxChunks
  }

  /** An upper bound on the turns still to come: per pass one for each chunk and one for the merge. */
  function TurnsLeft(c: Config, maxChunks: nat, st: State): int {
    if st.isDone then 0
    else match st.phase
      case ChunkPhase => (c.maxPasses - st.passNum) * (maxChunks + 1) + 1 - st.chunkStep
      case MergePhase => (c.maxPasses - st.passNum - 1) * (maxChunks + 1) + 2
      case FinalPhase => 1
  }

  lemma PassTurns(left: int, maxChunks: nat)
    requires left >= 1
    ensures left * (maxChunks + 1) == (left - 1) * (maxChunks + 1) + maxChunks + 1
    ensures (left - 1) * (maxChunks + 1) >= 0
  {
  }

  lemma ActiveStep(c: Config, batch: seq<Sample>, st: State, maxChunks: nat)
    requires c.Valid() && |batch| == |st.tracks| && AtMostChunks(c, batch, maxChunks)
    requires !NobodyActive(c, batch, st)
    ensures st.chunkStep < maxChunks
  {
    var i :| 0 <= i < |batch| && Active(c, batch, st, i);
    HasChunkIffCounted(c, batch[i], st.chunkStep);
  }

  /** Where a turn leads. */
  lemma NextPhase(w: World, c: Config, batch: seq<Sample>, st: State)
    requires |batch| == |st.tracks| && !st.isDone
    ensures var next := AfterTurn(w, c, batch, st);
      match st.phase
      case ChunkPhase =>
        && !next.isDone
        && (next.phase == ChunkPhase ==> next.passNum == st.passNum && next.chunkStep == st.chunkStep + 1)
        && (next.phase == MergePhase ==> next.passNum == st.passNum)
      case MergePhase =>
        && !next.isDone && next.phase != MergePhase
        && (next.phase == ChunkPhase ==> next.passNum == st.passNum + 1 < c.maxPasses && next.chunkStep == 0)
      case FinalPhase => next.isDone
  {
    hide NobodyActive, AllConverged, SettleAll, FinalizeAll, TurnAll, ClearAll;
  }

  /** Every turn uses up at least one of the turns left, whatever the model answers. */
  lemma TurnUsesUp(w: World, c: Config, batch: seq<Sample>, st: State, maxChunks: nat)
    requires Consistent(w, c, batch, st) && !st.isDone && AtMostChunks(c, batch, maxChunks)
    ensures 0 <= TurnsLeft(c, maxChunks, AfterTurn(w, c, batch, Ready(c, batch, st))) < TurnsLeft(c, maxChunks, st)
  {
    ReadyConsistent(w, c, batch, st);
    var ready := Ready(c, batch, st);
    assert ready == st || (st.phase == ChunkPhase && ready.phase != ChunkPhase);
    AfterTurnConsistent(w, c, batch, ready);
    NextPhase(w, c, batch, ready);
    if ready.phase == ChunkPhase {
      ActiveStep(c, batch, ready, maxChunks);
    }
    var next := AfterTurn(w, c, batch, ready);
    assert next.phase == ChunkPhase ==> !next.isDone && (Fresh(next) || !NobodyActive(c, batch, next));
    if next.phase == ChunkPhase && !NobodyActive(c, batch, next) {
      ActiveStep(c, batch, next, maxChunks);
    }
    hide Ready, AfterTurn, Consistent, NobodyActive, AtMostChunks;
    TurnsDrop(c, maxChunks, st, ready, next);
  }

  lemma TurnsDrop(c: Config, maxChunks: nat, st: State, ready: State, next: State)
    requires !st.isDone && !ready.isDone && (st.phase != FinalPhase ==> st.passNum < c.maxPasses)
    requires st.phase == ChunkPhase && ready.phase == FinalPhase ==> st.chunkStep <= maxChunks
    requires ready == st || (st.phase == ChunkPhase && ready.phase == FinalPhase)
    requires match ready.phase
      case ChunkPhase =>
        && !next.isDone && ready.chunkStep < maxChunks
        && (next.phase == ChunkPhase ==> next.passNum == ready.passNum && next.chunkStep == ready.chunkStep + 1)
        && (next.phase == MergePhase ==> next.passNum == ready.passNum)
      case MergePhase =>
        && !next.isDone && next.phase != MergePhase
        && (next.phase == ChunkPhase ==> next.passNum == ready.passNum + 1 < c.maxPasses && next.chunkStep == 0)
      case FinalPhase => next.isDone
    ensures 0 <= TurnsLeft(c, maxChunks, next) < TurnsLeft(c, maxChunks, st)
  {
    if st.phase != FinalPhase {
      PassTurns(c.maxPasses - st.passNum, maxChunks);
    }
    if next.phase == ChunkPhase && !next.isDone {
      PassTurns(c.maxPasses - next.passNum, maxChunks);
    }
  }
}
