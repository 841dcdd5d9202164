/** `reverse_indices` and `final_batch`: one final row per sample, back in the order of the batch. */
module FinalBatch {
  import opened Text
  import opened Wrappers
  import opened Rollout
  import opened GenerationManager
  import opened BatchMachine
  import AsyncAgent

  // ----- torch.unique(t, return_inverse=True)

  predicate Increasing(s: seq<int>) {
    forall j, k :: 0 <= j < k < |s| ==> s[j] < s[k]
  }

  predicate NoDuplicates(t: seq<int>) {
    forall j, k :: 0 <= j < k < |t| ==> t[j] != t[k]
  }

  function Insert(u: seq<int>, x: int): (r: seq<int>)
    requires Increasing(u)
    ensures Increasing(r) && forall y :: y in r <==> y == x || y in u
    ensures |r| == if x in u then |u| else |u| + 1
    ensures r != [] && r[0] == if u == [] || x < u[0] then x else u[0]
  {
    if u == [] || x < u[0] then [x] + u
    else if x == u[0] then u
    else
      assert u == [u[0]] + u[1..];
      [u[0]] + Insert(u[1..], x)
  }

  function Unique(t: seq<int>): (u: seq<int>)
    ensures Increasing(u) && forall y :: y in u <==> y in t
  {
    if t == [] then []
    else
      assert t == t[..|t| - 1] + [t[|t| - 1]];
      Insert(Unique(t[..|t| - 1]), t[|t| - 1])
  }

  lemma {:induction false} UniqueLength(t: seq<int>)
    ensures |Unique(t)| <= |t|
    ensures |Unique(t)| == |t| <==> NoDuplicates(t)
  {
    hide Increasing;
    if t != [] {
      var init, last := t[..|t| - 1], t[|t| - 1];
      UniqueLength(init);
      NoDuplicatesSnoc(init, last);
      assert init + [last] == t;
    }
  }

  lemma NoDuplicatesSnoc(init: seq<int>, last: int)
    ensures NoDuplicates(init + [last]) <==> NoDuplicates(init) && last !in init
  {
    var t := init + [last];
    assert forall j :: 0 <= j < |init| ==> t[j] == init[j];
    if j :| 0 <= j < |init| && init[j] == last {
      assert t[j] == t[|init|];
    }
    if NoDuplicates(t) {
      assert NoDuplicates(init);
    }
  }

  function Rank(u: seq<int>, x: int): (k: nat)
    requires x in u
    ensures k < |u| && u[k] == x
  {
    if u[0] == x then 0 else 1 + Rank(u[1..], x)
  }

  /** `None` stands for the assertion that the input has no duplicates. */
  method ReverseIndices(t: seq<int>) returns (r: Option<seq<nat>>)
    ensures r.Some? <==> NoDuplicates(t)
    ensures r.Some? ==>
      && |r.value| == |t| == |Unique(t)|
      && forall k :: 0 <= k < |t| ==> r.value[k] < |t| && t[r.value[k]] == Unique(t)[k]
  {
    hide Unique, Rank;
    var unique := Unique(t);
    UniqueLength(t);
    if |unique| != |t| {
      return None;
    }
    var indices: seq<nat> := seq(|unique|, k => 0);
    // Without duplicates each slot has one source, so taking the least of them takes that one.
    for j := 0 to |t|
      invariant |indices| == |unique|
      invariant forall k :: 0 <= k < |unique| && unique[k] in t[..j] ==> indices[k] < j && t[indices[k]] == unique[k]
    {
      assert t[j] in unique;
      var slot := Rank(unique, t[j]);
      assert forall k :: 0 <= k < |unique| && k != slot ==> unique[k] != t[j];
      assert t[..j + 1] == t[..j] + [t[j]];
      indices := indices[slot := j];
    }
    assert t[..|t|] == t;
    return Some(indices);
  }

  // ----- final_batch

  function Select(rows: seq<Row>): seq<Row> {
    if rows == [] then []
    else
      var init := Select(rows[..|rows| - 1]);
      if rows[|rows| - 1].isFinal then init + [rows[|rows| - 1]] else init
  }

  /** Every sample below `n` has rows, and only the last of them is final. */
  ghost predicate OneAnswerEach(n: nat, rows: seq<Row>) {
    && (forall k :: 0 <= k < |rows| ==> rows[k].sample < n)
    && forall i :: 0 <= i < n ==> LastIsAnswer(RowsOf(rows, i))
  }

  predicate LastIsAnswer(own: seq<Row>) {
    own != [] && forall k :: 0 <= k < |own| ==> (own[k].isFinal <==> k == |own| - 1)
  }

  lemma {:induction false} SelectRowsOf(rows: seq<Row>, i: nat)
    ensures RowsOf(Select(rows), i) == Select(RowsOf(rows, i))
  {
    if rows != [] {
      var init, last := rows[..|rows| - 1], rows[|rows| - 1];
      SelectRowsOf(init, i);
      assert (Select(init) + [last])[..|Select(init)|] == Select(init);
      assert (RowsOf(init, i) + [last])[..|RowsOf(init, i)|] == RowsOf(init, i);
    }
  }

  lemma {:induction false} SelectLast(own: seq<Row>)
    requires LastIsAnswer(own)
    ensures Select(own) == [own[|own| - 1]]
  {
    SelectNone(own[..|own| - 1]);
  }

  lemma {:induction false} SelectNone(own: seq<Row>)
    requires forall k :: 0 <= k < |own| ==> !own[k].isFinal
    ensures Select(own) == []
  {
    if own != [] {
      SelectNone(own[..|own| - 1]);
    }
  }

  lemma {:induction false} SelectSamples(rows: seq<Row>, n: nat)
    requires forall k :: 0 <= k < |rows| ==> rows[k].sample < n
    ensures forall k :: 0 <= k < |Select(rows)| ==> Select(rows)[k].sample < n
  {
    if rows != [] {
      SelectSamples(rows[..|rows| - 1], n);
    }
  }

  lemma {:induction false} RowsOfMember(rows: seq<Row>, k: nat)
    requires k < |rows|
    ensures rows[k] in RowsOf(rows, rows[k].sample)
  {
    if k < |rows| - 1 {
      RowsOfMember(rows[..|rows| - 1], k);
    } else {
      var own := RowsOf(rows, rows[k].sample);
      assert own[|own| - 1] == rows[k];
    }
  }

  lemma {:induction false} RowsOfIn(rows: seq<Row>, i: nat, row: Row)
    requires row in RowsOf(rows, i)
    ensures row.sample == i && row in rows
  {
    var init := rows[..|rows| - 1];
    if row in RowsOf(init, i) {
      RowsOfIn(init, i, row);
    }
  }

  /** Two rows of the same sample show up twice. */
  lemma RowsOfTwice(rows: seq<Row>, j: nat, k: nat)
    requires j < k < |rows| && rows[j].sample == rows[k].sample
    ensures |RowsOf(rows, rows[j].sample)| >= 2
  {
    var a, b := rows[..k], rows[k..];
    assert rows == a + b;
    RowsOfConcat(a, b, rows[j].sample);
    RowsOfMember(a, j);
    RowsOfMember(b, 0);
  }

  lemma {:induction false} IncreasingOnto(s: seq<int>, n: nat)
    requires Increasing(s) && forall k :: 0 <= k < |s| ==> 0 <= s[k] < n
    requires forall i :: 0 <= i < n ==> i in s
    ensures |s| == n && forall k :: 0 <= k < n ==> s[k] == k
  {
    if s == [] {
      assert n > 0 ==> 0 in s;
    } else {
      assert s[0] < n;
      assert n - 1 in s;
      var last := |s| - 1;
      assert s[last] == n - 1;
      forall i | 0 <= i < n - 1
        ensures i in s[..last]
      {
        assert i in s;
      }
      IncreasingOnto(s[..last], n - 1);
    }
  }

  /** The final rows have distinct samples, and each sample below `n` is among them. */
  lemma FinalSamples(n: nat, rows: seq<Row>)
    requires OneAnswerEach(n, rows)
    ensures var t := Samples(Select(rows));
      && NoDuplicates(t)
      && (forall k :: 0 <= k < |t| ==> t[k] < n)
      && forall i :: 0 <= i < n ==> i in t
  {
    var finals := Select(rows);
    var t := Samples(finals);
    SelectSamples(rows, n);
    forall i | 0 <= i < n
      ensures RowsOf(finals, i) == [RowsOf(rows, i)[|RowsOf(rows, i)| - 1]] && i in t
    {
      SelectRowsOf(rows, i);
      SelectLast(RowsOf(rows, i));
      var row := RowsOf(finals, i)[0];
      RowsOfIn(finals, i, row);
      var k :| 0 <= k < |finals| && finals[k] == row;
      assert t[k] == i;
    }
    forall j, k | 0 <= j < k < |t|
      ensures t[j] != t[k]
    {
      if finals[j].sample == finals[k].sample {
        RowsOfTwice(finals, j, k);
      }
    }
  }

  /**
   * The final rows, reordered so that sample `i` comes at position `i`. The reordering never fails
   * when every sample has one answer.
   */
  method ExtractFinal(rows: seq<Row>, ghost n: nat) returns (result: Option<seq<Row>>)
    requires OneAnswerEach(n, rows)
    ensures result.Some? && |result.value| == n
    ensures forall i :: 0 <= i < n ==> result.value[i] == RowsOf(rows, i)[|RowsOf(rows, i)| - 1]
  {
    hide RowsOf, Select, Unique;
    var finals := Select(rows);
    var t := Samples(finals);
    FinalSamples(n, rows);
    var order := ReverseIndices(t);
    if order.None? {
      return None;
    }
    forall k | 0 <= k < |Unique(t)|
      ensures 0 <= Unique(t)[k] < n
    {
      assert Unique(t)[k] in t;
    }
    IncreasingOnto(Unique(t), n);
    result := Some(seq(|order.value|, k requires 0 <= k < |order.value| && order.value[k] < |finals| => finals[order.value[k]]));
    forall i | 0 <= i < n
      ensures result.value[i] == RowsOf(rows, i)[|RowsOf(rows, i)| - 1]
    {
      var row := result.value[i];
      assert row.sample == t[order.value[i]] == i;
      RowsOfMember(finals, order.value[i]);
      SelectRowsOf(rows, i);
      SelectLast(RowsOf(rows, i));
    }
  }

  // ----- both managers, up to the rows the reward sees

  /** The async manager: the records of all samples, gathered in batch order. */
  method RunAsyncLoop(w: World, c: Config, batch: seq<Sample>, parallelism: int) returns (rows: seq<Row>)
    requires c.Valid()
    ensures OneAnswerEach(|batch|, rows)
    ensures forall i :: 0 <= i < |batch| ==> AsyncAgent.RecordsSample(w, c, i, batch[i], RowsOf(rows, i))
  {
    hide RolloutOf;
    rows := [];
    for i := 0 to |batch|
      invariant forall k :: 0 <= k < |rows| ==> rows[k].sample < i
      invariant forall j :: 0 <= j < i ==> AsyncAgent.RecordsSample(w, c, j, batch[j], RowsOf(rows, j))
    {
      var own, memory := AsyncAgent.RolloutSample(w, c, i, batch[i], parallelism);
      forall j | 0 <= j <= i
        ensures RowsOf(rows + own, j) == if j < i then RowsOf(rows, j) else own
      {
        RowsOfConcat(rows, own, j);
        if j < i {
          RowsOfAbsent(own, j);
        } else {
          RowsOfAbsent(rows, j);
          RowsOfAll(own, i);
        }
      }
      rows := rows + own;
    }
    forall i | 0 <= i < |batch|
      ensures LastIsAnswer(RowsOf(rows, i))
    {
      RolloutAnswers(w, c, i, batch[i]);
    }
  }

  lemma {:induction false} RowsOfAll(rows: seq<Row>, i: nat)
    requires forall k :: 0 <= k < |rows| ==> rows[k].sample == i
    ensures RowsOf(rows, i) == rows
  {
    if rows != [] {
      RowsOfAll(rows[..|rows| - 1], i);
    }
  }

  /** Every rollout ends with the answer, so it has at least one request. */
  lemma {:induction false} ChunksAnswer(w: World, c: Config, i: nat, s: Sample, n: nat,
                                        memory: string, pass: nat, step: nat, news: seq<string>)
    requires c.Valid() && pass < c.maxPasses
    ensures var o := FromChunk(w, c, i, s, n, memory, pass, step, news);
      o.msgs != [] && o.msgs[|o.msgs| - 1] == FinalPrompt(s.prompt, o.memory) && pass < o.passUsed <= c.maxPasses
    decreases c.maxPasses - pass, 2, ChunkCount(c, s) - step
  {
    hide ChunkMessage, MergeText, Strip;
    if step < ChunkCount(c, s) {
      var m := ChunkMessage(w, c, s, memory, step);
      ChunksAnswer(w, c, i, s, n + 1, memory, pass, step + 1, WithReply(w, news, w.reply(i, n, m)));
    } else if news != [] && pass + 1 < c.maxPasses {
      var m := MergePrompt(s.prompt, MergeText(Some(memory), news));
      ChunksAnswer(w, c, i, s, n + 1, Strip(w.reply(i, n, m)), pass + 1, 0, []);
    }
  }

  lemma RolloutAnswers(w: World, c: Config, i: nat, s: Sample)
    requires c.Valid()
    ensures var o := RolloutOf(w, c, i, s);
      o.msgs != [] && o.msgs[|o.msgs| - 1] == FinalPrompt(s.prompt, o.memory) && 1 <= o.passUsed <= c.maxPasses
  {
    ChunksAnswer(w, c, i, s, 0, NO_MEMORY, 0, 0, []);
  }

  /**
   * Both managers record the same conversations for every sample, in the same order.
   * The rows that reach the reward are the same, whichever manager ran the batch and with whatever
   * request windows: sample `i`'s answer at position `i`, with the passes it used.
   */
  method SameFinalBatch(w: World, c: Config, batch: seq<Sample>, parallelism: int, ghost maxChunks: nat)
    returns (fromBatch: Option<seq<Row>>, fromAsync: Option<seq<Row>>, rows: seq<Row>, asyncRows: seq<Row>)
    requires c.Valid() && batch != [] && AtMostChunks(c, batch, maxChunks)
    ensures forall i :: 0 <= i < |batch| ==> SameUpToPass(RowsOf(rows, i), RowsOf(asyncRows, i))
    ensures fromBatch.Some? && fromBatch == fromAsync && |fromBatch.value| == |batch|
    ensures forall i :: 0 <= i < |batch| ==>
      var o := RolloutOf(w, c, i, batch[i]);
      fromBatch.value[i].sample == i && fromBatch.value[i].passUsed == o.passUsed
      && fromBatch.value[i].msg == FinalPrompt(batch[i].prompt, o.memory)
  {
    hide RolloutOf;
    var finalMask, sampleIndex, activeNums;
    rows, finalMask, sampleIndex, activeNums := RunLlmLoop(w, c, batch, maxChunks);
    AnswersOfBatch(w, c, batch, rows);
    fromBatch := ExtractFinal(rows, |batch|);
    asyncRows := RunAsyncLoop(w, c, batch, parallelism);
    fromAsync := ExtractFinal(asyncRows, |batch|);
    forall i | 0 <= i < |batch|
      ensures SameUpToPass(RowsOf(rows, i), RowsOf(asyncRows, i))
      ensures fromBatch.value[i] == fromAsync.value[i]
      ensures fromBatch.value[i].sample == i && fromBatch.value[i].passUsed == RolloutOf(w, c, i, batch[i]).passUsed
      ensures fromBatch.value[i].msg == FinalPrompt(batch[i].prompt, RolloutOf(w, c, i, batch[i]).memory)
    {
      BatchRefinesAsync(w, c, i, batch[i], RowsOf(rows, i), RowsOf(asyncRows, i));
      RolloutAnswers(w, c, i, batch[i]);
    }
    assert fromBatch.value == fromAsync.value;
  }

  lemma AnswersOfBatch(w: World, c: Config, batch: seq<Sample>, rows: seq<Row>)
    requires c.Valid() && forall i :: 0 <= i < |batch| ==> RecordsRollout(w, c, i, batch[i], RowsOf(rows, i))
    requires forall k :: 0 <= k < |rows| ==> rows[k].sample < |batch|
    ensures OneAnswerEach(|batch|, rows)
  {
    hide RolloutOf;
    forall i | 0 <= i < |batch|
      ensures LastIsAnswer(RowsOf(rows, i))
    {
      assert RecordsRollout(w, c, i, batch[i], RowsOf(rows, i));
    }
  }
}
