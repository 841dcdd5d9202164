/**
 * What the requests of a sample have to look like, said without the functions that build them: which
 * tokens of the context each chunk request shows, what memory it carries, and what is merged.
 */
module Transcript {
  import opened Arith
  import opened Sequences
  import opened Wrappers
  import opened Text
  import opened Rollout

  // ----- the tokens of a chunk

  /** `at` are the places from `from` to before `to` that do not hold a pad token, and `ts` their tokens. */
  ghost predicate PickedAt(at: seq<nat>, ts: seq<Token>, context: seq<Token>, from: nat, to: nat, pad: Token) {
    && |at| == |ts| && Ascending(at)
    && (forall k :: 0 <= k < |at| ==> from <= at[k] < to && at[k] < |context| && context[at[k]] == ts[k] != pad)
    && (forall j :: from <= j < to && j < |context| && context[j] != pad ==> j in at)
  }

  /** `ts` are exactly the tokens of this part of the context that are not pad tokens, in order. */
  ghost predicate NonPadTokens(ts: seq<Token>, context: seq<Token>, from: nat, to: nat, pad: Token) {
    exists at: seq<nat> :: PickedAt(at, ts, context, from, to, pad)
  }

  lemma {:induction false} UnpadKeeps(context: seq<Token>, pad: Token) returns (at: seq<nat>)
    ensures PickedAt(at, Unpad(context, pad), context, 0, |context|, pad)
  {
    if context == [] {
      at := [];
    } else {
      var more := UnpadKeeps(context[1..], pad);
      at := Shifted(more, 1);
      FirstToken(context, pad, more, Unpad(context[1..], pad));
      if context[0] != pad {
        at := [0] + at;
      }
    }
  }

  lemma FirstToken(context: seq<Token>, pad: Token, more: seq<nat>, ts: seq<Token>)
    requires context != [] && PickedAt(more, ts, context[1..], 0, |context| - 1, pad)
    ensures context[0] == pad ==> PickedAt(Shifted(more, 1), ts, context, 0, |context|, pad)
    ensures context[0] != pad ==> PickedAt([0] + Shifted(more, 1), [context[0]] + ts, context, 0, |context|, pad)
  {
    MovedUp(more, ts, context, pad);
    if context[0] == pad {
      assert PickedAt(Shifted(more, 1), ts, context, 0, |context|, pad);
    } else {
      assert PickedAt([0], [context[0]], context, 0, 1, pad);
      PlacesConcat([0], Shifted(more, 1), [context[0]], ts, context, 0, 1, |context|, pad);
    }
  }

  lemma MovedUp(more: seq<nat>, ts: seq<Token>, context: seq<Token>, pad: Token)
    requires context != [] && PickedAt(more, ts, context[1..], 0, |context| - 1, pad)
    ensures PickedAt(Shifted(more, 1), ts, context, 1, |context|, pad)
  {
    forall j | 1 <= j < |context| && context[j] != pad
      ensures j in Shifted(more, 1)
    {
      assert context[1..][j - 1] == context[j];
      var k :| 0 <= k < |more| && more[k] == j - 1;
      assert Shifted(more, 1)[k] == j;
    }
  }

  /** The slice that a chunk request unpads holds exactly the tokens between its bounds. */
  lemma SlicePicked(context: seq<Token>, from: nat, to: nat, pad: Token)
    ensures NonPadTokens(Unpad(Slice(context, from, to), pad), context, from, to, pad)
  {
    var part := Slice(context, from, to);
    var at := UnpadKeeps(part, pad);
    MovedBack(at, Unpad(part, pad), context, from, to, pad);
  }

  lemma MovedBack(at: seq<nat>, ts: seq<Token>, context: seq<Token>, from: nat, to: nat, pad: Token)
    requires PickedAt(at, ts, Slice(context, from, to), 0, |Slice(context, from, to)|, pad)
    ensures PickedAt(Shifted(at, from), ts, context, from, to, pad)
  {
    forall j | from <= j < to && j < |context| && context[j] != pad
      ensures j in Shifted(at, from)
    {
      assert Slice(context, from, to)[j - from] == context[j];
      var k :| 0 <= k < |at| && at[k] == j - from;
      assert Shifted(at, from)[k] == j;
    }
  }

  /** Neighbouring parts put together. */
  lemma PickedConcat(a: seq<Token>, b: seq<Token>, context: seq<Token>, from: nat, mid: nat, to: nat, pad: Token)
    requires from <= mid <= to
    requires NonPadTokens(a, context, from, mid, pad) && NonPadTokens(b, context, mid, to, pad)
    ensures NonPadTokens(a + b, context, from, to, pad)
  {
    hide PickedAt;
    var x: seq<nat> :| PickedAt(x, a, context, from, mid, pad);
    var y: seq<nat> :| PickedAt(y, b, context, mid, to, pad);
    PlacesConcat(x, y, a, b, context, from, mid, to, pad);
  }

  lemma PlacesConcat(x: seq<nat>, y: seq<nat>, a: seq<Token>, b: seq<Token>, context: seq<Token>,
                     from: nat, mid: nat, to: nat, pad: Token)
    requires from <= mid <= to && PickedAt(x, a, context, from, mid, pad) && PickedAt(y, b, context, mid, to, pad)
    ensures PickedAt(x + y, a + b, context, from, to, pad)
  {
    var at, ts := x + y, a + b;
    assert forall k :: 0 <= k < |at| ==> at[k] == (if k < |x| then x[k] else y[k - |x|]);
    assert forall k :: 0 <= k < |at| ==> from <= at[k] < to && at[k] < |context| && context[at[k]] == ts[k] != pad;
    assert Ascending(at);
    forall j | from <= j < to && j < |context| && context[j] != pad
      ensures j in at
    {
      assert if j < mid then j in x else j in y;
    }
  }

  /** Pad tokens behind the end do not matter. */
  lemma PickedShrinks(ts: seq<Token>, context: seq<Token>, end: nat, to: nat, pad: Token)
    requires end <= to && NonPadTokens(ts, context, 0, to, pad)
    requires forall j :: end <= j < |context| ==> context[j] == pad
    ensures NonPadTokens(ts, context, 0, end, pad)
  {
    var at: seq<nat> :| PickedAt(at, ts, context, 0, to, pad);
    assert PickedAt(at, ts, context, 0, end, pad);
  }

  // ----- requests

  /** The text of chunk `k`: the context from the `k`-th multiple of the chunk size to the next, unpadded. */
  ghost predicate IsChunkText(w: World, c: Config, s: Sample, text: string, k: nat) {
    exists ts: seq<Token> ::
      NonPadTokens(ts, s.contextIds, k * c.chunkSize, (k + 1) * c.chunkSize, w.padToken) && text == w.decode(ts)
  }

  ghost predicate ShowsChunk(w: World, c: Config, s: Sample, m: Message, memory: string, k: nat) {
    m.ChunkPrompt? && m.prompt == s.prompt && m.memory == memory && IsChunkText(w, c, s, m.chunk, k)
  }

  lemma ChunkMessageShows(w: World, c: Config, s: Sample, memory: string, k: nat)
    ensures ShowsChunk(w, c, s, ChunkMessage(w, c, s, memory, k), memory, k)
  {
    SlicePicked(s.contextIds, k * c.chunkSize, (k + 1) * c.chunkSize, w.padToken);
    hide NonPadTokens, Slice, Unpad;
  }

  /** `n` chunks reach to the end of the context, and the last one has some of it. */
  ghost predicate Covers(c: Config, s: Sample, n: nat) {
    n * c.chunkSize >= s.contextLength && (n > 0 ==> (n - 1) * c.chunkSize < s.contextLength)
  }

  lemma CountCovers(c: Config, s: Sample)
    requires c.Valid()
    ensures Covers(c, s, ChunkCount(c, s))
  {
    ChunkCountBounds(c, s);
    var n := ChunkCount(c, s);
    if n > 0 {
      assert n * c.chunkSize == (n - 1) * c.chunkSize + c.chunkSize;
    }
  }

  ghost predicate AreTokens(w: World, texts: seq<string>, ts: seq<seq<Token>>) {
    |ts| == |texts| && forall k :: 0 <= k < |texts| ==> texts[k] == w.decode(ts[k])
  }

  lemma {:induction false} ChunksJoin(w: World, c: Config, s: Sample, texts: seq<string>) returns (ts: seq<seq<Token>>)
    requires forall k :: 0 <= k < |texts| ==> IsChunkText(w, c, s, texts[k], k)
    ensures AreTokens(w, texts, ts)
    ensures NonPadTokens(Flatten(ts), s.contextIds, 0, |texts| * c.chunkSize, w.padToken)
  {
    if texts == [] {
      ts := [];
      assert PickedAt([], [], s.contextIds, 0, 0, w.padToken);
    } else {
      var n := |texts| - 1;
      var init := ChunksJoin(w, c, s, texts[..n]);
      assert IsChunkText(w, c, s, texts[n], n);
      hide NonPadTokens;
      var own: seq<Token> :|
        NonPadTokens(own, s.contextIds, n * c.chunkSize, (n + 1) * c.chunkSize, w.padToken) && texts[n] == w.decode(own);
      ts := init + [own];
      FlattenSnoc(init, own);
      MulMono(n, n + 1, c.chunkSize);
      PickedConcat(Flatten(init), own, s.contextIds, 0, n * c.chunkSize, (n + 1) * c.chunkSize, w.padToken);
    }
  }

  /**
   * The chunks of a pass, put together, are the tokens of the context without its pads, once each and in
   * order, when the context is padded behind its length.
   */
  lemma ChunksAreTheContext(w: World, c: Config, s: Sample, texts: seq<string>) returns (ts: seq<seq<Token>>)
    requires Covers(c, s, |texts|) && forall k :: 0 <= k < |texts| ==> IsChunkText(w, c, s, texts[k], k)
    requires forall j :: s.contextLength <= j < |s.contextIds| ==> s.contextIds[j] == w.padToken
    ensures AreTokens(w, texts, ts)
    ensures NonPadTokens(Flatten(ts), s.contextIds, 0, s.contextLength, w.padToken)
  {
    ts := ChunksJoin(w, c, s, texts);
    PickedShrinks(Flatten(ts), s.contextIds, s.contextLength, |texts| * c.chunkSize, w.padToken);
  }

  // ----- a run of passes

  /** One pass: the memory it reads against, its chunk requests, and its merge request if there is news. */
  datatype Pass = Pass(memory: string, chunks: seq<Message>, merge: Option<Message>)
  {
    function Requests(): seq<Message> {
      if merge.Some? then chunks + [merge.value] else chunks
    }
  }

  /** The replies that bring something new, in order; the first of these requests is the sample's `first`-th. */
  function News(w: World, i: nat, first: nat, chunks: seq<Message>): seq<string> {
    if chunks == [] then []
    else
      var n := |chunks| - 1;
      var reply := w.reply(i, first + n, chunks[n]);
      News(w, i, first, chunks[..n]) + if w.noNewInfo(reply) then [] else [reply]
  }

  /** The whole context is read in order against one memory; what is new, and nothing else, is merged into it. */
  ghost predicate IsPass(w: World, c: Config, i: nat, s: Sample, first: nat, p: Pass) {
    && Covers(c, s, |p.chunks|)
    && (forall k :: 0 <= k < |p.chunks| ==> ShowsChunk(w, c, s, p.chunks[k], p.memory, k))
    && (p.merge.None? <==> News(w, i, first, p.chunks) == [])
    && (p.merge.Some? ==> IsMerge(s, p.memory, News(w, i, first, p.chunks), p.merge.value))
  }

  ghost predicate IsMerge(s: Sample, memory: string, news: seq<string>, m: Message) {
    m.MergePrompt? && m.prompt == s.prompt && IsPayload(Some(memory), news, m.memories)
  }

  /**
   * `msgs` are passes number `pass` and on, the first request being the sample's `first`-th, and the answer:
   * a pass without news or the last pass allowed is followed by the answer, any other by the next pass
   * with the stripped merge reply as its memory.
   */
  ghost predicate IsRun(w: World, c: Config, i: nat, s: Sample, first: nat, memory: string, pass: nat,
                        msgs: seq<Message>, last: string, passUsed: nat)
    decreases c.maxPasses - pass, 1
  {
    exists p: Pass, rest: seq<Message>, next: string ::
      msgs == p.Requests() + rest && p.memory == memory && Continues(w, c, i, s, first, p, next, pass, rest, last, passUsed)
  }

  /** What follows pass `p`, whose successor starts with memory `next`. */
  ghost predicate Continues(w: World, c: Config, i: nat, s: Sample, first: nat, p: Pass, next: string, pass: nat,
                            rest: seq<Message>, last: string, passUsed: nat)
    decreases c.maxPasses - pass, 0
  {
    && IsPass(w, c, i, s, first, p)
    && (if p.merge.None? then next == p.memory else Trims(w.reply(i, first + |p.chunks|, p.merge.value), next))
    && if p.merge.Some? && pass < c.maxPasses then
         IsRun(w, c, i, s, first + |p.chunks| + 1, next, pass + 1, rest, last, passUsed)
       else
         last == next && passUsed == pass && rest == [FinalPrompt(s.prompt, last)]
  }

  // ----- the rollout is such a run

  ghost predicate ReadSoFar(w: World, c: Config, s: Sample, memory: string, chunks: seq<Message>) {
    forall k :: 0 <= k < |chunks| ==> ShowsChunk(w, c, s, chunks[k], memory, k)
  }

  lemma NewsSnoc(w: World, i: nat, first: nat, chunks: seq<Message>, m: Message)
    ensures News(w, i, first, chunks + [m]) == WithReply(w, News(w, i, first, chunks), w.reply(i, first + |chunks|, m))
  {
    assert (chunks + [m])[..|chunks|] == chunks;
  }

  lemma RunByPass(w: World, c: Config, i: nat, s: Sample, first: nat, p: Pass, next: string, pass: nat,
                  rest: seq<Message>, last: string, passUsed: nat)
    requires Continues(w, c, i, s, first, p, next, pass, rest, last, passUsed)
    ensures IsRun(w, c, i, s, first, p.memory, pass, p.Requests() + rest, last, passUsed)
  {
    hide Continues;
  }

  /** The chunks read so far and the rest of the rollout are one run from this pass on. */
  lemma {:induction false} ChunksRun(w: World, c: Config, i: nat, s: Sample, first: nat, memory: string, pass: nat,
                                     done: seq<Message>)
    requires c.Valid() && pass < c.maxPasses && |done| <= ChunkCount(c, s) && ReadSoFar(w, c, s, memory, done)
    ensures var o := FromChunk(w, c, i, s, first + |done|, memory, pass, |done|, News(w, i, first, done));
      IsRun(w, c, i, s, first, memory, pass + 1, done + o.msgs, o.memory, o.passUsed)
    decreases c.maxPasses - pass, ChunkCount(c, s) - |done|
  {
    hide ChunkMessage, ShowsChunk, IsRun, MergeText, Strip, ChunkCount, News;
    var news := News(w, i, first, done);
    if |done| < ChunkCount(c, s) {
      var m := ChunkMessage(w, c, s, memory, |done|);
      ChunkMessageShows(w, c, s, memory, |done|);
      NewsSnoc(w, i, first, done, m);
      ChunksRun(w, c, i, s, first, memory, pass, done + [m]);
      var o := FromChunk(w, c, i, s, first + |done| + 1, memory, pass, |done| + 1, News(w, i, first, done + [m]));
      Associative(done, [m], o.msgs);
    } else {
      CountCovers(c, s);
      if news == [] {
        ConvergedRun(w, c, i, s, first, memory, pass, done);
      } else {
        MergedRun(w, c, i, s, first, memory, pass, done);
      }
    }
  }

  lemma ConvergedRun(w: World, c: Config, i: nat, s: Sample, first: nat, memory: string, pass: nat, done: seq<Message>)
    requires Covers(c, s, |done|) && ReadSoFar(w, c, s, memory, done) && News(w, i, first, done) == []
    ensures IsRun(w, c, i, s, first, memory, pass + 1, done + [FinalPrompt(s.prompt, memory)], memory, pass + 1)
  {
    hide Covers, ShowsChunk, News, IsRun;
    var p := Pass(memory, done, None);
    assert IsPass(w, c, i, s, first, p);
    RunByPass(w, c, i, s, first, p, memory, pass + 1, [FinalPrompt(s.prompt, memory)], memory, pass + 1);
  }

  lemma {:induction false} MergedRun(w: World, c: Config, i: nat, s: Sample, first: nat, memory: string, pass: nat,
                                     done: seq<Message>)
    requires c.Valid() && pass < c.maxPasses && Covers(c, s, |done|) && ReadSoFar(w, c, s, memory, done)
    requires News(w, i, first, done) != []
    ensures var o := FromMerge(w, c, i, s, first + |done|, memory, pass, News(w, i, first, done));
      IsRun(w, c, i, s, first, memory, pass + 1, done + o.msgs, o.memory, o.passUsed)
    decreases c.maxPasses - pass, 0, 0
  {
    hide Covers, ShowsChunk, News, IsRun, MergeText, Strip, IsPayload, Trims, ChunkMessage;
    var news := News(w, i, first, done);
    var m := MergePrompt(s.prompt, MergeText(Some(memory), news));
    var merged := Strip(w.reply(i, first + |done|, m));
    MergeTextIs(Some(memory), news);
    StripTrims(w.reply(i, first + |done|, m));
    var p := Pass(memory, done, Some(m));
    assert IsPass(w, c, i, s, first, p);
    var o := if pass + 1 >= c.maxPasses then Answer(s, merged, pass + 1)
             else FromChunk(w, c, i, s, first + |done| + 1, merged, pass + 1, 0, []);
    if pass + 1 < c.maxPasses {
      NoNews(w, i, first + |done| + 1);
      ChunksRun(w, c, i, s, first + |done| + 1, merged, pass + 1, []);
      assert [] + o.msgs == o.msgs;
    }
    RunByPass(w, c, i, s, first, p, merged, pass + 1, o.msgs, o.memory, o.passUsed);
    Associative(done, [m], o.msgs);
  }

  lemma NoNews(w: World, i: nat, first: nat)
    ensures News(w, i, first, []) == []
  {
  }

  /** The rollout of a sample is a run of passes over its context. */
  lemma RolloutIsRun(w: World, c: Config, i: nat, s: Sample)
    requires c.Valid()
    ensures var o := RolloutOf(w, c, i, s);
      IsRun(w, c, i, s, 0, "No previous memory", 1, o.msgs, o.memory, o.passUsed)
  {
    hide IsRun, FromChunk;
    NoNews(w, i, 0);
    ChunksRun(w, c, i, s, 0, NO_MEMORY, 0, []);
    assert [] + RolloutOf(w, c, i, s).msgs == RolloutOf(w, c, i, s).msgs;
  }

  function MessagesOf(rows: seq<Row>): (r: seq<Message>)
    ensures |r| == |rows| && forall k :: 0 <= k < |r| ==> r[k] == rows[k].msg
  {
    seq(|rows|, k requires 0 <= k < |rows| => rows[k].msg)
  }

  /**
   * The record of sample `i`: its requests are a run over its own context, ending with memory `last`;
   * every reply is the model's to this request, and only the last row is final and tells the passes used.
   */
  ghost predicate IsRecord(w: World, c: Config, i: nat, s: Sample, rows: seq<Row>, last: string) {
    && rows != [] && rows[|rows| - 1].passUsed >= 0
    && (forall k :: 0 <= k < |rows| ==>
         rows[k].sample == i && rows[k].reply == w.reply(i, k, rows[k].msg) && (rows[k].isFinal <==> k == |rows| - 1))
    && IsRun(w, c, i, s, 0, "No previous memory", 1, MessagesOf(rows), last, rows[|rows| - 1].passUsed)
  }

  ghost predicate HasRecord(w: World, c: Config, i: nat, s: Sample, rows: seq<Row>) {
    exists last: string :: IsRecord(w, c, i, s, rows, last)
  }

  lemma RecordIs(w: World, c: Config, i: nat, s: Sample, rows: seq<Row>)
    requires c.Valid() && rows != []
    requires var o := RolloutOf(w, c, i, s);
      && |rows| == |o.msgs| && rows[|rows| - 1].passUsed == o.passUsed
      && forall k :: 0 <= k < |rows| ==>
           && rows[k].sample == i && rows[k].msg == o.msgs[k] && rows[k].reply == w.reply(i, k, o.msgs[k])
           && (rows[k].isFinal <==> k == |rows| - 1)
    ensures IsRecord(w, c, i, s, rows, RolloutOf(w, c, i, s).memory)
  {
    hide RolloutOf, IsRun;
    RolloutIsRun(w, c, i, s);
    assert MessagesOf(rows) == RolloutOf(w, c, i, s).msgs;
  }
}
