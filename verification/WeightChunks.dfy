/** Weights on their way: cut into chunks no larger than a bucket, and put together again. */
module WeightChunks {
  import opened Wrappers
  import opened Arith

  newtype byte = x: int | 0 <= x < 256

  /** A weight tensor as the bytes it occupies. */
  datatype Weight = Weight(name: string, bytes: seq<byte>)

  /** `nbytes` is the size of the whole tensor, which shape and dtype determine. */
  datatype TensorMeta = TensorMeta(name: string, nbytes: nat, chunkOffset: nat, chunkSize: nat)

  datatype Chunk = Chunk(meta: TensorMeta, data: seq<byte>)

  function Last<T>(s: seq<T>): T
    requires s != []
  {
    s[|s| - 1]
  }

  // ----- split_weight_chunks

  function ChunksFrom(w: Weight, bucketSize: nat, from: nat): seq<Chunk>
    requires bucketSize >= 1
    decreases |w.bytes| - from
  {
    if from >= |w.bytes| then []
    else
      var size := Min(bucketSize, |w.bytes| - from);
      [Chunk(TensorMeta(w.name, |w.bytes|, from, size), w.bytes[from..from + size])]
        + ChunksFrom(w, bucketSize, from + size)
  }

  function Chunks(ws: seq<Weight>, bucketSize: nat): seq<Chunk>
    requires bucketSize >= 1
  {
    if ws == [] then [] else Chunks(ws[..|ws| - 1], bucketSize) + ChunksFrom(Last(ws), bucketSize, 0)
  }

  method SplitWeightChunks(ws: seq<Weight>, bucketSize: nat) returns (chunks: seq<Chunk>)
    requires bucketSize >= 1
    ensures chunks == Chunks(ws, bucketSize)
  {
    chunks := [];
    for i := 0 to |ws|
      invariant chunks == Chunks(ws[..i], bucketSize)
    {
      var w := ws[i];
      var chunkOffset := 0;
      while chunkOffset < |w.bytes|
        invariant Chunks(ws[..i], bucketSize) + ChunksFrom(w, bucketSize, 0)
               == chunks + ChunksFrom(w, bucketSize, chunkOffset)
      {
        var chunkSize := Min(bucketSize, |w.bytes| - chunkOffset);
        var meta := TensorMeta(w.name, |w.bytes|, chunkOffset, chunkSize);
        chunks := chunks + [Chunk(meta, w.bytes[chunkOffset..chunkOffset + chunkSize])];
        chunkOffset := chunkOffset + chunkSize;
      }
      assert ws[..i + 1][..i] == ws[..i];
    }
    assert ws[..|ws|] == ws;
  }

  /** The chunk describes its data, is not empty and fits into a bucket. */
  predicate WellFormed(c: Chunk, bucketSize: nat) {
    && |c.data| == c.meta.chunkSize && 1 <= c.meta.chunkSize <= bucketSize
    && c.meta.chunkOffset + c.meta.chunkSize <= c.meta.nbytes
  }

  predicate AllWellFormed(chunks: seq<Chunk>, bucketSize: nat) {
    forall k :: 0 <= k < |chunks| ==> WellFormed(chunks[k], bucketSize)
  }

  lemma {:induction false} ChunksFromWellFormed(w: Weight, bucketSize: nat, from: nat)
    requires bucketSize >= 1
    ensures AllWellFormed(ChunksFrom(w, bucketSize, from), bucketSize)
    decreases |w.bytes| - from
  {
    if from < |w.bytes| {
      ChunksFromWellFormed(w, bucketSize, from + Min(bucketSize, |w.bytes| - from));
    }
  }

  lemma {:induction false} ChunksWellFormed(ws: seq<Weight>, bucketSize: nat)
    requires bucketSize >= 1
    ensures AllWellFormed(Chunks(ws, bucketSize), bucketSize)
  {
    if ws != [] {
      ChunksWellFormed(ws[..|ws| - 1], bucketSize);
      ChunksFromWellFormed(Last(ws), bucketSize, 0);
    }
  }

  predicate DistinctNames(ws: seq<Weight>) {
    forall i, j :: 0 <= i < j < |ws| ==> ws[i].name != ws[j].name
  }

  /** Of the chunks of one name only the last may be smaller than a bucket. */
  predicate Separated(chunks: seq<Chunk>, bucketSize: nat) {
    forall i, j :: 0 <= i < j < |chunks| && chunks[i].meta.name == chunks[j].meta.name ==>
      chunks[i].meta.chunkSize == bucketSize
  }

  lemma {:induction false} ChunksFromSeparated(w: Weight, bucketSize: nat, from: nat)
    requires bucketSize >= 1
    ensures Separated(ChunksFrom(w, bucketSize, from), bucketSize)
    ensures forall k :: 0 <= k < |ChunksFrom(w, bucketSize, from)| ==> ChunksFrom(w, bucketSize, from)[k].meta.name == w.name
    decreases |w.bytes| - from
  {
    if from < |w.bytes| {
      ChunksFromSeparated(w, bucketSize, from + Min(bucketSize, |w.bytes| - from));
    }
  }

  lemma {:induction false} ChunkNames(ws: seq<Weight>, bucketSize: nat, k: nat) returns (i: nat)
    requires bucketSize >= 1 && k < |Chunks(ws, bucketSize)|
    ensures i < |ws| && Chunks(ws, bucketSize)[k].meta.name == ws[i].name
  {
    var init := ws[..|ws| - 1];
    if k < |Chunks(init, bucketSize)| {
      i := ChunkNames(init, bucketSize, k);
    } else {
      ChunksFromSeparated(Last(ws), bucketSize, 0);
      i := |ws| - 1;
      assert Chunks(ws, bucketSize)[k] == ChunksFrom(Last(ws), bucketSize, 0)[k - |Chunks(init, bucketSize)|];
    }
  }

  lemma {:induction false} ChunksSeparated(ws: seq<Weight>, bucketSize: nat)
    requires bucketSize >= 1 && DistinctNames(ws)
    ensures Separated(Chunks(ws, bucketSize), bucketSize)
  {
    if ws != [] {
      var init := ws[..|ws| - 1];
      var a, b := Chunks(init, bucketSize), ChunksFrom(Last(ws), bucketSize, 0);
      ChunksSeparated(init, bucketSize);
      ChunksFromSeparated(Last(ws), bucketSize, 0);
      forall i, j | 0 <= i < |a| && 0 <= j < |b|
        ensures a[i].meta.name != b[j].meta.name
      {
        var k := ChunkNames(init, bucketSize, i);
      }
      SeparatedConcat(a, b, bucketSize);
    }
  }

  lemma SeparatedConcat(a: seq<Chunk>, b: seq<Chunk>, bucketSize: nat)
    requires Separated(a, bucketSize) && Separated(b, bucketSize)
    requires forall i, j :: 0 <= i < |a| && 0 <= j < |b| ==> a[i].meta.name != b[j].meta.name
    ensures Separated(a + b, bucketSize)
  {
  }

  // ----- merge_weight_chunks

  /** The tensor that is being put together. */
  datatype Partial = Partial(name: string, buffer: seq<byte>, offset: nat)

  datatype Merge = Merge(partial: Option<Partial>, out: seq<Weight>)

  /** One chunk: `Failure` stands for a failing assertion, view or slice assignment. */
  function MergeChunk(st: Merge, c: Chunk, bucketSize: nat, junk: byte): Result<Merge> {
    var m := c.meta;
    if m.nbytes <= bucketSize then
      if st.partial.Some? || |c.data| != m.nbytes then Failure
      else Success(Merge(None, st.out + [Weight(m.name, c.data)]))
    else if st.partial.None? && m.chunkOffset != 0 then Failure
    else
      var p := if st.partial.Some? then st.partial.value else Partial(m.name, seq(m.nbytes, _ => junk), 0);
      if m.name != p.name || p.offset != m.chunkOffset || m.chunkOffset + m.chunkSize > |p.buffer|
         || |c.data| != m.chunkSize
      then Failure
      else
        var buffer := p.buffer[..m.chunkOffset] + c.data + p.buffer[m.chunkOffset + m.chunkSize..];
        if m.chunkOffset + m.chunkSize == m.nbytes
        then Success(Merge(None, st.out + [Weight(p.name, buffer)]))
        else Success(Merge(Some(Partial(p.name, buffer, p.offset + m.chunkSize)), st.out))
  }

  function MergeAll(st: Merge, chunks: seq<Chunk>, bucketSize: nat, junk: byte): Result<Merge> {
    if chunks == [] then Success(st)
    else
      var r := MergeAll(st, chunks[..|chunks| - 1], bucketSize, junk);
      if r.Failure? then Failure else MergeChunk(r.value, Last(chunks), bucketSize, junk)
  }

  /** The fresh tensor of `torch.empty` holds `junk`; a tensor left incomplete at the end is dropped. */
  method MergeWeightChunks(chunks: seq<Chunk>, bucketSize: nat, junk: byte) returns (r: Result<seq<Weight>>)
    ensures var spec := MergeAll(Merge(None, []), chunks, bucketSize, junk);
      r == if spec.Failure? then Failure else Success(spec.value.out)
  {
    hide MergeAll;
    MergeNone(Merge(None, []), bucketSize, junk);
    assert chunks[..0] == [];
    var out := [];
    var mergeName: Option<string> := None;
    var mergeBuffer: array<byte> := new byte[0];
    var mergeOffset: nat := 0;
    for k := 0 to |chunks|
      invariant fresh(mergeBuffer)
      invariant MergeAll(Merge(None, []), chunks[..k], bucketSize, junk)
             == Success(Merge(if mergeName.Some? then Some(Partial(mergeName.value, mergeBuffer[..], mergeOffset)) else None, out))
    {
      MergeSnoc(Merge(None, []), chunks, k, bucketSize, junk);
      FailureStays(Merge(None, []), chunks, k + 1, bucketSize, junk);
      var chunk := chunks[k];
      var meta := chunk.meta;
      if meta.nbytes <= bucketSize {
        if mergeName.Some? || |chunk.data| != meta.nbytes {
          return Failure;
        }
        out := out + [Weight(meta.name, chunk.data)];
        continue;
      }
      if mergeName.None? {
        if meta.chunkOffset != 0 {
          return Failure;
        }
        mergeName := Some(meta.name);
        mergeBuffer := new byte[meta.nbytes](_ => junk);
        mergeOffset := 0;
        assert mergeBuffer[..] == seq(meta.nbytes, _ => junk);
      }
      if meta.name != mergeName.value || mergeOffset != meta.chunkOffset
         || meta.chunkOffset + meta.chunkSize > mergeBuffer.Length || |chunk.data| != meta.chunkSize {
        return Failure;
      }
      CopyInto(mergeBuffer, meta.chunkOffset, chunk.data);
      mergeOffset := mergeOffset + meta.chunkSize;
      if meta.chunkOffset + meta.chunkSize == meta.nbytes {
        out := out + [Weight(mergeName.value, mergeBuffer[..])];
        mergeName := None;
      }
    }
    assert chunks[..|chunks|] == chunks;
    r := Success(out);
  }

  lemma MergeNone(st: Merge, bucketSize: nat, junk: byte)
    ensures MergeAll(st, [], bucketSize, junk) == Success(st)
  {
  }

  lemma MergeSnoc(st: Merge, chunks: seq<Chunk>, k: nat, bucketSize: nat, junk: byte)
    requires k < |chunks| && MergeAll(st, chunks[..k], bucketSize, junk).Success?
    ensures MergeAll(st, chunks[..k + 1], bucketSize, junk)
         == MergeChunk(MergeAll(st, chunks[..k], bucketSize, junk).value, chunks[k], bucketSize, junk)
  {
    assert chunks[..k + 1][..k] == chunks[..k];
  }

  /** `buffer[offset : offset + len(data)] = data` */
  method CopyInto(buffer: array<byte>, offset: nat, data: seq<byte>)
    requires offset + |data| <= buffer.Length
    modifies buffer
    ensures buffer[..] == old(buffer[..offset]) + data + old(buffer[offset + |data|..])
  {
    forall k | 0 <= k < |data| {
      buffer[offset + k] := data[k];
    }
  }

  lemma {:induction false} FailureStays(st: Merge, chunks: seq<Chunk>, k: nat, bucketSize: nat, junk: byte)
    requires k <= |chunks|
    ensures MergeAll(st, chunks[..k], bucketSize, junk).Failure? ==> MergeAll(st, chunks, bucketSize, junk).Failure?
  {
    if k < |chunks| {
      assert chunks[..|chunks| - 1][..k] == chunks[..k];
      FailureStays(st, chunks[..|chunks| - 1], k, bucketSize, junk);
    } else {
      assert chunks[..k] == chunks;
    }
  }

  // ----- splitting and merging

  lemma {:induction false} MergeConcat(st: Merge, a: seq<Chunk>, b: seq<Chunk>, bucketSize: nat, junk: byte)
    requires MergeAll(st, a, bucketSize, junk).Success?
    ensures MergeAll(st, a + b, bucketSize, junk) == MergeAll(MergeAll(st, a, bucketSize, junk).value, b, bucketSize, junk)
  {
    if b == [] {
      assert a + b == a;
    } else {
      assert (a + b)[..|a + b| - 1] == a + b[..|b| - 1];
      MergeConcat(st, a, b[..|b| - 1], bucketSize, junk);
    }
  }

  lemma MergeOne(st: Merge, c: Chunk, bucketSize: nat, junk: byte)
    ensures MergeAll(st, [c], bucketSize, junk) == MergeChunk(st, c, bucketSize, junk)
  {
    assert [c][..0] == [];
  }

  /** The bytes up to `from` and `junk` behind them. */
  function Filled(bytes: seq<byte>, from: nat, junk: byte): (r: seq<byte>)
    requires from <= |bytes|
    ensures |r| == |bytes|
  {
    bytes[..from] + seq(|bytes| - from, _ => junk)
  }

  /** A large tensor that is complete up to `from`, or has not been begun. */
  function LargeAt(w: Weight, out: seq<Weight>, from: nat, junk: byte): Merge
    requires from <= |w.bytes|
  {
    if from == 0 then Merge(None, out)
    else if from == |w.bytes| then Merge(None, out + [w])
    else Merge(Some(Partial(w.name, Filled(w.bytes, from, junk), from)), out)
  }

  lemma FilledFurther(bytes: seq<byte>, from: nat, next: nat, junk: byte)
    requires from <= next <= |bytes|
    ensures Filled(bytes, from, junk)[..from] + bytes[from..next] + Filled(bytes, from, junk)[next..] == Filled(bytes, next, junk)
    ensures Filled(bytes, 0, junk) == seq(|bytes|, _ => junk)
    ensures Filled(bytes, |bytes|, junk) == bytes
  {
  }

  /** One chunk of a large tensor. */
  lemma MergeStep(w: Weight, out: seq<Weight>, bucketSize: nat, from: nat, next: nat, junk: byte)
    requires 1 <= bucketSize < |w.bytes| && from < next <= |w.bytes| && next - from <= bucketSize
    ensures var c := Chunk(TensorMeta(w.name, |w.bytes|, from, next - from), w.bytes[from..next]);
      MergeChunk(LargeAt(w, out, from, junk), c, bucketSize, junk) == Success(LargeAt(w, out, next, junk))
  {
    FilledFurther(w.bytes, from, next, junk);
    hide Filled;
  }

  /** A large tensor that is complete up to `from`, continued with its own chunks. */
  lemma {:induction false} MergeLarge(w: Weight, out: seq<Weight>, bucketSize: nat, from: nat, junk: byte)
    requires 1 <= bucketSize < |w.bytes| && from < |w.bytes|
    ensures MergeAll(LargeAt(w, out, from, junk), ChunksFrom(w, bucketSize, from), bucketSize, junk)
         == Success(Merge(None, out + [w]))
    decreases |w.bytes| - from
  {
    hide MergeAll, MergeChunk, LargeAt;
    var st := LargeAt(w, out, from, junk);
    var next := from + Min(bucketSize, |w.bytes| - from);
    var c := Chunk(TensorMeta(w.name, |w.bytes|, from, next - from), w.bytes[from..next]);
    MergeStep(w, out, bucketSize, from, next, junk);
    MergeOne(st, c, bucketSize, junk);
    MergeConcat(st, [c], ChunksFrom(w, bucketSize, next), bucketSize, junk);
    if next < |w.bytes| {
      MergeLarge(w, out, bucketSize, next, junk);
    } else {
      MergeDone(w, out, bucketSize, junk);
    }
  }

  lemma MergeDone(w: Weight, out: seq<Weight>, bucketSize: nat, junk: byte)
    requires bucketSize >= 1 && w.bytes != []
    ensures LargeAt(w, out, |w.bytes|, junk) == Merge(None, out + [w])
    ensures ChunksFrom(w, bucketSize, |w.bytes|) == []
    ensures MergeAll(Merge(None, out + [w]), [], bucketSize, junk) == Success(Merge(None, out + [w]))
  {
  }

  lemma MergeWeight(w: Weight, out: seq<Weight>, bucketSize: nat, junk: byte)
    requires bucketSize >= 1 && w.bytes != []
    ensures MergeAll(Merge(None, out), ChunksFrom(w, bucketSize, 0), bucketSize, junk) == Success(Merge(None, out + [w]))
  {
    if |w.bytes| > bucketSize {
      MergeLarge(w, out, bucketSize, 0, junk);
    } else {
      var c := Chunk(TensorMeta(w.name, |w.bytes|, 0, |w.bytes|), w.bytes);
      assert w.bytes[0..|w.bytes|] == w.bytes;
      assert ChunksFrom(w, bucketSize, 0) == [c];
      MergeOne(Merge(None, out), c, bucketSize, junk);
    }
  }

  /** The weights that have any bytes: an empty one yields no chunk. */
  function NonEmpty(ws: seq<Weight>): seq<Weight> {
    if ws == [] then []
    else NonEmpty(ws[..|ws| - 1]) + if Last(ws).bytes != [] then [Last(ws)] else []
  }

  /** Merging the chunks of `ws` gives back the weights, in order, except for the empty ones. */
  lemma {:induction false} SplitThenMerge(ws: seq<Weight>, bucketSize: nat, junk: byte)
    requires bucketSize >= 1
    ensures MergeAll(Merge(None, []), Chunks(ws, bucketSize), bucketSize, junk) == Success(Merge(None, NonEmpty(ws)))
  {
    if ws != [] {
      var init := ws[..|ws| - 1];
      SplitThenMerge(init, bucketSize, junk);
      MergeConcat(Merge(None, []), Chunks(init, bucketSize), ChunksFrom(Last(ws), bucketSize, 0), bucketSize, junk);
      if Last(ws).bytes != [] {
        MergeWeight(Last(ws), NonEmpty(init), bucketSize, junk);
      } else {
        assert Chunks(init, bucketSize) + [] == Chunks(init, bucketSize);
        assert NonEmpty(init) + [] == NonEmpty(init);
      }
    }
  }

  /** So the round trip is exact if and only if no weight is empty. */
  lemma {:induction false} ExactIffNonEmpty(ws: seq<Weight>)
    ensures |NonEmpty(ws)| <= |ws|
    ensures NonEmpty(ws) == ws <==> forall k :: 0 <= k < |ws| ==> ws[k].bytes != []
  {
    if ws != [] {
      ExactIffNonEmpty(ws[..|ws| - 1]);
      assert ws == ws[..|ws| - 1] + [Last(ws)];
      if Last(ws).bytes == [] {
        assert |NonEmpty(ws)| < |ws|;
      }
    }
  }
}
