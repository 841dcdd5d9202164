/** The senders' loop: chunks are packed into one of two swapped buffers, a full buffer goes out. */
module BucketPacking {
  import opened Wrappers
  import opened Sequences
  import opened WeightChunks

  /** A chunk's place in its bucket. */
  datatype Placed = Placed(meta: TensorMeta, offset: nat)

  /** What goes over the wire for one bucket: the metadata and the whole buffer. */
  datatype Bucket = Bucket(metas: seq<Placed>, data: seq<byte>, isLast: bool)

  function Bytes(chunks: seq<Chunk>): seq<byte> {
    if chunks == [] then [] else Bytes(chunks[..|chunks| - 1]) + Last(chunks).data
  }

  /** The metadata of a bucket: each chunk starts where the one before it ends. */
  function Place(chunks: seq<Chunk>): (r: seq<Placed>)
    ensures |r| == |chunks|
    ensures forall k :: 0 <= k < |r| ==> r[k].meta == chunks[k].meta
  {
    if chunks == [] then []
    else Place(chunks[..|chunks| - 1]) + [Placed(Last(chunks).meta, |Bytes(chunks[..|chunks| - 1])|)]
  }

  /** The buckets that are closed and the one being filled, after the given chunks. */
  datatype Packing = Packing(closed: seq<seq<Chunk>>, open: seq<Chunk>)

  function Pack(chunks: seq<Chunk>, bucketSize: nat): Packing {
    if chunks == [] then Packing([], [])
    else
      PackStep(Pack(chunks[..|chunks| - 1], bucketSize), Last(chunks), bucketSize)
  }

  /** All buckets; the last one goes out even when it is empty. */
  function Buckets(chunks: seq<Chunk>, bucketSize: nat): seq<seq<Chunk>> {
    var p := Pack(chunks, bucketSize);
    p.closed + [p.open]
  }

  predicate NamesDiffer(chunks: seq<Chunk>) {
    forall i, j :: 0 <= i < j < |chunks| ==> chunks[i].meta.name != chunks[j].meta.name
  }

  /** Everything is in its place so far: nothing lost, the order kept, every bucket within the buffer. */
  ghost predicate Packed(p: Packing, chunks: seq<Chunk>, bucketSize: nat) {
    && Flatten(p.closed) + p.open == chunks
    && |Bytes(p.open)| <= bucketSize
    && forall b :: 0 <= b < |p.closed| ==> |Bytes(p.closed[b])| <= bucketSize
  }

  function PackStep(p: Packing, c: Chunk, bucketSize: nat): Packing {
    if |Bytes(p.open)| + c.meta.chunkSize > bucketSize then Packing(p.closed + [p.open], [c])
    else Packing(p.closed, p.open + [c])
  }

  lemma PackStepSound(p: Packing, chunks: seq<Chunk>, c: Chunk, bucketSize: nat)
    requires Packed(p, chunks, bucketSize) && WellFormed(c, bucketSize)
    ensures Packed(PackStep(p, c, bucketSize), chunks + [c], bucketSize)
  {
    FlattenSnoc(p.closed, p.open);
    BytesSnoc([], c);
    BytesSnoc(p.open, c);
    hide Flatten, Bytes;
    assert Flatten(p.closed) + (p.open + [c]) == chunks + [c];
  }

  lemma {:induction false} PackSound(chunks: seq<Chunk>, bucketSize: nat)
    requires AllWellFormed(chunks, bucketSize)
    ensures Packed(Pack(chunks, bucketSize), chunks, bucketSize)
  {
    if chunks != [] {
      var init := chunks[..|chunks| - 1];
      PackSound(init, bucketSize);
      PackStepSound(Pack(init, bucketSize), init, Last(chunks), bucketSize);
      assert chunks == init + [Last(chunks)];
    } else {
      assert Flatten<Chunk>([]) == [] && Bytes([]) == [];
    }
  }

  /** A bucket is closed only when the chunk that comes next has no room in it. */
  ghost predicate Tight(p: Packing, bucketSize: nat) {
    var all := p.closed + [p.open];
    forall b :: 0 < b < |all| ==> all[b] != [] && |Bytes(all[b - 1])| + all[b][0].meta.chunkSize > bucketSize
  }

  lemma TightStep(p: Packing, c: Chunk, bucketSize: nat)
    requires Tight(p, bucketSize) && (p.open == [] ==> p.closed == []) && c.meta.chunkSize <= bucketSize
    ensures Tight(PackStep(p, c, bucketSize), bucketSize) && PackStep(p, c, bucketSize).open != []
  {
    var q := PackStep(p, c, bucketSize);
    var all: seq<seq<Chunk>>, all': seq<seq<Chunk>> := p.closed + [p.open], q.closed + [q.open];
    BytesSnoc([], c);
    hide Bytes;
    forall b | 0 < b < |all'|
      ensures all'[b] != [] && |Bytes(all'[b - 1])| + all'[b][0].meta.chunkSize > bucketSize
    {
      assert all'[b - 1] == all[b - 1];
      if b < |all| {
        assert all[b] != [] && all'[b][0] == all[b][0];
      }
    }
  }

  lemma {:induction false} PackTight(chunks: seq<Chunk>, bucketSize: nat)
    requires AllWellFormed(chunks, bucketSize)
    ensures var p := Pack(chunks, bucketSize); Tight(p, bucketSize) && (p.open == [] ==> p.closed == [] && chunks == [])
  {
    if chunks != [] {
      PackTight(chunks[..|chunks| - 1], bucketSize);
      TightStep(Pack(chunks[..|chunks| - 1], bucketSize), Last(chunks), bucketSize);
    }
  }

  lemma BytesSnoc(chunks: seq<Chunk>, c: Chunk)
    ensures Bytes(chunks + [c]) == Bytes(chunks) + c.data
    ensures Bytes([]) == [] && [] + [c] == [c]
  {
    assert (chunks + [c])[..|chunks|] == chunks;
  }

  lemma PlaceSnoc(chunks: seq<Chunk>, c: Chunk)
    ensures Place(chunks + [c]) == Place(chunks) + [Placed(c.meta, |Bytes(chunks)|)]
  {
    assert (chunks + [c])[..|chunks|] == chunks;
  }

  lemma {:induction false} MemberFits(chunks: seq<Chunk>, k: nat, bucketSize: nat)
    requires AllWellFormed(chunks, bucketSize) && k < |chunks|
    ensures |Bytes(chunks)| >= chunks[k].meta.chunkSize + (|chunks| - 1)
  {
    if |chunks| == 1 {
      BytesSnoc([], chunks[0]);
      assert chunks == [chunks[0]];
    } else if k < |chunks| - 1 {
      MemberFits(chunks[..|chunks| - 1], k, bucketSize);
    } else {
      MemberFits(chunks[..|chunks| - 1], 0, bucketSize);
    }
  }

  /** Two chunks of one tensor never share a bucket. */
  lemma ChunksApart(bucket: seq<Chunk>, bucketSize: nat)
    requires AllWellFormed(bucket, bucketSize) && Separated(bucket, bucketSize) && |Bytes(bucket)| <= bucketSize
    ensures NamesDiffer(bucket)
  {
    forall i, j | 0 <= i < j < |bucket|
      ensures bucket[i].meta.name != bucket[j].meta.name
    {
      MemberFits(bucket, i, bucketSize);
    }
  }

  /** Two chunks of the same name met in one bucket: the senders' assertion on `bucket_meta`. */
  ghost predicate Clash(p: Packing) {
    !NamesDiffer(p.open) || exists b :: 0 <= b < |p.closed| && !NamesDiffer(p.closed[b])
  }

  lemma ClashStep(p: Packing, c: Chunk, bucketSize: nat)
    requires Clash(p)
    ensures Clash(PackStep(p, c, bucketSize))
  {
    var q := PackStep(p, c, bucketSize);
    if !NamesDiffer(p.open) {
      if |q.closed| == |p.closed| {
        var i, j :| 0 <= i < j < |p.open| && p.open[i].meta.name == p.open[j].meta.name;
        assert q.open[i].meta.name == q.open[j].meta.name;
      } else {
        assert q.closed[|p.closed|] == p.open;
      }
    } else {
      var b :| 0 <= b < |p.closed| && !NamesDiffer(p.closed[b]);
      assert q.closed[b] == p.closed[b];
    }
  }

  lemma {:induction false} ClashStays(chunks: seq<Chunk>, k: nat, bucketSize: nat)
    requires k <= |chunks| && Clash(Pack(chunks[..k], bucketSize))
    ensures Clash(Pack(chunks, bucketSize))
  {
    if k == |chunks| {
      assert chunks[..k] == chunks;
    } else {
      var init := chunks[..|chunks| - 1];
      assert init[..k] == chunks[..k];
      ClashStays(init, k, bucketSize);
      ClashStep(Pack(init, bucketSize), Last(chunks), bucketSize);
    }
  }

  /** With distinct weight names the assertion never fails. */
  lemma DistinctNoClash(ws: seq<Weight>, bucketSize: nat)
    requires bucketSize >= 1 && DistinctNames(ws)
    ensures !Clash(Pack(Chunks(ws, bucketSize), bucketSize))
  {
    ChunksWellFormed(ws, bucketSize);
    ChunksSeparated(ws, bucketSize);
    SeparatedNoClash(Chunks(ws, bucketSize), bucketSize);
  }

  lemma {:induction false} SeparatedNoClash(chunks: seq<Chunk>, bucketSize: nat)
    requires AllWellFormed(chunks, bucketSize) && Separated(chunks, bucketSize)
    ensures !Clash(Pack(chunks, bucketSize))
  {
    if chunks != [] {
      var init := chunks[..|chunks| - 1];
      SeparatedNoClash(init, bucketSize);
      PackSound(chunks, bucketSize);
      OpenApart(Pack(chunks, bucketSize), chunks, bucketSize);
      StepNoClash(Pack(init, bucketSize), Last(chunks), bucketSize);
    }
  }

  lemma OpenApart(p: Packing, chunks: seq<Chunk>, bucketSize: nat)
    requires AllWellFormed(chunks, bucketSize) && Separated(chunks, bucketSize) && Packed(p, chunks, bucketSize)
    ensures NamesDiffer(p.open)
  {
    hide Bytes, Flatten;
    assert p.open == chunks[|chunks| - |p.open|..];
    ChunksApart(p.open, bucketSize);
  }

  lemma StepNoClash(p: Packing, c: Chunk, bucketSize: nat)
    requires !Clash(p) && NamesDiffer(PackStep(p, c, bucketSize).open)
    ensures !Clash(PackStep(p, c, bucketSize))
  {
    hide NamesDiffer;
  }

  /** `bucket` holds exactly these chunks, each at its place in the buffer. */
  ghost predicate Carries(bucket: Bucket, chunks: seq<Chunk>, bucketSize: nat) {
    && bucket.metas == Place(chunks)
    && |bucket.data| == bucketSize
    && Bytes(chunks) <= bucket.data
  }

  /** The sender's variables after the chunks that `p` packs. */
  ghost predicate InProgress(sent: seq<Bucket>, metas: seq<Placed>, offset: nat, buffer: seq<byte>,
                             p: Packing, bucketSize: nat)
  {
    && |sent| == |p.closed|
    && (forall b :: 0 <= b < |sent| ==> Carries(sent[b], p.closed[b], bucketSize) && !sent[b].isLast)
    && metas == Place(p.open) && offset == |Bytes(p.open)|
    && |buffer| == bucketSize && Bytes(p.open) <= buffer
  }

  lemma Flushed(sent: seq<Bucket>, metas: seq<Placed>, offset: nat, buffer: seq<byte>, other: seq<byte>,
                p: Packing, bucketSize: nat)
    requires InProgress(sent, metas, offset, buffer, p, bucketSize) && |other| == bucketSize
    ensures InProgress(sent + [Bucket(metas, buffer, false)], [], 0, other, Packing(p.closed + [p.open], []), bucketSize)
  {
  }

  lemma Filled(sent: seq<Bucket>, metas: seq<Placed>, offset: nat, buffer: seq<byte>, c: Chunk,
               p: Packing, bucketSize: nat)
    requires InProgress(sent, metas, offset, buffer, p, bucketSize)
    requires WellFormed(c, bucketSize) && offset + c.meta.chunkSize <= bucketSize
    ensures InProgress(sent, metas + [Placed(c.meta, offset)], offset + c.meta.chunkSize,
                       buffer[..offset] + c.data + buffer[offset + |c.data|..], Packing(p.closed, p.open + [c]), bucketSize)
  {
    BytesSnoc(p.open, c);
    PlaceSnoc(p.open, c);
    assert buffer[..offset] == Bytes(p.open);
  }

  lemma PackNone(bucketSize: nat)
    ensures Pack([], bucketSize) == Packing([], []) && !Clash(Pack([], bucketSize))
  {
  }

  lemma PackSnoc(chunks: seq<Chunk>, k: nat, bucketSize: nat)
    requires k < |chunks|
    ensures Pack(chunks[..k + 1], bucketSize) == PackStep(Pack(chunks[..k], bucketSize), chunks[k], bucketSize)
  {
    assert chunks[..k + 1][..k] == chunks[..k];
  }

  predicate NameIn(name: string, metas: seq<Placed>) {
    exists k :: 0 <= k < |metas| && metas[k].meta.name == name
  }

  lemma NameInClashes(p: Packing, c: Chunk)
    requires NameIn(c.meta.name, Place(p.open))
    ensures Clash(Packing(p.closed, p.open + [c]))
  {
    var k :| 0 <= k < |p.open| && Place(p.open)[k].meta.name == c.meta.name;
    var open := p.open + [c];
    assert open[k].meta.name == open[|p.open|].meta.name;
  }

  lemma NoNameNoClash(p: Packing, c: Chunk)
    requires !Clash(p) && !NameIn(c.meta.name, Place(p.open))
    ensures !Clash(Packing(p.closed, p.open + [c]))
  {
    assert forall k :: 0 <= k < |p.open| ==> Place(p.open)[k].meta.name == p.open[k].meta.name;
  }

  /**
   * `send_weights` with its two buffers; a bucket is what is in the buffer when it goes out. It fails
   * exactly when two chunks of one name meet in a bucket, and otherwise sends the packed chunks.
   */
  method SendWeights(ws: seq<Weight>, bucketSize: nat, buffer: array<byte>, other: array<byte>)
    returns (r: Result<seq<Bucket>>)
    requires bucketSize >= 1 && buffer != other && buffer.Length == other.Length == bucketSize
    modifies buffer, other
    ensures r.Failure? <==> Clash(Pack(Chunks(ws, bucketSize), bucketSize))
    ensures r.Success? ==> SentAll(r.value, Buckets(Chunks(ws, bucketSize), bucketSize), bucketSize)
  {
    hide InProgress, Clash, Carries, NameIn, Place, Bytes, Pack, Chunks, SentAll;
    PackNone(bucketSize);
    var chunks := SplitWeightChunks(ws, bucketSize);
    ChunksWellFormed(ws, bucketSize);
    var sendBuf, recvBuf := buffer, other;
    var sent: seq<Bucket> := [];
    var bucketMeta: seq<Placed> := [];
    var offset: nat := 0;
    NothingSent(sendBuf[..]);
    for k := 0 to |chunks|
      invariant {sendBuf, recvBuf} == {buffer, other} && sendBuf != recvBuf
      invariant InProgress(sent, bucketMeta, offset, sendBuf[..], Pack(chunks[..k], bucketSize), bucketSize)
      invariant !Clash(Pack(chunks[..k], bucketSize))
    {
      var c := chunks[k];
      assert WellFormed(c, bucketSize);
      PackSnoc(chunks, k, bucketSize);
      ghost var p := Pack(chunks[..k], bucketSize);
      OffsetOf(sent, bucketMeta, offset, sendBuf[..], p, bucketSize);
      if offset + c.meta.chunkSize > bucketSize {
        Flushed(sent, bucketMeta, offset, sendBuf[..], recvBuf[..], p, bucketSize);
        p := Packing(p.closed + [p.open], []);
        sent := sent + [Bucket(bucketMeta, sendBuf[..], false)];
        sendBuf, recvBuf := recvBuf, sendBuf;
        bucketMeta := [];
        offset := 0;
        ClosingNoClash(Pack(chunks[..k], bucketSize));
        OffsetOf(sent, bucketMeta, offset, sendBuf[..], p, bucketSize);
      }
      assert Pack(chunks[..k + 1], bucketSize) == Packing(p.closed, p.open + [c]) by {
        assert [] + [c] == [c];
      }
      if NameIn(c.meta.name, bucketMeta) {
        NameInClashes(p, c);
        ClashStays(chunks, k + 1, bucketSize);
        return Failure;
      }
      NoNameNoClash(p, c);
      Filled(sent, bucketMeta, offset, sendBuf[..], c, p, bucketSize);
      bucketMeta := bucketMeta + [Placed(c.meta, offset)];
      CopyInto(sendBuf, offset, c.data);
      offset := offset + c.meta.chunkSize;
    }
    assert chunks[..|chunks|] == chunks;
    AllSent(sent, bucketMeta, offset, sendBuf[..], Pack(chunks, bucketSize), bucketSize);
    r := Success(sent + [Bucket(bucketMeta, sendBuf[..], true)]);
  }

  /** Every bucket carries its chunks, and the last one says so. */
  ghost predicate SentAll(sent: seq<Bucket>, packed: seq<seq<Chunk>>, bucketSize: nat) {
    && |sent| == |packed|
    && forall b :: 0 <= b < |packed| ==>
      Carries(sent[b], packed[b], bucketSize) && (sent[b].isLast <==> b == |packed| - 1)
  }

  lemma NothingSent(buffer: seq<byte>)
    ensures InProgress([], [], 0, buffer, Packing([], []), |buffer|) && !Clash(Packing([], []))
  {
  }

  lemma OffsetOf(sent: seq<Bucket>, metas: seq<Placed>, offset: nat, buffer: seq<byte>, p: Packing, bucketSize: nat)
    requires InProgress(sent, metas, offset, buffer, p, bucketSize)
    ensures offset == |Bytes(p.open)| <= bucketSize && metas == Place(p.open)
  {
  }

  lemma ClosingNoClash(p: Packing)
    requires !Clash(p)
    ensures !Clash(Packing(p.closed + [p.open], []))
  {
  }

  lemma AllSent(sent: seq<Bucket>, metas: seq<Placed>, offset: nat, buffer: seq<byte>, p: Packing, bucketSize: nat)
    requires InProgress(sent, metas, offset, buffer, p, bucketSize)
    ensures SentAll(sent + [Bucket(metas, buffer, true)], p.closed + [p.open], bucketSize)
  {
  }
}
