/** From the trainer's weights to the rollout's weights, through buckets and the relay. */
module CheckpointDelivery {
  import opened Wrappers
  import opened Arith
  import opened Sequences
  import opened WeightChunks
  import opened BucketPacking
  import NixlRelay
  import NcclBroadcast

  /** `send_buf[offset : offset + chunk_size]` */
  function TakeChunk(data: seq<byte>, p: Placed): Chunk {
    var hi := Min(p.offset + p.meta.chunkSize, |data|);
    Chunk(p.meta, if p.offset <= hi then data[p.offset..hi] else [])
  }

  /** What a receiver yields from one bucket. */
  function Unpack(metas: seq<Placed>, data: seq<byte>): (r: seq<Chunk>)
    ensures |r| == |metas|
  {
    if metas == [] then [] else Unpack(metas[..|metas| - 1], data) + [TakeChunk(data, Last(metas))]
  }

  function UnpackAll(sent: seq<Bucket>): seq<seq<Chunk>> {
    if sent == [] then [] else UnpackAll(sent[..|sent| - 1]) + [Unpack(Last(sent).metas, Last(sent).data)]
  }

  /** The newest chunk of a bucket lies right behind the others. */
  lemma TakesLast(init: seq<byte>, c: Chunk, data: seq<byte>, bucketSize: nat)
    requires WellFormed(c, bucketSize) && init + c.data <= data
    ensures TakeChunk(data, Placed(c.meta, |init|)) == c
  {
    assert data[|init|..|init| + |c.data|] == c.data;
  }

  /** A bucket gives back the chunks that were put into it, whatever lies behind them in the buffer. */
  lemma {:induction false} UnpackPlaced(chunks: seq<Chunk>, data: seq<byte>, bucketSize: nat)
    requires AllWellFormed(chunks, bucketSize) && Bytes(chunks) <= data
    ensures Unpack(Place(chunks), data) == chunks
  {
    if chunks != [] {
      var init, c := chunks[..|chunks| - 1], Last(chunks);
      assert chunks == init + [c];
      UnpackPlaced(init, data, bucketSize);
      assert WellFormed(c, bucketSize);
      BytesSnoc(init, c);
      PlaceSnoc(init, c);
      TakesLast(Bytes(init), c, data, bucketSize);
      UnpackSnoc(Place(init), Placed(c.meta, |Bytes(init)|), data);
    }
  }

  lemma UnpackSnoc(metas: seq<Placed>, p: Placed, data: seq<byte>)
    ensures Unpack(metas + [p], data) == Unpack(metas, data) + [TakeChunk(data, p)]
  {
    assert (metas + [p])[..|metas|] == metas;
  }

  predicate AllBucketsWellFormed(packed: seq<seq<Chunk>>, bucketSize: nat) {
    forall b :: 0 <= b < |packed| ==> AllWellFormed(packed[b], bucketSize)
  }

  lemma {:induction false} FlattenWellFormed(packed: seq<seq<Chunk>>, bucketSize: nat)
    requires AllWellFormed(Flatten(packed), bucketSize)
    ensures AllBucketsWellFormed(packed, bucketSize)
  {
    if packed != [] {
      var init := packed[..|packed| - 1];
      assert Flatten(packed) == Flatten(init) + Last(packed);
      assert forall k :: 0 <= k < |Flatten(init)| ==> Flatten(init)[k] == Flatten(packed)[k];
      assert forall k :: 0 <= k < |Last(packed)| ==> Last(packed)[k] == Flatten(packed)[|Flatten(init)| + k];
      FlattenWellFormed(init, bucketSize);
    }
  }

  lemma UnpackCarried(bucket: Bucket, chunks: seq<Chunk>, bucketSize: nat)
    requires Carries(bucket, chunks, bucketSize) && AllWellFormed(chunks, bucketSize)
    ensures Unpack(bucket.metas, bucket.data) == chunks
  {
    hide AllWellFormed;
    UnpackPlaced(chunks, bucket.data, bucketSize);
  }

  lemma {:induction false} UnpackSent(sent: seq<Bucket>, packed: seq<seq<Chunk>>, bucketSize: nat)
    requires |sent| == |packed| && AllBucketsWellFormed(packed, bucketSize)
    requires forall b :: 0 <= b < |sent| ==> Carries(sent[b], packed[b], bucketSize)
    ensures UnpackAll(sent) == packed
  {
    hide Carries, AllWellFormed, Unpack;
    if sent != [] {
      var k := |sent| - 1;
      assert AllBucketsWellFormed(packed[..k], bucketSize);
      UnpackSent(sent[..k], packed[..k], bucketSize);
      UnpackCarried(sent[k], packed[k], bucketSize);
      assert packed == packed[..k] + [packed[k]];
    }
  }

  lemma BucketsFlatten(ws: seq<Weight>, bucketSize: nat)
    requires bucketSize >= 1
    ensures Flatten(Buckets(Chunks(ws, bucketSize), bucketSize)) == Chunks(ws, bucketSize)
  {
    ChunksWellFormed(ws, bucketSize);
    PackSound(Chunks(ws, bucketSize), bucketSize);
    var p := Pack(Chunks(ws, bucketSize), bucketSize);
    FlattenSnoc(p.closed, p.open);
  }

  /** Unpacking what was sent yields the chunks of the weights. */
  lemma SentUnpacks(ws: seq<Weight>, bucketSize: nat, sent: seq<Bucket>)
    requires bucketSize >= 1 && SentAll(sent, Buckets(Chunks(ws, bucketSize), bucketSize), bucketSize)
    ensures UnpackAll(sent) == Buckets(Chunks(ws, bucketSize), bucketSize)
  {
    ChunksWellFormed(ws, bucketSize);
    BucketsFlatten(ws, bucketSize);
    FlattenWellFormed(Buckets(Chunks(ws, bucketSize), bucketSize), bucketSize);
    UnpackSent(sent, Buckets(Chunks(ws, bucketSize), bucketSize), bucketSize);
  }

  lemma UnpackNone()
    ensures Flatten(UnpackAll([])) == [] && forall data :: Unpack([], data) == []
  {
  }

  lemma UnpackAllSnoc(sent: seq<Bucket>, b: nat)
    requires b < |sent|
    ensures UnpackAll(sent[..b + 1]) == UnpackAll(sent[..b]) + [Unpack(sent[b].metas, sent[b].data)]
  {
    assert sent[..b + 1][..b] == sent[..b];
  }

  /** The chunks of all buckets, bucket by bucket, as `_receive_weight_chunks` yields them. */
  method ReceiveChunks(sent: seq<Bucket>) returns (chunks: seq<Chunk>)
    ensures chunks == Flatten(UnpackAll(sent))
  {
    hide Flatten, UnpackAll, Unpack, TakeChunk;
    chunks := [];
    UnpackNone();
    for b := 0 to |sent|
      invariant chunks == Flatten(UnpackAll(sent[..b]))
    {
      var metas, data := sent[b].metas, sent[b].data;
      var before := chunks;
      for k := 0 to |metas|
        invariant chunks == before + Unpack(metas[..k], data)
      {
        UnpackSnoc(metas[..k], metas[k], data);
        assert metas[..k + 1] == metas[..k] + [metas[k]];
        chunks := chunks + [TakeChunk(data, metas[k])];
      }
      assert metas[..|metas|] == metas;
      UnpackAllSnoc(sent, b);
      FlattenSnoc(UnpackAll(sent[..b]), Unpack(metas, data));
    }
    assert sent[..|sent|] == sent;
  }

  /**
   * Split, pack, transfer, unpack, merge. With distinct names no assertion on either side fails and
   * the receiver gets the non-empty weights byte by byte in the order sent, for every bucket size.
   */
  method UpdateWeights(ws: seq<Weight>, bucketSize: nat, junk: byte) returns (r: Result<seq<Weight>>)
    requires bucketSize >= 1
    ensures DistinctNames(ws) ==> r.Success?
    ensures r.Success? ==> r.value == NonEmpty(ws)
    ensures r.Success? ==> (r.value == ws <==> forall k :: 0 <= k < |ws| ==> ws[k].bytes != [])
  {
    if DistinctNames(ws) {
      DistinctNoClash(ws, bucketSize);
    }
    var buffer, other := new byte[bucketSize](_ => junk), new byte[bucketSize](_ => junk);
    var sent := SendWeights(ws, bucketSize, buffer, other);
    if sent.Failure? {
      return Failure;
    }
    SentUnpacks(ws, bucketSize, sent.value);
    BucketsFlatten(ws, bucketSize);
    SplitThenMerge(ws, bucketSize, junk);
    ExactIffNonEmpty(ws);
    var chunks := ReceiveChunks(sent.value);
    r := MergeWeightChunks(chunks, bucketSize, junk);
  }

  /**
   * The relay, end to end: run the chain on the packed weights in any order until no step is possible;
   * then every rollout rank merges exactly the trainer's non-empty weights.
   */
  lemma RelayEndToEnd(ws: seq<Weight>, bucketSize: nat, n: nat, junk: byte, r: nat,
                      steps: seq<NixlRelay.Step>, states: seq<NixlRelay.Chain<Chunk>>)
    requires bucketSize >= 1 && 2 <= n && 0 < r < n
    requires NixlRelay.Run(Buckets(Chunks(ws, bucketSize), bucketSize), n, steps, states)
    requires forall step :: !NixlRelay.Enabled(Buckets(Chunks(ws, bucketSize), bucketSize), states[|steps|], step)
    ensures |states[|steps|]| == n
    ensures MergeAll(Merge(None, []), states[|steps|][r].out, bucketSize, junk) == Success(Merge(None, NonEmpty(ws)))
  {
    var packed := Buckets(Chunks(ws, bucketSize), bucketSize);
    NixlRelay.RelayDelivers(packed, n, steps, states);
    BucketsFlatten(ws, bucketSize);
    SplitThenMerge(ws, bucketSize, junk);
  }

  /** The broadcast, end to end: every receiver merges exactly the trainer's non-empty weights. */
  lemma BroadcastEndToEnd(ws: seq<Weight>, bucketSize: nat, n: nat, junk: byte, r: nat,
                          steps: seq<NcclBroadcast.Step>, states: seq<NcclBroadcast.Group<Chunk>>)
    requires bucketSize >= 1 && r < n
    requires NcclBroadcast.Run(Buckets(Chunks(ws, bucketSize), bucketSize), n, steps, states)
    requires forall step :: !NcclBroadcast.Enabled(Buckets(Chunks(ws, bucketSize), bucketSize), states[|steps|], step)
    ensures |states[|steps|].receivers| == n
    ensures MergeAll(Merge(None, []), states[|steps|].receivers[r].out, bucketSize, junk)
         == Success(Merge(None, NonEmpty(ws)))
  {
    var packed := Buckets(Chunks(ws, bucketSize), bucketSize);
    NcclBroadcast.BroadcastDelivers(packed, n, steps, states);
    BucketsFlatten(ws, bucketSize);
    SplitThenMerge(ws, bucketSize, junk);
  }
}
