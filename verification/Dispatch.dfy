/**
 * A batch on its way to the workers and back: padded to a multiple of their number, cut into equal
 * chunks, worked on, concatenated, and unpadded. A batch is the list of its rows; a row holds the tensor
 * fields and the other fields of one sample.
 */
module Dispatch {
  import opened Wrappers
  import opened Arith
  import opened Sequences
  import opened TensorRows

  /** Row `j` of `n` padded rows is row `j mod n` of the data. */
  ghost predicate Cyclic<T>(padded: seq<T>, data: seq<T>) {
    |padded| >= |data| && forall j :: 0 <= j < |padded| ==> data != [] && padded[j] == data[j % |data|]
  }

  lemma CyclicSelf<T>(data: seq<T>)
    ensures Cyclic(data, data) && (data != [] ==> |data| % |data| == 0)
  {
    forall j | 0 <= j < |data|
      ensures j % |data| == j
    {
      DivModUnique(j, 0, j, |data|);
    }
    if data != [] {
      DivModUnique(|data|, 1, 0, |data|);
    }
  }

  lemma CyclicTake<T>(padded: seq<T>, data: seq<T>, take: nat)
    requires data != [] && Cyclic(padded, data) && |padded| % |data| == 0 && take <= |data|
    ensures Cyclic(padded + data[..take], data)
    ensures take == |data| ==> |padded + data[..take]| % |data| == 0
  {
    var n, rounds := |data|, |padded| / |data|;
    assert |padded| == rounds * n;
    if take == n {
      assert (rounds + 1) * n == rounds * n + n;
      DivModUnique(|padded| + n, rounds + 1, 0, n);
    }
    forall j | |padded| <= j < |padded| + take
      ensures (padded + data[..take])[j] == data[j % n]
    {
      DivModUnique(j, rounds, j - |padded|, n);
    }
  }

  /** `pad_dataproto_to_divisor`: copies of the batch, the last one cut off, until the size divides. */
  method PadToDivisor<T>(data: seq<T>, divisor: nat) returns (padded: seq<T>, padSize: nat)
    requires divisor >= 1
    ensures |padded| == |data| + padSize && |padded| % divisor == 0 && padSize < divisor
    ensures data <= padded && Cyclic(padded, data)
    ensures |data| % divisor == 0 ==> padSize == 0
  {
    CyclicSelf(data);
    if |data| % divisor == 0 {
      return data, 0;
    }
    padSize := divisor - |data| % divisor;
    PadDivides(|data|, divisor);
    padded := Repeat(data, padSize);
  }

  /** The loop over `remaining_pad`. */
  method Repeat<T>(data: seq<T>, padSize: nat) returns (padded: seq<T>)
    requires data != []
    ensures |padded| == |data| + padSize && data <= padded && Cyclic(padded, data)
  {
    hide Cyclic;
    CyclicSelf(data);
    padded := data;
    var remaining: nat := padSize;
    while remaining > 0
      invariant remaining <= padSize && |padded| == |data| + padSize - remaining
      invariant data <= padded && Cyclic(padded, data)
      invariant remaining > 0 ==> |padded| % |data| == 0
    {
      var take := Min(remaining, |data|);
      CyclicTake(padded, data, take);
      padded := padded + data[..take];
      remaining := remaining - take;
    }
  }

  lemma PadDivides(n: nat, divisor: nat)
    requires divisor >= 1 && n % divisor != 0
    ensures (n + (divisor - n % divisor)) % divisor == 0
  {
    var q := n / divisor;
    assert n == q * divisor + n % divisor;
    assert (q + 1) * divisor == q * divisor + divisor;
    DivModUnique(n + (divisor - n % divisor), q + 1, 0, divisor);
  }

  /** `data[:-pad_size]`, unless there is no padding. */
  function Unpad<T>(data: seq<T>, padSize: nat): seq<T> {
    if padSize != 0 && padSize <= |data| then data[..|data| - padSize]
    else if padSize != 0 then []
    else data
  }

  /** `DataProto.chunk` without automatic padding: the size must divide. */
  function Chunk<T>(data: seq<T>, chunks: nat): Result<seq<seq<T>>>
    requires chunks >= 1
  {
    if |data| % chunks != 0 then Failure else Success(TorchChunk(data, chunks))
  }

  /** The chunks of a divisible batch are as many as asked for, equally high, and lose nothing. */
  lemma ChunkIsEqual<T>(data: seq<T>, chunks: nat)
    requires chunks >= 1
    ensures Chunk(data, chunks).Success? <==> |data| % chunks == 0
    ensures var r := Chunk(data, chunks);
      r.Success? ==> |r.value| == chunks && EachHas(r.value, |data| / chunks) && Flatten(r.value) == data
  {
    if |data| % chunks != 0 {
      return;
    }
    if data == [] {
      AllEmpty(Empties<T>(chunks));
      assert TorchChunk(data, chunks) == Empties<T>(chunks);
      EachEmpty<T>(chunks);
    } else {
      ChunkIsShards(data, chunks);
      ShardsJoin(data, chunks);
    }
  }

  lemma ChunkIsShards<T>(data: seq<T>, chunks: nat)
    requires chunks >= 1 && |data| % chunks == 0 && data != []
    ensures TorchChunk(data, chunks) == Shards(data, chunks) && EachHas(Shards(data, chunks), |data| / chunks)
  {
    hide TorchChunk, Shards, Flatten;
    var size := |data| / chunks;
    assert |data| == chunks * size;
    ShardsJoin(data, chunks);
    forall t | 0 <= t < chunks
      ensures |Shards(data, chunks)[t]| == size
    {
      ShardIs(data, chunks, size, t);
    }
    ChunkBlocks(Shards(data, chunks), size);
  }

  function Empties<T>(n: nat): seq<seq<T>> {
    seq(n, _ => [])
  }

  lemma EachEmpty<T>(n: nat)
    requires n >= 1
    ensures 0 / n == 0 && EachHas(Empties<T>(n), 0)
  {
    DivModUnique(0, 0, 0, n);
  }

  /** `split` followed by `concat` is the identity for every size. */
  lemma SplitConcat<T>(data: seq<T>, splitSize: nat)
    requires splitSize >= 1
    ensures Flatten(Cut(data, splitSize)) == data
  {
    CutJoins(data, splitSize);
  }

  lemma UnpadMap<T, U>(f: T -> U, data: seq<T>, padded: seq<T>, padSize: nat)
    requires data <= padded && |padded| == |data| + padSize
    ensures Unpad(Map(f, padded), padSize) == Map(f, data)
  {
  }

  /**
   * The whole way, for workers that compute `f` on each row of their chunk: the result is `f` on each row
   * of the batch, and the assertion in `chunk` does not fail.
   */
  method DispatchCollect<T, U>(data: seq<T>, workers: nat, f: T -> U) returns (r: Result<seq<U>>)
    requires workers >= 1
    ensures r == Success(Map(f, data))
  {
    var padded, padSize := PadToDivisor(data, workers);
    ChunkIsEqual(padded, workers);
    var chunks := Chunk(padded, workers);
    if chunks.Failure? {
      return Failure;
    }
    MapFlatten(f, chunks.value);
    UnpadMap(f, data, padded, padSize);
    r := Success(Unpad(Flatten(MapEach(f, chunks.value)), padSize));
  }
}
