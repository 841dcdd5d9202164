/** Gate and up projections: one tensor with the gate rows before the up rows, and its shards. */
module GateUpLayout {
  import opened Wrappers
  import opened Sequences
  import opened Arith
  import opened TensorRows

  datatype GateUp<T> = GateUp(gate: seq<T>, up: seq<T>)

  /** What `_merge_across_tp` makes of the shards; unpacking `chunk(2)` fails for a shard of one row. */
  function Merged<T>(shards: seq<seq<T>>): Result<GateUp<T>> {
    if shards == [] then Success(GateUp([], []))
    else
      var init := Merged(shards[..|shards| - 1]);
      var last := TorchChunk(shards[|shards| - 1], 2);
      if init.Failure? || |last| != 2 then Failure
      else Success(GateUp(init.value.gate + last[0], init.value.up + last[1]))
  }

  method MergeAcrossTp<T>(shards: seq<seq<T>>) returns (r: Result<GateUp<T>>)
    ensures r == Merged(shards)
  {
    hide TorchChunk;
    var gate, up := [], [];
    for t := 0 to |shards|
      invariant Merged(shards[..t]) == Success(GateUp(gate, up))
    {
      var halves := TorchChunk(shards[t], 2);
      assert shards[..t + 1][..t] == shards[..t];
      if |halves| != 2 {
        FailureStays(shards, t + 1);
        return Failure;
      }
      gate := gate + halves[0];
      up := up + halves[1];
    }
    assert shards[..|shards|] == shards;
    r := Success(GateUp(gate, up));
  }

  lemma {:induction false} FailureStays<T>(shards: seq<seq<T>>, t: nat)
    requires t <= |shards| && Merged(shards[..t]).Failure?
    ensures Merged(shards).Failure?
    decreases |shards| - t
  {
    if t == |shards| {
      assert shards[..t] == shards;
    } else {
      assert shards[..t + 1][..t] == shards[..t];
      FailureStays(shards, t + 1);
    }
  }

  /** Merging fails exactly when some shard has a single row. */
  lemma {:induction false} MergesIff<T>(shards: seq<seq<T>>)
    ensures Merged(shards).Success? <==> forall t :: 0 <= t < |shards| ==> |shards[t]| != 1
  {
    if shards != [] {
      var n := |shards| - 1;
      MergesIff(shards[..n]);
      HalvesCount(shards[n]);
      hide TorchChunk;
      assert forall t :: 0 <= t < n ==> shards[..n][t] == shards[t];
    }
  }

  /** The first half is the higher one when the rows are odd. */
  lemma HalvesCount<T>(rows: seq<T>)
    ensures var halves := TorchChunk(rows, 2);
      if |rows| == 1 then halves == [rows] else halves == [rows[..(|rows| + 1) / 2], rows[(|rows| + 1) / 2..]]
  {
    if |rows| == 0 {
      assert seq(2, _ => []) == [rows[..0], rows[0..]];
    } else if |rows| > 1 {
      var w := Ceiling(|rows|, 2);
      assert w == (|rows| + 1) / 2;
      assert Cut(rows[w..], w) == [rows[w..]];
    }
  }

  /** Megatron's layout: each rank has its gate rows before its up rows. */
  function RankShards<T>(x: GateUp<T>, tpSize: nat): (r: seq<seq<T>>)
    requires tpSize >= 1
    ensures |r| == tpSize
  {
    seq(tpSize, t requires 0 <= t < tpSize => Shards(x.gate, tpSize)[t] + Shards(x.up, tpSize)[t])
  }

  /** The two halves of a shard of twice `h` rows. */
  lemma HalvesOf<T>(a: seq<T>, b: seq<T>)
    requires |a| == |b|
    ensures TorchChunk(a + b, 2) == [a, b]
  {
    if a == [] {
      assert seq(2, _ => []) == [a, b];
    } else {
      assert Ceiling(|a + b|, 2) == |a|;
      assert (a + b)[..|a|] == a && (a + b)[|a|..] == b;
      assert Cut(b, |a|) == [b];
    }
  }

  lemma {:induction false} MergedUpTo<T>(x: GateUp<T>, tpSize: nat, size: nat, t: nat)
    requires tpSize >= 1 && |x.gate| == |x.up| == tpSize * size && t <= tpSize
    ensures t * size <= |x.gate|
    ensures Merged(RankShards(x, tpSize)[..t]) == Success(GateUp(x.gate[..t * size], x.up[..t * size]))
  {
    hide TorchChunk, Shards;
    if t > 0 {
      var at := (t - 1) * size;
      assert t * size == at + size;
      MergedUpTo(x, tpSize, size, t - 1);
      ShardIs(x.gate, tpSize, size, t - 1);
      ShardIs(x.up, tpSize, size, t - 1);
      HalvesOf(x.gate[at..at + size], x.up[at..at + size]);
      assert RankShards(x, tpSize)[..t][..t - 1] == RankShards(x, tpSize)[..t - 1];
      assert x.gate[..at + size] == x.gate[..at] + x.gate[at..at + size];
      assert x.up[..at + size] == x.up[..at] + x.up[at..at + size];
    }
  }

  /** Shards in the layout of the ranks merge to the two weights, for every number of ranks. */
  lemma RoundTrip<T>(x: GateUp<T>, tpSize: nat)
    requires tpSize >= 1 && |x.gate| == |x.up| && |x.gate| % tpSize == 0
    ensures Merged(RankShards(x, tpSize)) == Success(x)
  {
    var size := |x.gate| / tpSize;
    assert |x.gate| == tpSize * size;
    MergedUpTo(x, tpSize, size, tpSize);
    assert RankShards(x, tpSize)[..tpSize] == RankShards(x, tpSize);
    assert x.gate[..tpSize * size] == x.gate && x.up[..tpSize * size] == x.up;
  }

  lemma MergedOne<T>(shard: seq<T>, h: nat)
    requires |shard| == 2 * h
    ensures Merged([shard]) == Success(GateUp(shard[..h], shard[h..]))
  {
    assert shard == shard[..h] + shard[h..];
    HalvesOf(shard[..h], shard[h..]);
    var shards := [shard];
    assert Merged(shards[..0]) == Success(GateUp([], []));
    assert [] + shard[..h] == shard[..h] && [] + shard[h..] == shard[h..];
  }

  /** The first row that the second shard contributes to the gate. */
  lemma {:induction false} SecondShard<T>(shards: seq<seq<T>>, h: nat)
    requires |shards| >= 2 && h >= 1 && |shards[0]| == |shards[1]| == 2 * h && Merged(shards).Success?
    ensures h < |Merged(shards).value.gate| && Merged(shards).value.gate[h] == shards[1][0]
  {
    if |shards| > 2 {
      SecondShard(shards[..|shards| - 1], h);
    } else {
      HalvesOf(shards[0][..h], shards[0][h..]);
      HalvesOf(shards[1][..h], shards[1][h..]);
      assert shards[0] == shards[0][..h] + shards[0][h..] && shards[1] == shards[1][..h] + shards[1][h..];
      assert shards[..1] == [shards[0]] && shards[..1][..0] == [];
      MergedOne(shards[0], h);
    }
  }

  lemma OneShard<T>(rows: seq<T>, size: nat)
    requires |rows| == size
    ensures Shards(rows, 1) == [rows]
  {
    hide Shards;
    ShardIs(rows, 1, size, 0);
    assert rows[0 * size..0 * size + size] == rows;
  }

  lemma TwoShards<T>(rows: seq<T>, n: nat, size: nat)
    requires n >= 2 && size >= 1 && |rows| == n * size
    ensures size < |rows| && |Shards(rows, n)[0]| == |Shards(rows, n)[1]| == size && Shards(rows, n)[1][0] == rows[size]
  {
    hide Shards;
    ShardIs(rows, n, size, 0);
    ShardIs(rows, n, size, 1);
  }

  /**
   * The converter's `cat([gate, up])`, cut into shards row by row, is the layout of the ranks for one
   * rank only: for two or more, up rows (or later gate rows) end up inside the gate.
   */
  lemma ContiguousIff<T>(x: GateUp<T>, tpSize: nat, h: nat)
    requires tpSize >= 1 && h >= 1 && |x.gate| == |x.up| == tpSize * h
    requires tpSize >= 2 ==> 2 * h < |x.gate + x.up| && h < |x.gate| && (x.gate + x.up)[2 * h] != x.gate[h]
    ensures Merged(Shards(x.gate + x.up, tpSize)) == Success(x) <==> tpSize == 1
  {
    hide TorchChunk, Shards, Merged;
    var rows := x.gate + x.up;
    var shards := Shards(rows, tpSize);
    assert |rows| == tpSize * (2 * h);
    if tpSize == 1 {
      OneShard(rows, 2 * h);
      MergedOne(rows, h);
      assert rows[..h] == x.gate && rows[h..] == x.up;
    } else {
      TwoShards(rows, tpSize, 2 * h);
      if Merged(shards).Success? {
        SecondShard(shards, h);
      }
    }
  }
}
