/** Tensors as the list of their rows: `torch.chunk`, equal shards, and blocks of equal height. */
module TensorRows {
  import opened Sequences
  import opened Arith

  /** Pieces of `w` rows; the last one may be shorter. */
  function Cut<T>(rows: seq<T>, w: nat): seq<seq<T>>
    requires w >= 1
  {
    if rows == [] then []
    else if |rows| <= w then [rows]
    else [rows[..w]] + Cut(rows[w..], w)
  }

  /** `rows.chunk(n)`: pieces of the n-th part rounded up, so there may be fewer than `n`. */
  function TorchChunk<T>(rows: seq<T>, n: nat): seq<seq<T>>
    requires n >= 1
  {
    if rows == [] then seq(n, _ => []) else Cut(rows, Ceiling(|rows|, n))
  }

  function Ceiling(a: nat, n: nat): (r: nat)
    requires n >= 1
    ensures a >= 1 ==> r >= 1
  {
    if a == 0 then 0 else (a + n - 1) / n
  }

  /** The quotient, rounded up. */
  lemma CeilingIs(a: nat, n: nat)
    requires n >= 1
    ensures Ceiling(a, n) * n >= a && (a > 0 ==> (Ceiling(a, n) - 1) * n < a)
  {
    if a > 0 {
      var c := Ceiling(a, n);
      assert a + n - 1 == c * n + (a + n - 1) % n;
      assert c * n == (c - 1) * n + n;
    }
  }

  /** All pieces have `w` rows, except that the last one may have fewer, but some. */
  predicate Ragged<T>(pieces: seq<seq<T>>, w: nat) {
    forall k :: 0 <= k < |pieces| ==> 1 <= |pieces[k]| <= w && (k < |pieces| - 1 ==> |pieces[k]| == w)
  }

  lemma {:induction false} CutHeights<T>(rows: seq<T>, w: nat)
    requires w >= 1
    ensures Ragged(Cut(rows, w), w)
  {
    if |rows| > w {
      CutHeights(rows[w..], w);
      RaggedCons(rows[..w], Cut(rows[w..], w), w);
    }
  }

  lemma RaggedCons<T>(first: seq<T>, more: seq<seq<T>>, w: nat)
    requires |first| == w >= 1 && Ragged(more, w)
    ensures Ragged([first] + more, w)
  {
    var pieces := [first] + more;
    assert forall k :: 0 < k < |pieces| ==> pieces[k] == more[k - 1];
  }

  /** `n` shards of equally many rows. */
  function Shards<T>(rows: seq<T>, n: nat): (r: seq<seq<T>>)
    requires n >= 1
    ensures |r| == n
  {
    var size := |rows| / n;
    seq(n, t requires 0 <= t < n => Slice(rows, t * size, (t + 1) * size))
  }

  function Slice<T>(rows: seq<T>, from: nat, to: nat): seq<T> {
    if from <= to <= |rows| then rows[from..to] else []
  }

  predicate EachHas<T>(blocks: seq<seq<T>>, w: nat) {
    forall b :: 0 <= b < |blocks| ==> |blocks[b]| == w
  }

  lemma {:induction false} FlattenLength<T>(blocks: seq<seq<T>>, w: nat)
    requires EachHas(blocks, w)
    ensures |Flatten(blocks)| == |blocks| * w
  {
    if blocks != [] {
      FlattenLength(blocks[..|blocks| - 1], w);
      assert |blocks| * w == (|blocks| - 1) * w + w;
    }
  }

  lemma {:induction false} CutBlocks<T>(blocks: seq<seq<T>>, w: nat)
    requires w >= 1 && EachHas(blocks, w)
    ensures Cut(Flatten(blocks), w) == blocks
  {
    if blocks != [] {
      var first, rest := blocks[0], blocks[1..];
      assert blocks == [first] + rest;
      FlattenConcat([first], rest);
      FlattenOne(first);
      CutBlocks(rest, w);
      FlattenLength(rest, w);
      if rest != [] {
        assert |rest| * w >= w;
      } else {
        assert Flatten(blocks) == first;
      }
    }
  }

  /** Cutting into as many pieces as there are blocks gives the blocks. */
  lemma ChunkBlocks<T>(blocks: seq<seq<T>>, w: nat)
    requires w >= 1 && EachHas(blocks, w) && blocks != []
    ensures TorchChunk(Flatten(blocks), |blocks|) == blocks
  {
    FlattenLength(blocks, w);
    CutBlocks(blocks, w);
    CeilingOf(|blocks|, w);
    hide Flatten, EachHas, Cut, Ceiling;
    assert |Flatten(blocks)| >= 1;
  }

  lemma CeilingOf(m: nat, w: nat)
    requires m >= 1 && w >= 1
    ensures m * w >= 1 && Ceiling(m * w, m) == w
  {
    MulMono(1, m, w);
    assert m * w == w * m;
    DivModUnique(m * w + m - 1, w, m - 1, m);
  }

  lemma FlattenSlice<T>(blocks: seq<seq<T>>, w: nat, a: nat, b: nat)
    requires EachHas(blocks, w) && a <= b <= |blocks|
    ensures a * w <= b * w <= |Flatten(blocks)|
    ensures Flatten(blocks)[a * w..b * w] == Flatten(blocks[a..b])
  {
    var p, q, r := blocks[..a], blocks[a..b], blocks[b..];
    assert blocks == p + q + r;
    FlattenConcat(p + q, r);
    FlattenConcat(p, q);
    FlattenLength(p, w);
    FlattenLength(p + q, w);
    assert |p + q| == b;
    FlattenLength(blocks, w);
    MulMono(a, b, w);
  }

  /** A shard of whole blocks. */
  lemma ShardBlocks<T>(blocks: seq<seq<T>>, w: nat, n: nat, m: nat, t: nat)
    requires n >= 1 && EachHas(blocks, w) && |blocks| == m * n && t < n
    ensures t * m <= (t + 1) * m <= |blocks|
    ensures Shards(Flatten(blocks), n)[t] == Flatten(blocks[t * m..(t + 1) * m])
  {
    hide Flatten, EachHas, Shards;
    var rows := Flatten(blocks);
    MulMono(t + 1, n, m);
    MulMono(t, t + 1, m);
    FlattenSlice(blocks, w, t * m, (t + 1) * m);
    FlattenLength(blocks, w);
    Rescaled(n, m, w, t);
    ShardIs(rows, n, m * w, t);
  }

  lemma Rescaled(n: nat, m: nat, w: nat, t: nat)
    ensures (m * n) * w == n * (m * w)
    ensures t * (m * w) == (t * m) * w && t * (m * w) + m * w == ((t + 1) * m) * w
  {
    assert (m * n) * w == n * (m * w);
    assert t * (m * w) == (t * m) * w && (t + 1) * (m * w) == ((t + 1) * m) * w;
    assert (t + 1) * (m * w) == t * (m * w) + m * w;
  }

  lemma ShardIs<T>(rows: seq<T>, n: nat, size: nat, t: nat)
    requires n >= 1 && |rows| == n * size && t < n
    ensures t * size + size <= |rows|
    ensures Shards(rows, n)[t] == rows[t * size..t * size + size]
  {
    assert n * size == size * n;
    DivModUnique(|rows|, size, 0, n);
    LessTimes(t, n, size);
    assert (t + 1) * size == t * size + size;
  }

  lemma {:induction false} FlattenShards<T>(rows: seq<T>, n: nat, size: nat, t: nat)
    requires n >= 1 && |rows| == n * size && t <= n
    ensures t * size <= |rows| && Flatten(Shards(rows, n)[..t]) == rows[..t * size]
  {
    hide Shards;
    if t > 0 {
      FlattenShards(rows, n, size, t - 1);
      ShardIs(rows, n, size, t - 1);
      assert t * size == (t - 1) * size + size;
      assert Shards(rows, n)[..t][..t - 1] == Shards(rows, n)[..t - 1];
      assert rows[..t * size] == rows[..(t - 1) * size] + Shards(rows, n)[t - 1];
    }
  }

  /** Equal shards, put together again. */
  lemma ShardsJoin<T>(rows: seq<T>, n: nat)
    requires n >= 1 && |rows| % n == 0
    ensures Flatten(Shards(rows, n)) == rows
  {
    var size := |rows| / n;
    assert |rows| == n * size;
    FlattenShards(rows, n, size, n);
    assert Shards(rows, n)[..n] == Shards(rows, n) && rows[..n * size] == rows;
  }

  /** So are pieces of a fixed height, whether or not the last one is shorter. */
  lemma {:induction false} CutJoins<T>(rows: seq<T>, w: nat)
    requires w >= 1
    ensures Flatten(Cut(rows, w)) == rows
  {
    if rows != [] {
      if |rows| <= w {
        FlattenOne(rows);
      } else {
        CutJoins(rows[w..], w);
        FlattenConcat([rows[..w]], Cut(rows[w..], w));
        FlattenOne(rows[..w]);
      }
    }
  }

  // ----- row-wise functions

  function Map<T, U>(f: T -> U, rows: seq<T>): (r: seq<U>)
    ensures |r| == |rows| && forall i :: 0 <= i < |r| ==> r[i] == f(rows[i])
  {
    seq(|rows|, i requires 0 <= i < |rows| => f(rows[i]))
  }

  /** The function on every piece by itself. */
  function MapEach<T, U>(f: T -> U, pieces: seq<seq<T>>): (r: seq<seq<U>>)
    ensures |r| == |pieces|
  {
    if pieces == [] then [] else MapEach(f, pieces[..|pieces| - 1]) + [Map(f, pieces[|pieces| - 1])]
  }

  lemma {:induction false} MapFlatten<T, U>(f: T -> U, pieces: seq<seq<T>>)
    ensures Flatten(MapEach(f, pieces)) == Map(f, Flatten(pieces))
  {
    if pieces != [] {
      var init, last := pieces[..|pieces| - 1], pieces[|pieces| - 1];
      MapFlatten(f, init);
      FlattenSnoc(MapEach(f, init), Map(f, last));
      assert Map(f, Flatten(init) + last) == Map(f, Flatten(init)) + Map(f, last);
    }
  }
}
