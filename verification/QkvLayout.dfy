/**
 * Query, key and value weights: the converter packs them by query group, Megatron cuts the rows into
 * tensor-parallel shards, and the merger takes the shards apart again.
 */
module QkvLayout {
  import opened Wrappers
  import opened Sequences
  import opened Arith
  import opened TensorRows

  datatype Qkv<T> = Qkv(q: seq<T>, k: seq<T>, v: seq<T>)

  /** `heads` query heads and `groups` key/value heads of `dim` rows each. */
  predicate Shaped<T>(x: Qkv<T>, heads: nat, groups: nat, dim: nat) {
    |x.q| == heads * dim && |x.k| == groups * dim && |x.v| == groups * dim
  }

  /** The rows of group `g`: its query heads, its key head, its value head. */
  function Group<T>(x: Qkv<T>, g: nat, qs: nat, dim: nat): seq<T> {
    Slice(x.q, g * qs, g * qs + qs) + Slice(x.k, g * dim, g * dim + dim) + Slice(x.v, g * dim, g * dim + dim)
  }

  /** The first `groups` groups, viewed as one tensor: `cat([q, k, v], dim=1).view(-1, hidden_dim)`. */
  function Groups<T>(x: Qkv<T>, groups: nat, qs: nat, dim: nat): (r: seq<seq<T>>)
    ensures |r| == groups
  {
    seq(groups, g requires 0 <= g < groups => Group(x, g, qs, dim))
  }

  function Pack<T>(x: Qkv<T>, heads: nat, groups: nat, dim: nat): seq<T>
    requires groups >= 1
  {
    Flatten(Groups(x, groups, dim * heads / groups, dim))
  }

  // ----- _merge_across_tp

  /** `chunk.split([qs, ks, ks])`, which fails unless the sizes add up. */
  function SplitPiece<T>(piece: seq<T>, qs: nat, ks: nat): Result<Qkv<T>> {
    if |piece| != qs + ks + ks then Failure
    else Success(Qkv(piece[..qs], piece[qs..qs + ks], piece[qs + ks..]))
  }

  function Gather<T>(pieces: seq<seq<T>>, qs: nat, ks: nat): Result<Qkv<T>> {
    if pieces == [] then Success(Qkv([], [], []))
    else
      var init := Gather(pieces[..|pieces| - 1], qs, ks);
      var last := SplitPiece(pieces[|pieces| - 1], qs, ks);
      if init.Failure? || last.Failure? then Failure
      else Success(Qkv(init.value.q + last.value.q, init.value.k + last.value.k, init.value.v + last.value.v))
  }

  /** All pieces of all shards. */
  function Pieces<T>(shards: seq<seq<T>>, m: nat): seq<seq<T>>
    requires m >= 1
  {
    if shards == [] then [] else Pieces(shards[..|shards| - 1], m) + TorchChunk(shards[|shards| - 1], m)
  }

  /** How a shard is taken apart: into `m` pieces, each split into `qs`, `ks` and `ks` rows. */
  datatype Split = Split(m: nat, qs: nat, ks: nat)

  /** `Failure` stands for a failing assertion, or `chunk(0)`. */
  function SplitOf(rows: nat, heads: nat, groups: nat, tpSize: nat): (r: Result<Split>)
    requires tpSize >= 1
    ensures r.Success? ==> r.value.m >= 1
  {
    if groups == 0 || heads % groups != 0 || rows % (heads / groups + 2) != 0 || groups / tpSize == 0 then Failure
    else
      var kv: nat := rows / (heads / groups + 2);
      var m := groups / tpSize;
      var queries: nat := kv * (heads / groups);
      Success(Split(m, queries / m, kv / m))
  }

  function Merged<T>(shards: seq<seq<T>>, heads: nat, groups: nat): Result<Qkv<T>>
    requires shards != []
  {
    var s := SplitOf(|shards[0]|, heads, groups, |shards|);
    if s.Failure? then Failure else Gather(Pieces(shards, s.value.m), s.value.qs, s.value.ks)
  }

  /** The shards of one query/key/value parameter, one for each tensor-parallel rank. */
  method MergeAcrossTp<T>(shards: seq<seq<T>>, heads: nat, groups: nat) returns (r: Result<Qkv<T>>)
    requires shards != []
    ensures r == Merged(shards, heads, groups)
  {
    var s := SplitOf(|shards[0]|, heads, groups, |shards|);
    if s.Failure? {
      return Failure;
    }
    r := GatherShards(shards, s.value.m, s.value.qs, s.value.ks);
  }

  /** The loops over the shards and over the query groups of each. */
  method GatherShards<T>(shards: seq<seq<T>>, m: nat, qs: nat, ks: nat) returns (r: Result<Qkv<T>>)
    requires m >= 1
    ensures r == Gather(Pieces(shards, m), qs, ks)
  {
    hide TorchChunk;
    var q, k, v := [], [], [];
    for t := 0 to |shards|
      invariant Gather(Pieces(shards[..t], m), qs, ks) == Success(Qkv(q, k, v))
    {
      var chunks := TorchChunk(shards[t], m);
      ghost var before := Pieces(shards[..t], m);
      PiecesSnoc(shards, t, m);
      assert before + chunks[..0] == before;
      for c := 0 to |chunks|
        invariant Gather(before + chunks[..c], qs, ks) == Success(Qkv(q, k, v))
      {
        if |chunks[c]| != qs + ks + ks {
          GatherFails(Pieces(shards, m), |before| + c, qs, ks);
          return Failure;
        }
        GatherOne(before, chunks, c, qs, ks);
        q := q + chunks[c][..qs];
        k := k + chunks[c][qs..qs + ks];
        v := v + chunks[c][qs + ks..];
      }
      assert chunks[..|chunks|] == chunks;
    }
    assert shards[..|shards|] == shards;
    r := Success(Qkv(q, k, v));
  }

  lemma GatherOne<T>(before: seq<seq<T>>, chunks: seq<seq<T>>, c: nat, qs: nat, ks: nat)
    requires c < |chunks| && Gather(before + chunks[..c], qs, ks).Success? && |chunks[c]| == qs + ks + ks
    ensures var a, piece := Gather(before + chunks[..c], qs, ks).value, chunks[c];
      Gather(before + chunks[..c + 1], qs, ks)
        == Success(Qkv(a.q + piece[..qs], a.k + piece[qs..qs + ks], a.v + piece[qs + ks..]))
  {
    assert before + chunks[..c + 1] == (before + chunks[..c]) + [chunks[c]];
    assert ((before + chunks[..c]) + [chunks[c]])[..|before| + c] == before + chunks[..c];
  }

  lemma PiecesSnoc<T>(shards: seq<seq<T>>, t: nat, m: nat)
    requires m >= 1 && t < |shards|
    ensures Pieces(shards[..t + 1], m) == Pieces(shards[..t], m) + TorchChunk(shards[t], m)
    ensures Pieces(shards[..t + 1], m) <= Pieces(shards, m)
  {
    assert shards[..t + 1][..t] == shards[..t];
    PiecesPrefix(shards, t + 1, m);
  }

  /** The assertions of the merger, and the split of every piece, succeed. */
  lemma MergesIff<T>(shards: seq<seq<T>>, heads: nat, groups: nat)
    requires shards != []
    ensures var s := SplitOf(|shards[0]|, heads, groups, |shards|);
      Merged(shards, heads, groups).Success? <==>
        s.Success? && AllHave(Pieces(shards, s.value.m), s.value.qs + 2 * s.value.ks)
  {
    hide Pieces, Gather, SplitOf, AllHave;
    var s := SplitOf(|shards[0]|, heads, groups, |shards|);
    if s.Success? {
      GatherIff(Pieces(shards, s.value.m), s.value.qs, s.value.ks);
    }
  }

  predicate AllHave<T>(pieces: seq<seq<T>>, height: nat) {
    forall k :: 0 <= k < |pieces| ==> |pieces[k]| == height
  }

  /** Exactly the conditions that the merger asserts, and that there is a group for every shard. */
  lemma SplitSucceedsIff(rows: nat, heads: nat, groups: nat, tpSize: nat)
    requires tpSize >= 1
    ensures SplitOf(rows, heads, groups, tpSize).Success?
       <==> groups >= tpSize && heads % groups == 0 && rows % (heads / groups + 2) == 0
  {
    if groups < tpSize {
      DivModUnique(groups, 0, groups, tpSize);
    } else {
      QuotientAtLeast(groups, 1, tpSize);
    }
  }

  lemma {:induction false} GatherIff<T>(pieces: seq<seq<T>>, qs: nat, ks: nat)
    ensures Gather(pieces, qs, ks).Success? <==> AllHave(pieces, qs + 2 * ks)
  {
    if pieces != [] {
      GatherIff(pieces[..|pieces| - 1], qs, ks);
      assert forall k :: 0 <= k < |pieces| - 1 ==> pieces[..|pieces| - 1][k] == pieces[k];
    }
  }

  lemma {:induction false} GatherFails<T>(pieces: seq<seq<T>>, k: nat, qs: nat, ks: nat)
    requires k < |pieces| && |pieces[k]| != qs + ks + ks
    ensures Gather(pieces, qs, ks).Failure?
  {
    if k < |pieces| - 1 {
      GatherFails(pieces[..|pieces| - 1], k, qs, ks);
    }
  }

  lemma {:induction false} PiecesPrefix<T>(shards: seq<seq<T>>, t: nat, m: nat)
    requires m >= 1 && t <= |shards|
    ensures Pieces(shards[..t], m) <= Pieces(shards, m)
    decreases |shards| - t
  {
    if t == |shards| {
      assert shards[..t] == shards;
    } else {
      assert shards[..t + 1][..t] == shards[..t];
      PiecesPrefix(shards, t + 1, m);
    }
  }

  // ----- the round trip

  lemma {:induction false} PiecesOfBlocks<T>(blocks: seq<seq<T>>, w: nat, n: nat, m: nat, t: nat)
    requires n >= 1 && m >= 1 && w >= 1 && EachHas(blocks, w) && |blocks| == m * n && t <= n
    ensures t * m <= |blocks|
    ensures Pieces(Shards(Flatten(blocks), n)[..t], m) == blocks[..t * m]
  {
    hide Flatten, Shards, Pieces, TorchChunk;
    MulMono(t, n, m);
    if t == 0 {
      PiecesNone<T>(m);
    } else {
      PiecesOfBlocks(blocks, w, n, m, t - 1);
      var at := (t - 1) * m;
      assert t * m == at + m;
      ShardBlocks(blocks, w, n, m, t - 1);
      PiecesSnoc(Shards(Flatten(blocks), n), t - 1, m);
      var own := blocks[at..at + m];
      ChunkBlocks(own, w);
      assert blocks[..at + m] == blocks[..at] + own;
    }
  }

  lemma PiecesNone<T>(m: nat)
    requires m >= 1
    ensures Pieces<T>([], m) == []
  {
  }

  lemma GroupSplits<T>(x: Qkv<T>, groups: nat, qs: nat, dim: nat, g: nat)
    requires |x.q| == groups * qs && |x.k| == groups * dim && |x.v| == groups * dim && g < groups
    ensures g * qs + qs <= |x.q| && g * dim + dim <= |x.k|
    ensures SplitPiece(Group(x, g, qs, dim), qs, dim)
         == Success(Qkv(x.q[g * qs..g * qs + qs], x.k[g * dim..g * dim + dim], x.v[g * dim..g * dim + dim]))
  {
    hide SplitPiece, Slice;
    LessTimes(g, groups, qs);
    LessTimes(g, groups, dim);
    GroupParts(x, g * qs, g * dim, qs, dim);
  }

  lemma GroupParts<T>(x: Qkv<T>, a: nat, b: nat, qs: nat, dim: nat)
    requires a + qs <= |x.q| && b + dim <= |x.k| == |x.v|
    ensures SplitPiece(Slice(x.q, a, a + qs) + Slice(x.k, b, b + dim) + Slice(x.v, b, b + dim), qs, dim)
         == Success(Qkv(x.q[a..a + qs], x.k[b..b + dim], x.v[b..b + dim]))
  {
    SplitConcat(x.q[a..a + qs], x.k[b..b + dim], x.v[b..b + dim]);
  }

  lemma SplitConcat<T>(q: seq<T>, k: seq<T>, v: seq<T>)
    requires |k| == |v|
    ensures SplitPiece(q + k + v, |q|, |k|) == Success(Qkv(q, k, v))
  {
    assert (q + k + v)[..|q|] == q && (q + k + v)[|q|..|q| + |k|] == k && (q + k + v)[|q| + |k|..] == v;
  }

  /** Taking the first `g` groups apart gives the first rows of the three weights. */
  lemma {:induction false} GatherGroups<T>(x: Qkv<T>, groups: nat, qs: nat, dim: nat, g: nat)
    requires |x.q| == groups * qs && |x.k| == groups * dim && |x.v| == groups * dim && g <= groups
    ensures g * qs <= |x.q| && g * dim <= |x.k|
    ensures Gather(Groups(x, groups, qs, dim)[..g], qs, dim)
         == Success(Qkv(x.q[..g * qs], x.k[..g * dim], x.v[..g * dim]))
  {
    hide Gather, SplitPiece, Group;
    if g == 0 {
      GatherNone<T>(qs, dim);
    } else {
      GatherGroups(x, groups, qs, dim, g - 1);
      GroupSplits(x, groups, qs, dim, g - 1);
      var a, b := (g - 1) * qs, (g - 1) * dim;
      assert g * qs == a + qs && g * dim == b + dim;
      GatherSnoc(Groups(x, groups, qs, dim), g - 1, qs, dim);
      assert x.q[..a + qs] == x.q[..a] + x.q[a..a + qs];
      assert x.k[..b + dim] == x.k[..b] + x.k[b..b + dim];
      assert x.v[..b + dim] == x.v[..b] + x.v[b..b + dim];
    }
  }

  lemma GatherNone<T>(qs: nat, ks: nat)
    ensures Gather<T>([], qs, ks) == Success(Qkv([], [], []))
  {
  }

  lemma GatherSnoc<T>(pieces: seq<seq<T>>, g: nat, qs: nat, ks: nat)
    requires g < |pieces| && Gather(pieces[..g], qs, ks).Success? && SplitPiece(pieces[g], qs, ks).Success?
    ensures var a, b := Gather(pieces[..g], qs, ks).value, SplitPiece(pieces[g], qs, ks).value;
      Gather(pieces[..g + 1], qs, ks) == Success(Qkv(a.q + b.q, a.k + b.k, a.v + b.v))
  {
    assert pieces[..g + 1][..g] == pieces[..g];
  }

  /** The sizes that the merger computes from the first shard are those the converter packed with. */
  lemma Sizes(groups: nat, perGroup: nat, dim: nat, n: nat, m: nat)
    requires groups == m * n && n >= 1 && m >= 1
    ensures (perGroup * groups) % groups == 0 && (perGroup * groups) / groups == perGroup
    ensures dim * (perGroup * groups) / groups == dim * perGroup
    ensures groups / n == m
    ensures var rows := m * (dim * perGroup + 2 * dim);
      rows % (perGroup + 2) == 0 && rows / (perGroup + 2) == m * dim
      && (m * dim) * perGroup / m == dim * perGroup && (m * dim) / m == dim
  {
    MulMono(1, n, m);
    DivModUnique(perGroup * groups, perGroup, 0, groups);
    assert dim * (perGroup * groups) == (dim * perGroup) * groups;
    DivModUnique(dim * (perGroup * groups), dim * perGroup, 0, groups);
    DivModUnique(groups, m, 0, n);
    var rows := m * (dim * perGroup + 2 * dim);
    assert rows == (m * dim) * (perGroup + 2);
    DivModUnique(rows, m * dim, 0, perGroup + 2);
    assert (m * dim) * perGroup == (dim * perGroup) * m;
    DivModUnique((m * dim) * perGroup, dim * perGroup, 0, m);
    assert m * dim == dim * m;
    DivModUnique(m * dim, dim, 0, m);
  }

  lemma GroupHeights<T>(x: Qkv<T>, groups: nat, qs: nat, dim: nat)
    requires |x.q| == groups * qs && |x.k| == groups * dim && |x.v| == groups * dim
    ensures EachHas(Groups(x, groups, qs, dim), qs + 2 * dim)
  {
    forall g | 0 <= g < groups
      ensures |Group(x, g, qs, dim)| == qs + 2 * dim
    {
      GroupSplits(x, groups, qs, dim, g);
    }
  }

  lemma AllPieces<T>(blocks: seq<seq<T>>, w: nat, n: nat, m: nat)
    requires n >= 1 && m >= 1 && w >= 1 && EachHas(blocks, w) && |blocks| == m * n
    ensures var shards := Shards(Flatten(blocks), n); |shards[0]| == m * w && Pieces(shards, m) == blocks
  {
    hide Flatten, Shards, Pieces, TorchChunk;
    PiecesOfBlocks(blocks, w, n, m, n);
    ShardBlocks(blocks, w, n, m, 0);
    assert 0 * m == 0 && (0 + 1) * m == m && n * m == |blocks|;
    FlattenLength(blocks[0..m], w);
    var shards := Shards(Flatten(blocks), n);
    assert shards[..n] == shards && blocks[..|blocks|] == blocks;
  }

  /** Shards of whole groups, merged. */
  lemma MergeGroups<T>(x: Qkv<T>, groups: nat, qs: nat, dim: nat, tpSize: nat, m: nat)
    requires |x.q| == groups * qs && |x.k| == groups * dim && |x.v| == groups * dim
    requires m >= 1 && tpSize >= 1 && dim >= 1 && groups == m * tpSize
    ensures var shards := Shards(Flatten(Groups(x, groups, qs, dim)), tpSize);
      |shards[0]| == m * (qs + 2 * dim) && Gather(Pieces(shards, m), qs, dim) == Success(x)
  {
    hide Flatten, Shards, Pieces, TorchChunk, Gather, Groups;
    var w, blocks := qs + 2 * dim, Groups(x, groups, qs, dim);
    GroupHeights(x, groups, qs, dim);
    AllPieces(blocks, w, tpSize, m);
    GatherGroups(x, groups, qs, dim, groups);
    assert blocks[..groups] == blocks;
    assert x.q[..groups * qs] == x.q && x.k[..groups * dim] == x.k && x.v[..groups * dim] == x.v;
  }

  /** Weights of `groups` key/value heads with `perGroup` query heads each. */
  predicate Sized<T>(x: Qkv<T>, groups: nat, perGroup: nat, dim: nat) {
    groups >= 1 && dim >= 1 && Shaped(x, Times(perGroup, groups), groups, dim)
  }

  /** The tensor that the converter writes. */
  function PackedRows<T>(x: Qkv<T>, groups: nat, perGroup: nat, dim: nat): seq<T>
    requires groups >= 1
  {
    Pack(x, Times(perGroup, groups), groups, dim)
  }

  /** What comes back when it is cut into `tpSize` shards and these are merged. */
  function Returned<T>(x: Qkv<T>, groups: nat, perGroup: nat, dim: nat, tpSize: nat): Result<Qkv<T>>
    requires groups >= 1 && tpSize >= 1
  {
    Merged(Shards(PackedRows(x, groups, perGroup, dim), tpSize), Times(perGroup, groups), groups)
  }

  /**
   * When the tensor-parallel size divides the key/value heads, packing, cutting into shards and merging
   * gives back the weights, whatever the numbers of heads and their size.
   */
  lemma RoundTrip<T>(x: Qkv<T>, groups: nat, perGroup: nat, dim: nat, tpSize: nat)
    requires Sized(x, groups, perGroup, dim) && tpSize >= 1 && groups % tpSize == 0
    ensures Returned(x, groups, perGroup, dim, tpSize) == Success(x)
  {
    hide Flatten, Groups, Gather, Pieces, Shards, SplitOf, Pack;
    var m, qs := groups / tpSize, dim * perGroup;
    assert groups == m * tpSize;
    assert (perGroup * groups) * dim == groups * qs;
    MergeGroups(x, groups, qs, dim, tpSize, m);
    PackedAs(x, groups, perGroup, dim, tpSize, m);
  }

  lemma PackedAs<T>(x: Qkv<T>, groups: nat, perGroup: nat, dim: nat, tpSize: nat, m: nat)
    requires m >= 1 && tpSize >= 1 && groups == m * tpSize
    ensures groups >= 1 && Pack(x, perGroup * groups, groups, dim) == Flatten(Groups(x, groups, dim * perGroup, dim))
    ensures SplitOf(m * (dim * perGroup + 2 * dim), perGroup * groups, groups, tpSize) == Success(Split(m, dim * perGroup, dim))
  {
    hide Flatten, Groups;
    MulMono(1, tpSize, m);
    Sizes(groups, perGroup, dim, tpSize, m);
  }

  /** Otherwise the first piece is higher than one group, and so is its query part. */
  lemma FirstPieceTooHigh(groups: nat, perGroup: nat, dim: nat, tpSize: nat)
    requires groups >= 1 && perGroup >= 1 && dim >= 1 && tpSize >= 1 && groups % tpSize != 0
    requires (groups * (dim * perGroup + 2 * dim)) % tpSize == 0
    ensures var rows := groups * (dim * perGroup + 2 * dim) / tpSize;
      var s := SplitOf(rows, perGroup * groups, groups, tpSize);
      s.Success? ==>
        var size := Ceiling(rows, s.value.m);
        size > dim * perGroup + 2 * dim && rows >= size
        && (s.value.qs + 2 * s.value.ks == size ==> s.value.qs > dim * perGroup)
  {
    var w := dim * perGroup + 2 * dim;
    var rows := groups * w / tpSize;
    var s := SplitOf(rows, perGroup * groups, groups, tpSize);
    if s.Success? {
      var m := groups / tpSize;
      DivModUnique(perGroup * groups, perGroup, 0, groups);
      assert s.value.m == m >= 1;
      RowsAbove(groups, w, tpSize, m, rows);
      CeilingAbove(rows, m, w);
      var kv := rows / (perGroup + 2);
      assert rows == kv * (perGroup + 2);
      QueriesAbove(kv, perGroup, dim, m, Ceiling(rows, m));
    }
  }

  lemma RowsAbove(groups: nat, w: nat, tpSize: nat, m: nat, rows: nat)
    requires tpSize >= 1 && w >= 1 && m == groups / tpSize && groups % tpSize != 0
    requires (groups * w) % tpSize == 0 && rows == groups * w / tpSize
    ensures rows > m * w
  {
    assert groups > m * tpSize;
    LessTimes(m * tpSize, groups, w);
    assert rows * tpSize == groups * w;
    assert (m * tpSize) * w == (m * w) * tpSize;
    if rows <= m * w {
      MulMono(rows, m * w, tpSize);
    }
  }

  lemma CeilingAbove(rows: nat, m: nat, w: nat)
    requires m >= 1 && rows > m * w
    ensures w < Ceiling(rows, m) <= rows
  {
    var c := Ceiling(rows, m);
    assert c * m + (rows + m - 1) % m == rows + m - 1;
    assert w * m == m * w && m * rows == rows * m;
    MulMono(1, m, rows);
    if c <= w {
      MulMono(c, w, m);
    }
    if c > rows {
      LessTimes(rows, c, m);
    }
  }

  lemma QueriesAbove(kv: nat, perGroup: nat, dim: nat, m: nat, size: nat)
    requires m >= 1 && perGroup >= 1 && size > dim * perGroup + 2 * dim
    ensures kv * perGroup / m + 2 * (kv / m) == size ==> kv * perGroup / m > dim * perGroup
  {
    var qs, ks := kv * perGroup / m, kv / m;
    if qs <= dim * perGroup && qs + 2 * ks == size {
      assert ks > dim;
      assert kv >= ks * m;
      MulMono(dim + 1, ks, m);
      MulMono((dim + 1) * m, kv, perGroup);
      assert (dim + 1) * m * perGroup == (dim * perGroup + perGroup) * m;
      var q := kv * perGroup;
      assert q >= (dim * perGroup + perGroup) * m;
      QuotientAtLeast(q, dim * perGroup + perGroup, m);
    }
  }

  lemma QuotientAtLeast(x: nat, q: nat, m: nat)
    requires m >= 1 && x >= q * m
    ensures x / m >= q
  {
    assert x / m * m + x % m == x;
    if x / m < q {
      LessTimes(x / m, q, m);
    }
  }

  lemma {:induction false} GatherFirst<T>(pieces: seq<seq<T>>, qs: nat, ks: nat)
    requires pieces != [] && Gather(pieces, qs, ks).Success?
    ensures |pieces[0]| == qs + 2 * ks && pieces[0][..qs] <= Gather(pieces, qs, ks).value.q
  {
    if |pieces| > 1 {
      GatherFirst(pieces[..|pieces| - 1], qs, ks);
    } else {
      GatherNone<T>(qs, ks);
      assert pieces[..0] == [];
    }
  }

  lemma {:induction false} FirstPiece<T>(shards: seq<seq<T>>, m: nat)
    requires shards != [] && m >= 1 && 1 <= Ceiling(|shards[0]|, m) <= |shards[0]|
    ensures Pieces(shards, m) != [] && Pieces(shards, m)[0] == shards[0][..Ceiling(|shards[0]|, m)]
  {
    if |shards| > 1 {
      FirstPiece(shards[..|shards| - 1], m);
    } else {
      PiecesNone<T>(m);
      assert shards[..0] == [];
    }
  }

  /** Row `qs` of the packed weight is the first key row. */
  lemma PackedAt<T>(x: Qkv<T>, groups: nat, qs: nat, dim: nat)
    requires |x.q| == groups * qs && |x.k| == groups * dim && |x.v| == groups * dim
    requires groups >= 1 && dim >= 1
    ensures |Flatten(Groups(x, groups, qs, dim))| == groups * (qs + 2 * dim) > qs && |x.k| >= 1
    ensures Flatten(Groups(x, groups, qs, dim))[qs] == x.k[0]
  {
    hide Flatten, Group;
    var blocks := Groups(x, groups, qs, dim);
    GroupHeights(x, groups, qs, dim);
    FlattenLength(blocks, qs + 2 * dim);
    assert blocks == [blocks[0]] + blocks[1..];
    FlattenConcat([blocks[0]], blocks[1..]);
    FlattenOne(blocks[0]);
    MulMono(1, groups, qs + 2 * dim);
    FirstGroup(x, groups, qs, dim);
    assert Flatten(blocks)[qs] == blocks[0][qs];
  }

  lemma FirstGroup<T>(x: Qkv<T>, groups: nat, qs: nat, dim: nat)
    requires |x.q| == groups * qs && |x.k| == groups * dim && |x.v| == groups * dim
    requires groups >= 1 && dim >= 1
    ensures |x.k| >= 1 && |Group(x, 0, qs, dim)| == qs + 2 * dim && Group(x, 0, qs, dim)[qs] == x.k[0]
  {
    MulMono(1, groups, qs);
    MulMono(1, groups, dim);
    assert 0 * qs == 0 && 0 * dim == 0;
  }

  /**
   * When the size does not divide the key/value heads the merger fails, or the first key row ends up
   * among the query rows, where the second group's first row belongs.
   */
  lemma OtherwiseNotExact<T>(x: Qkv<T>, groups: nat, perGroup: nat, dim: nat, tpSize: nat)
    requires Sized(x, groups, perGroup, dim) && perGroup >= 1 && tpSize >= 1 && groups % tpSize != 0
    requires |PackedRows(x, groups, perGroup, dim)| % tpSize == 0
    ensures |x.k| > 0
    ensures var r := Returned(x, groups, perGroup, dim, tpSize);
      r.Success? ==> KeyAmongQueries(r.value, x, Times(dim, perGroup))
  {
    hide Flatten, Groups, Gather, Pieces, Shards, SplitOf, Ceiling, TorchChunk, Pack;
    var packed := PackedRows(x, groups, perGroup, dim);
    var shards := Shards(packed, tpSize);
    KeyRow(x, groups, perGroup, dim);
    FirstShard(packed, tpSize);
    FirstPieceTooHigh(groups, perGroup, dim, tpSize);
    var s := SplitOf(|shards[0]|, Times(perGroup, groups), groups, tpSize);
    if s.Success? {
      MisplacedRow(shards, s.value, Times(dim, perGroup));
    }
  }

  /** Row `at` of the queries is the first key row of `x`. */
  predicate KeyAmongQueries<T(==)>(r: Qkv<T>, x: Qkv<T>, at: nat) {
    at < |r.q| && x.k != [] && r.q[at] == x.k[0]
  }

  lemma KeyRow<T>(x: Qkv<T>, groups: nat, perGroup: nat, dim: nat)
    requires Sized(x, groups, perGroup, dim)
    ensures var packed := PackedRows(x, groups, perGroup, dim);
      && |packed| == groups * (dim * perGroup + 2 * dim) > Times(dim, perGroup) && |x.k| >= 1
      && packed[Times(dim, perGroup)] == x.k[0]
  {
    hide Flatten, Groups, Pack;
    assert (perGroup * groups) * dim == groups * (dim * perGroup);
    PackIs(x, groups, perGroup, dim);
    PackedAt(x, groups, dim * perGroup, dim);
  }

  lemma MisplacedRow<T>(shards: seq<seq<T>>, s: Split, at: nat)
    requires shards != [] && s.m >= 1 && at < Ceiling(|shards[0]|, s.m) <= |shards[0]|
    requires s.qs + 2 * s.ks == Ceiling(|shards[0]|, s.m) ==> s.qs > at
    ensures var r := Gather(Pieces(shards, s.m), s.qs, s.ks);
      r.Success? ==> at < |r.value.q| && r.value.q[at] == shards[0][at]
  {
    hide Pieces, Gather, Ceiling;
    FirstPiece(shards, s.m);
    var first := Pieces(shards, s.m)[0];
    if Gather(Pieces(shards, s.m), s.qs, s.ks).Success? {
      GatherFirst(Pieces(shards, s.m), s.qs, s.ks);
      assert first[..s.qs][at] == first[at];
    }
  }

  lemma PackIs<T>(x: Qkv<T>, groups: nat, perGroup: nat, dim: nat)
    requires groups >= 1
    ensures Pack(x, perGroup * groups, groups, dim) == Flatten(Groups(x, groups, dim * perGroup, dim))
  {
    PackedAs(x, groups, perGroup, dim, 1, groups);
  }

  lemma FirstShard<T>(rows: seq<T>, n: nat)
    requires n >= 1
    ensures |rows| / n <= |rows| && Shards(rows, n)[0] == rows[..|rows| / n]
  {
    QuotientAtMost(|rows|, n);
    assert 0 * (|rows| / n) == 0 && (0 + 1) * (|rows| / n) == |rows| / n;
  }

  lemma QuotientAtMost(x: nat, n: nat)
    requires n >= 1
    ensures x / n <= x
  {
    assert x / n * n + x % n == x;
    MulMono(1, n, x / n);
    assert n * (x / n) == x / n * n;
  }

  /** So for weights whose rows differ where it matters: exact if and only if the size divides the heads. */
  lemma ExactIff<T>(x: Qkv<T>, groups: nat, perGroup: nat, dim: nat, tpSize: nat)
    requires Sized(x, groups, perGroup, dim) && perGroup >= 1
    requires tpSize >= 1 && |PackedRows(x, groups, perGroup, dim)| % tpSize == 0
    requires !KeyAmongQueries(x, x, Times(dim, perGroup))
    ensures Returned(x, groups, perGroup, dim, tpSize) == Success(x) <==> groups % tpSize == 0
  {
    hide Returned, PackedRows, Sized, Times;
    if groups % tpSize == 0 {
      RoundTrip(x, groups, perGroup, dim, tpSize);
    } else {
      // an exact result would have the first key row among its own query rows
      OtherwiseNotExact(x, groups, perGroup, dim, tpSize);
    }
  }
}
