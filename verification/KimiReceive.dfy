/**
 * The KIMI engine, receiving side: the buckets of all ranks are broadcast in turn into the two halves of
 * one buffer, and while one half receives, the tensors in the other half are yielded.
 */
module KimiReceive {
  import opened Wrappers
  import opened Sequences
  import WeightChunks
  import opened TensorRows

  type byte = WeightChunks.byte

  datatype Item = Item(name: string, size: nat)

  datatype Bucket = Bucket(items: seq<Item>, data: seq<byte>)

  datatype Named = Named(name: string, bytes: seq<byte>)

  function TotalSize(items: seq<Item>): nat {
    if items == [] then 0 else TotalSize(items[..|items| - 1]) + items[|items| - 1].size
  }

  /** The items fit into the bucket and the bucket into half the buffer. */
  predicate Fits(b: Bucket, bucketSize: nat) {
    TotalSize(b.items) <= |b.data| <= bucketSize
  }

  /** The tensors described by `items`, one behind the other from `base` on. */
  function Tensors(items: seq<Item>, data: seq<byte>, base: nat): seq<Named> {
    if items == [] then []
    else
      var init, last := items[..|items| - 1], items[|items| - 1];
      Tensors(init, data, base) + [Named(last.name, Slice(data, base + TotalSize(init), base + TotalSize(items)))]
  }

  function Content(b: Bucket): seq<Named> {
    Tensors(b.items, b.data, 0)
  }

  lemma SliceOfSlice(s: seq<byte>, a: nat, b: nat, from: nat, to: nat)
    requires a <= b <= |s| && from <= to <= b - a
    ensures s[a..b][from..to] == s[a + from..a + to]
  {
    var l, r := s[a..b][from..to], s[a + from..a + to];
    assert |l| == |r| == to - from;
    assert forall k :: 0 <= k < |l| ==> l[k] == s[a..b][from + k] && r[k] == s[a + from + k];
    assert l == r;
  }

  lemma {:induction false} TensorsMoved(items: seq<Item>, buffer: seq<byte>, base: nat, data: seq<byte>)
    requires base + |data| <= |buffer| && buffer[base..base + |data|] == data && TotalSize(items) <= |data|
    ensures Tensors(items, buffer, base) == Tensors(items, data, 0)
  {
    if items != [] {
      var init := items[..|items| - 1];
      TensorsMoved(init, buffer, base, data);
      var from, to := TotalSize(init), TotalSize(items);
      assert from <= to <= |data|;
      SliceOfSlice(buffer, base, base + |data|, from, to);
    }
  }

  function Joined(ts: seq<Named>): seq<byte> {
    if ts == [] then [] else Joined(ts[..|ts| - 1]) + ts[|ts| - 1].bytes
  }

  /** The bucket was filled with these tensors, one behind the other; anything may lie behind them. */
  ghost predicate Holds(b: Bucket, ts: seq<Named>) {
    && |ts| == |b.items| && Joined(ts) <= b.data
    && forall k :: 0 <= k < |ts| ==> b.items[k] == Item(ts[k].name, |ts[k].bytes|)
  }

  lemma {:induction false} JoinedSize(items: seq<Item>, ts: seq<Named>)
    requires |ts| == |items| && forall k :: 0 <= k < |ts| ==> items[k].size == |ts[k].bytes|
    ensures |Joined(ts)| == TotalSize(items)
  {
    if ts != [] {
      JoinedSize(items[..|items| - 1], ts[..|ts| - 1]);
    }
  }

  /** What is read from a bucket are the tensors that it was filled with, each with its own bytes. */
  lemma {:induction false} ContentIs(b: Bucket, ts: seq<Named>)
    requires Holds(b, ts)
    ensures Content(b) == ts
    decreases |ts|
  {
    if ts != [] {
      var n := |ts| - 1;
      var init, last := ts[..n], ts[n];
      JoinedSize(b.items, ts);
      JoinedSize(b.items[..n], init);
      assert Joined(ts) == Joined(init) + last.bytes;
      hide Joined, TotalSize;
      ContentIs(Bucket(b.items[..n], b.data), init);
      LastBytes(Joined(init), last.bytes, b.data);
      assert ts == init + [last];
    }
  }

  lemma LastBytes(before: seq<byte>, last: seq<byte>, data: seq<byte>)
    requires before + last <= data
    ensures |before| <= |before + last| <= |data| && data[|before|..|before + last|] == last
  {
    var n := |before + last|;
    assert data[..n] == before + last;
    assert data[|before|..n] == data[..n][|before|..];
  }

  /** Tensor list `k` is what bucket `k` was filled with. */
  ghost predicate HoldEach(buckets: seq<Bucket>, originals: seq<seq<Named>>) {
    |originals| == |buckets| && forall k :: 0 <= k < |buckets| ==> Holds(buckets[k], originals[k])
  }

  lemma {:induction false} ContentsAre(buckets: seq<Bucket>, originals: seq<seq<Named>>)
    requires HoldEach(buckets, originals)
    ensures Contents(buckets) == Flatten(originals)
  {
    if buckets != [] {
      var n := |buckets| - 1;
      ContentsAre(buckets[..n], originals[..n]);
      ContentIs(buckets[n], originals[n]);
    }
  }

  function Contents(buckets: seq<Bucket>): seq<Named> {
    if buckets == [] then [] else Contents(buckets[..|buckets| - 1]) + Content(buckets[|buckets| - 1])
  }

  lemma ContentsSnoc(buckets: seq<Bucket>, b: Bucket)
    ensures Contents(buckets + [b]) == Contents(buckets) + Content(b)
  {
    assert (buckets + [b])[..|buckets|] == buckets;
  }

  // ----- the buckets by receiver rank

  /** A dictionary in the order of its first insertions: list `k` belongs to rank `ranks[k]`. */
  datatype Groups = Groups(ranks: seq<nat>, lists: seq<seq<Bucket>>)

  function IndexOf(ranks: seq<nat>, rank: nat): (k: nat)
    ensures k <= |ranks| && (k < |ranks| ==> ranks[k] == rank) && (k == |ranks| ==> rank !in ranks)
  {
    if ranks == [] || ranks[0] == rank then 0 else 1 + IndexOf(ranks[1..], rank)
  }

  function Add(g: Groups, rank: nat, b: Bucket): Groups
    requires |g.ranks| == |g.lists|
  {
    var k := IndexOf(g.ranks, rank);
    if k < |g.ranks| then Groups(g.ranks, g.lists[k := g.lists[k] + [b]])
    else Groups(g.ranks + [rank], g.lists + [[b]])
  }

  function OwnOf(buckets: seq<(nat, Bucket)>, rank: nat): seq<Bucket> {
    if buckets == [] then []
    else
      var n := |buckets| - 1;
      OwnOf(buckets[..n], rank) + if buckets[n].0 == rank then [buckets[n].1] else []
  }

  function Plain(buckets: seq<(nat, Bucket)>): seq<Bucket> {
    if buckets == [] then [] else Plain(buckets[..|buckets| - 1]) + [buckets[|buckets| - 1].1]
  }

  /** The groups partition the buckets by rank, each in order. */
  ghost predicate Grouped(g: Groups, buckets: seq<(nat, Bucket)>) {
    && ByRank(g, buckets)
    && multiset(Flatten(g.lists)) == multiset(Plain(buckets))
  }

  lemma OwnSnoc(buckets: seq<(nat, Bucket)>, n: nat, rank: nat)
    requires n < |buckets|
    ensures OwnOf(buckets[..n + 1], rank)
         == if buckets[n].0 == rank then OwnOf(buckets[..n], rank) + [buckets[n].1] else OwnOf(buckets[..n], rank)
  {
    assert buckets[..n + 1][..n] == buckets[..n];
  }

  lemma AddKeepsBag(g: Groups, rank: nat, b: Bucket)
    requires |g.ranks| == |g.lists|
    ensures multiset(Flatten(Add(g, rank, b).lists)) == multiset(Flatten(g.lists)) + multiset{b}
  {
    var k := IndexOf(g.ranks, rank);
    if k < |g.ranks| {
      FlattenUpdate(g.lists, k, b);
    } else {
      FlattenSnoc(g.lists, [b]);
    }
  }

  /** The partition without the bag. */
  ghost predicate ByRank(g: Groups, buckets: seq<(nat, Bucket)>) {
    && |g.ranks| == |g.lists|
    && (forall k :: 0 <= k < |g.ranks| ==> g.lists[k] == OwnOf(buckets, g.ranks[k]))
    && (forall rank :: rank !in g.ranks ==> OwnOf(buckets, rank) == [])
    && (forall j, k :: 0 <= j < k < |g.ranks| ==> g.ranks[j] != g.ranks[k])
  }

  lemma AddKeepsByRank(g: Groups, buckets: seq<(nat, Bucket)>, n: nat)
    requires n < |buckets| && ByRank(g, buckets[..n])
    ensures ByRank(Add(g, buckets[n].0, buckets[n].1), buckets[..n + 1])
  {
    forall rank: nat
      ensures OwnOf(buckets[..n + 1], rank)
           == if buckets[n].0 == rank then OwnOf(buckets[..n], rank) + [buckets[n].1] else OwnOf(buckets[..n], rank)
    {
      OwnSnoc(buckets, n, rank);
    }
    hide OwnOf;
    assert [] + [buckets[n].1] == [buckets[n].1];
  }

  lemma AddKeepsGrouped(g: Groups, buckets: seq<(nat, Bucket)>, n: nat)
    requires n < |buckets| && |g.ranks| == |g.lists| && Grouped(g, buckets[..n])
    ensures Grouped(Add(g, buckets[n].0, buckets[n].1), buckets[..n + 1])
  {
    hide Add, ByRank, OwnOf;
    AddKeepsByRank(g, buckets, n);
    AddKeepsBag(g, buckets[n].0, buckets[n].1);
    assert buckets[..n + 1][..n] == buckets[..n];
    assert Plain(buckets[..n + 1]) == Plain(buckets[..n]) + [buckets[n].1];
  }

  function MaxLength(lists: seq<seq<Bucket>>): nat {
    if lists == [] then 0
    else
      var m, n := MaxLength(lists[..|lists| - 1]), |lists[|lists| - 1]|;
      if n > m then n else m
  }

  lemma {:induction false} AtMostMax(lists: seq<seq<Bucket>>, k: nat)
    requires k < |lists|
    ensures |lists[k]| <= MaxLength(lists)
  {
    if k < |lists| - 1 {
      AtMostMax(lists[..|lists| - 1], k);
    }
  }

  // ----- the order of the visits

  /** The first `i` rounds, and of round `i` the first `k` receivers. */
  function Visits(lists: seq<seq<Bucket>>, i: nat, k: nat): seq<Bucket>
    requires k <= |lists|
    decreases i, k
  {
    if k > 0 then Visits(lists, i, k - 1) + if i < |lists[k - 1]| then [lists[k - 1][i]] else []
    else if i > 0 then Visits(lists, i - 1, |lists|)
    else []
  }

  function Head(list: seq<Bucket>, i: nat): seq<Bucket> {
    if i <= |list| then list[..i] else list
  }

  lemma HeadGrows(list: seq<Bucket>, i: nat)
    ensures Head(list, i + 1) == Head(list, i) + if i < |list| then [list[i]] else []
  {
  }

  /** The first `i` buckets of every list. */
  function Heads(lists: seq<seq<Bucket>>, i: nat): seq<seq<Bucket>> {
    if lists == [] then []
    else
      var last := lists[|lists| - 1];
      Heads(lists[..|lists| - 1], i) + [Head(last, i)]
  }

  function Column(lists: seq<seq<Bucket>>, i: nat): seq<Bucket> {
    if lists == [] then []
    else
      var last := lists[|lists| - 1];
      Column(lists[..|lists| - 1], i) + if i < |last| then [last[i]] else []
  }

  lemma {:induction false} VisitsRow(lists: seq<seq<Bucket>>, i: nat, k: nat)
    requires k <= |lists|
    ensures Visits(lists, i, k) == Visits(lists, i, 0) + Column(lists[..k], i)
  {
    if k > 0 {
      VisitsRow(lists, i, k - 1);
      assert lists[..k][..k - 1] == lists[..k - 1];
    }
  }

  lemma {:induction false} HeadsGrow(lists: seq<seq<Bucket>>, i: nat)
    ensures multiset(Flatten(Heads(lists, i + 1))) == multiset(Flatten(Heads(lists, i))) + multiset(Column(lists, i))
  {
    if lists != [] {
      var init, last := lists[..|lists| - 1], lists[|lists| - 1];
      HeadsGrow(init, i);
      FlattenSnoc(Heads(init, i), Head(last, i));
      FlattenSnoc(Heads(init, i + 1), Head(last, i + 1));
      HeadGrows(last, i);
      hide Head, Flatten;
    }
  }

  lemma {:induction false} HeadsNone(lists: seq<seq<Bucket>>)
    ensures Flatten(Heads(lists, 0)) == []
  {
    if lists != [] {
      HeadsNone(lists[..|lists| - 1]);
      FlattenSnoc(Heads(lists[..|lists| - 1], 0), []);
    }
  }

  lemma {:induction false} HeadsAll(lists: seq<seq<Bucket>>, i: nat)
    requires forall k :: 0 <= k < |lists| ==> |lists[k]| <= i
    ensures Heads(lists, i) == lists
  {
    if lists != [] {
      var n := |lists| - 1;
      HeadsAll(lists[..n], i);
      assert Head(lists[n], i) == lists[n];
      assert lists == lists[..n] + [lists[n]];
    }
  }

  lemma {:induction false} VisitsAre(lists: seq<seq<Bucket>>, i: nat)
    ensures multiset(Visits(lists, i, 0)) == multiset(Flatten(Heads(lists, i)))
  {
    if i == 0 {
      HeadsNone(lists);
    } else {
      VisitsAre(lists, i - 1);
      VisitsRow(lists, i - 1, |lists|);
      HeadsGrow(lists, i - 1);
      assert lists[..|lists|] == lists;
    }
  }

  lemma VisitsOnce(g: Groups, buckets: seq<(nat, Bucket)>)
    requires Grouped(g, buckets)
    ensures multiset(Visits(g.lists, MaxLength(g.lists), 0)) == multiset(Plain(buckets))
  {
    forall k | 0 <= k < |g.lists|
      ensures |g.lists[k]| <= MaxLength(g.lists)
    {
      AtMostMax(g.lists, k);
    }
    VisitsAre(g.lists, MaxLength(g.lists));
    HeadsAll(g.lists, MaxLength(g.lists));
  }

  // ----- receive_tensor

  /** The groups after all buckets, in the order of their first insertions. */
  function GroupsOf(buckets: seq<(nat, Bucket)>): (g: Groups)
    ensures |g.ranks| == |g.lists|
  {
    if buckets == [] then Groups([], [])
    else Add(GroupsOf(buckets[..|buckets| - 1]), buckets[|buckets| - 1].0, buckets[|buckets| - 1].1)
  }

  lemma GroupsSnoc(buckets: seq<(nat, Bucket)>, n: nat)
    requires n < |buckets|
    ensures GroupsOf(buckets[..n + 1]) == Add(GroupsOf(buckets[..n]), buckets[n].0, buckets[n].1)
  {
    assert buckets[..n + 1][..n] == buckets[..n];
  }

  /** Grouping loses no bucket, keeps the order within a rank, and gives every rank one list. */
  lemma {:induction false} GroupsPartition(buckets: seq<(nat, Bucket)>)
    ensures Grouped(GroupsOf(buckets), buckets)
  {
    hide Grouped, Add;
    if buckets == [] {
      GroupedNone();
    } else {
      var n := |buckets| - 1;
      GroupsPartition(buckets[..n]);
      AddKeepsGrouped(GroupsOf(buckets[..n]), buckets, n);
      assert buckets[..n + 1] == buckets;
    }
  }

  /** The order in which the loop visits the buckets. */
  function VisitsOf(buckets: seq<(nat, Bucket)>): seq<Bucket> {
    var lists := GroupsOf(buckets).lists;
    Visits(lists, MaxLength(lists), 0)
  }

  /** The transposed loop visits every bucket exactly once. */
  lemma EveryBucketOnce(buckets: seq<(nat, Bucket)>)
    ensures multiset(VisitsOf(buckets)) == multiset(Plain(buckets))
  {
    GroupsPartition(buckets);
    VisitsOnce(GroupsOf(buckets), buckets);
  }

  method GroupByReceiver(buckets: seq<(nat, Bucket)>) returns (g: Groups, maxLen: nat)
    ensures g == GroupsOf(buckets) && maxLen == MaxLength(g.lists)
  {
    hide MaxLength, GroupsOf;
    g, maxLen := Groups([], []), 0;
    NoGroups();
    assert buckets[..0] == [];
    for n := 0 to |buckets|
      invariant g == GroupsOf(buckets[..n]) && maxLen == MaxLength(g.lists)
    {
      GroupsSnoc(buckets, n);
      MaxAfterAdd(g, buckets[n].0, buckets[n].1);
      var k := IndexOf(g.ranks, buckets[n].0);
      g := Add(g, buckets[n].0, buckets[n].1);
      if |g.lists[k]| > maxLen {
        maxLen := |g.lists[k]|;
      }
    }
    assert buckets[..|buckets|] == buckets;
  }

  lemma NoGroups()
    ensures GroupsOf([]) == Groups([], []) && MaxLength([]) == 0
  {
  }

  lemma GroupedNone()
    ensures Grouped(Groups([], []), [])
  {
    assert Flatten<Bucket>([]) == [] && Plain([]) == [];
  }

  lemma {:induction false} MaxUpdate(lists: seq<seq<Bucket>>, k: nat, list: seq<Bucket>)
    requires k < |lists| && |list| >= |lists[k]|
    ensures MaxLength(lists[k := list]) == if |list| > MaxLength(lists) then |list| else MaxLength(lists)
  {
    var n := |lists| - 1;
    if k < n {
      MaxUpdate(lists[..n], k, list);
      assert lists[k := list][..n] == lists[..n][k := list];
    } else {
      assert lists[k := list][..n] == lists[..n];
    }
  }

  lemma MaxAfterAdd(g: Groups, rank: nat, b: Bucket)
    requires |g.ranks| == |g.lists|
    ensures var g', k := Add(g, rank, b), IndexOf(g.ranks, rank);
      |g'.ranks| == |g'.lists| > k
      && MaxLength(g'.lists) == if |g'.lists[k]| > MaxLength(g.lists) then |g'.lists[k]| else MaxLength(g.lists)
  {
    var k := IndexOf(g.ranks, rank);
    if k < |g.ranks| {
      MaxUpdate(g.lists, k, g.lists[k] + [b]);
    } else {
      assert (g.lists + [[b]])[..|g.lists|] == g.lists;
    }
  }

  method OwnBuckets(buckets: seq<(nat, Bucket)>, rank: nat) returns (own: seq<Bucket>)
    ensures own == OwnOf(buckets, rank)
  {
    own := [];
    for n := 0 to |buckets|
      invariant own == OwnOf(buckets[..n], rank)
    {
      OwnSnoc(buckets, n, rank);
      if buckets[n].0 == rank {
        own := own + [buckets[n].1];
      }
    }
    assert buckets[..|buckets|] == buckets;
  }

  /** `gidx % 2 * bucket_size` */
  function HalfStart(gidx: nat, bucketSize: nat): nat {
    if gidx % 2 == 0 then 0 else bucketSize
  }

  /** After some visits: all but the last are yielded, and the last one is in its half of the buffer. */
  ghost predicate Received(out: seq<Named>, metadata: seq<Item>, buffer: seq<byte>, visits: seq<Bucket>, bucketSize: nat) {
    && |buffer| == 2 * bucketSize
    && (visits == [] ==> out == [])
    && (visits != [] ==>
         var last, start := visits[|visits| - 1], HalfStart(|visits| - 1, bucketSize);
         && Fits(last, bucketSize) && metadata == last.items && out == Contents(visits[..|visits| - 1])
         && start + |last.data| <= |buffer| && buffer[start..start + |last.data|] == last.data)
  }

  /** The held bucket is read while the other half of the buffer holds anything at all. */
  lemma YieldsLast(out: seq<Named>, metadata: seq<Item>, buffer: seq<byte>, buffer': seq<byte>, visits: seq<Bucket>,
                   bucketSize: nat)
    requires Received(out, metadata, buffer, visits, bucketSize) && visits != [] && |buffer'| == |buffer|
    requires var start := HalfStart(|visits| - 1, bucketSize);
      forall i :: start <= i < start + bucketSize && i < |buffer| ==> buffer'[i] == buffer[i]
    ensures out + Tensors(metadata, buffer', HalfStart(|visits| - 1, bucketSize)) == Contents(visits)
  {
    var last, start := visits[|visits| - 1], HalfStart(|visits| - 1, bucketSize);
    assert buffer'[start..start + |last.data|] == buffer[start..start + |last.data|];
    TensorsMoved(metadata, buffer', start, last.data);
    assert visits == visits[..|visits| - 1] + [last];
  }

  /** The broadcast is complete: the bucket is in its half. */
  lemma Completed(out: seq<Named>, buffer: seq<byte>, visits: seq<Bucket>, bucket: Bucket, bucketSize: nat)
    requires Fits(bucket, bucketSize) && |buffer| == 2 * bucketSize && out == Contents(visits)
    requires var start := HalfStart(|visits|, bucketSize);
      start + |bucket.data| <= |buffer| && buffer[start..start + |bucket.data|] == bucket.data
    ensures Received(out, bucket.items, buffer, visits + [bucket], bucketSize)
  {
    hide Contents, Tensors;
    assert (visits + [bucket])[..|visits|] == visits;
  }

  /** `buffer[from : from + count]` holds anything while a broadcast into it is running. */
  method Scribble(buffer: array<byte>, from: nat, count: nat, junk: byte)
    requires from + count <= buffer.Length
    modifies buffer
    ensures forall i :: 0 <= i < buffer.Length ==>
      buffer[i] == if from <= i < from + count then junk else old(buffer[i])
  {
    forall i | from <= i < from + count {
      buffer[i] := junk;
    }
  }

  /** One visit: the broadcast starts, the bucket before is yielded, the broadcast completes. */
  method Visit(buffer: array<byte>, bucket: Bucket, metadata: seq<Item>, out: seq<Named>, gidx: nat, bucketSize: nat,
               junk: byte, ghost visits: seq<Bucket>) returns (metadata': seq<Item>, out': seq<Named>)
    requires gidx == |visits| && buffer.Length == 2 * bucketSize && Fits(bucket, bucketSize)
    requires Received(out, metadata, buffer[..], visits, bucketSize)
    modifies buffer
    ensures Received(out', metadata', buffer[..], visits + [bucket], bucketSize)
  {
    hide Contents, Tensors, Received;
    var start := HalfStart(gidx, bucketSize);
    out' := out;
    ghost var before := buffer[..];
    Scribble(buffer, start, |bucket.data|, junk);
    if gidx > 0 {
      YieldsLast(out, metadata, before, buffer[..], visits, bucketSize);
      out' := out + Tensors(metadata, buffer[..], HalfStart(gidx - 1, bucketSize));
    } else {
      NothingYet(out, metadata, before, visits, bucketSize);
    }
    WeightChunks.CopyInto(buffer, start, bucket.data);
    metadata' := bucket.items;
    Completed(out', buffer[..], visits, bucket, bucketSize);
  }

  lemma NothingYet(out: seq<Named>, metadata: seq<Item>, buffer: seq<byte>, visits: seq<Bucket>, bucketSize: nat)
    requires Received(out, metadata, buffer, visits, bucketSize) && visits == []
    ensures out == Contents(visits)
  {
  }

  predicate AllFit(buckets: seq<(nat, Bucket)>, bucketSize: nat) {
    forall n :: 0 <= n < |buckets| ==> Fits(buckets[n].1, bucketSize)
  }

  lemma {:induction false} OwnFits(buckets: seq<(nat, Bucket)>, rank: nat, bucketSize: nat, i: nat)
    requires AllFit(buckets, bucketSize) && i < |OwnOf(buckets, rank)|
    ensures Fits(OwnOf(buckets, rank)[i], bucketSize)
  {
    var n := |buckets| - 1;
    if i < |OwnOf(buckets[..n], rank)| {
      OwnFits(buckets[..n], rank, bucketSize, i);
    }
  }

  lemma GroupsFit(g: Groups, buckets: seq<(nat, Bucket)>, bucketSize: nat, self: nat, k: nat, i: nat)
    requires Grouped(g, buckets) && AllFit(buckets, bucketSize) && k < |g.lists| && i < |g.lists[k]|
    ensures k < |g.ranks| && Fits(g.lists[k][i], bucketSize)
    ensures g.ranks[k] == self ==> i < |OwnOf(buckets, self)| && OwnOf(buckets, self)[i] == g.lists[k][i]
  {
    OwnFits(buckets, g.ranks[k], bucketSize, i);
  }

  /**
   * The double-buffered loop of one rank. `h2d` is the buffer into which the rank copies its own bucket
   * of the round. `Failure` stands for the unbound metadata when there is no bucket at all.
   */
  method ReceiveTensor(buckets: seq<(nat, Bucket)>, self: nat, bucketSize: nat, junk: byte)
      returns (r: Result<seq<Named>>)
    requires AllFit(buckets, bucketSize)
    ensures r == if buckets == [] then Failure else Success(Contents(VisitsOf(buckets)))
    ensures r.Success? ==> forall originals :: HoldEach(VisitsOf(buckets), originals) ==> r.value == Flatten(originals)
    ensures r.Success? ==>
      forall originals :: HoldEach(Plain(buckets), originals) ==> multiset(r.value) == multiset(Flatten(originals))
  {
    hide Contents, Tensors, Received, Grouped, AllFit, OwnOf, Visits, MaxLength, Fits, GroupsOf;
    var groups, maxLen := GroupByReceiver(buckets);
    GroupsPartition(buckets);
    forall originals | HoldEach(VisitsOf(buckets), originals)
      ensures Contents(VisitsOf(buckets)) == Flatten(originals)
    {
      ContentsAre(VisitsOf(buckets), originals);
    }
    forall originals | HoldEach(Plain(buckets), originals)
      ensures multiset(Contents(VisitsOf(buckets))) == multiset(Flatten(originals))
    {
      YieldsEverything(buckets, originals);
    }
    hide HoldEach;
    var own := OwnBuckets(buckets, self);
    var buffer := new byte[2 * bucketSize](_ => junk);
    var out, metadata, gidx, h2d: seq<byte> := [], [], 0, [];
    NoVisits(groups.lists, buffer[..], bucketSize);
    for i := 0 to maxLen
      invariant fresh(buffer) && buffer.Length == 2 * bucketSize && gidx == |Visits(groups.lists, i, 0)|
      invariant Received(out, metadata, buffer[..], Visits(groups.lists, i, 0), bucketSize)
    {
      if i < |own| {
        h2d := own[i].data;
      }
      for k := 0 to |groups.lists|
        invariant fresh(buffer) && buffer.Length == 2 * bucketSize && gidx == |Visits(groups.lists, i, k)|
        invariant Received(out, metadata, buffer[..], Visits(groups.lists, i, k), bucketSize)
      {
        NextVisit(groups.lists, i, k);
        if i < |groups.lists[k]| {
          GroupsFit(groups, buckets, bucketSize, self, k, i);
          var bucket := groups.lists[k][i];
          var sent := Bucket(bucket.items, if groups.ranks[k] == self then h2d else bucket.data);
          metadata, out := Visit(buffer, sent, metadata, out, gidx, bucketSize, junk, Visits(groups.lists, i, k));
          gidx := gidx + 1;
        }
      }
      NextRound(groups.lists, i);
    }
    EveryVisit(groups, buckets);
    if gidx == 0 {
      return Failure;
    }
    YieldsLast(out, metadata, buffer[..], buffer[..], Visits(groups.lists, maxLen, 0), bucketSize);
    r := Success(out + Tensors(metadata, buffer[..], HalfStart(gidx - 1, bucketSize)));
  }

  lemma NoVisits(lists: seq<seq<Bucket>>, buffer: seq<byte>, bucketSize: nat)
    requires |buffer| == 2 * bucketSize
    ensures Visits(lists, 0, 0) == [] && Received([], [], buffer, Visits(lists, 0, 0), bucketSize)
  {
  }

  lemma NextVisit(lists: seq<seq<Bucket>>, i: nat, k: nat)
    requires k < |lists|
    ensures Visits(lists, i, k + 1) == if i < |lists[k]| then Visits(lists, i, k) + [lists[k][i]] else Visits(lists, i, k)
  {
  }

  lemma NextRound(lists: seq<seq<Bucket>>, i: nat)
    ensures Visits(lists, i + 1, 0) == Visits(lists, i, |lists|)
  {
  }

  lemma EveryVisit(g: Groups, buckets: seq<(nat, Bucket)>)
    requires Grouped(g, buckets)
    ensures |Visits(g.lists, MaxLength(g.lists), 0)| == |buckets|
  {
    VisitsOnce(g, buckets);
    PlainLength(buckets);
    assert |multiset(Visits(g.lists, MaxLength(g.lists), 0))| == |multiset(Plain(buckets))|;
  }

  lemma {:induction false} PlainLength(buckets: seq<(nat, Bucket)>)
    ensures |Plain(buckets)| == |buckets|
  {
    if buckets != [] {
      PlainLength(buckets[..|buckets| - 1]);
    }
  }

  lemma {:induction false} ContentsBag(a: seq<Bucket>, b: seq<Bucket>)
    requires multiset(a) == multiset(b)
    ensures multiset(Contents(a)) == multiset(Contents(b))
  {
    hide Content;
    if a == [] {
      assert |multiset(b)| == 0;
    } else {
      var n := |a| - 1;
      assert a == a[..n] + [a[n]];
      var k := Without(a, b);
      ContentsBag(a[..n], b[..k] + b[k + 1..]);
      ContentsWithout(b, k);
    }
  }

  /** A place of the last element of `a` in `b`. */
  lemma Without(a: seq<Bucket>, b: seq<Bucket>) returns (k: nat)
    requires multiset(a) == multiset(b) && a != []
    ensures k < |b| && b[k] == a[|a| - 1]
    ensures multiset(a[..|a| - 1]) == multiset(b[..k] + b[k + 1..])
  {
    var n := |a| - 1;
    assert a == a[..n] + [a[n]];
    assert a[n] in multiset(a);
    k :| 0 <= k < |b| && b[k] == a[n];
    var p, q, x := b[..k], b[k + 1..], b[k];
    assert b == p + [x] + q;
    assert multiset(b) == multiset(p) + multiset{x} + multiset(q);
    assert multiset(a) == multiset(a[..n]) + multiset{x};
    assert multiset(p + q) == multiset(p) + multiset(q);
    Cancel(multiset(a[..n]), multiset(p + q), x);
  }

  lemma Cancel<T>(a: multiset<T>, b: multiset<T>, x: T)
    requires a + multiset{x} == b + multiset{x}
    ensures a == b
  {
    assert a == (a + multiset{x}) - multiset{x};
    assert b == (b + multiset{x}) - multiset{x};
  }

  lemma ContentsWithout(b: seq<Bucket>, k: nat)
    requires k < |b|
    ensures multiset(Contents(b)) == multiset(Contents(b[..k] + b[k + 1..])) + multiset(Content(b[k]))
  {
    hide Content, Contents;
    var p, q := b[..k], b[k + 1..];
    assert b == (p + [b[k]]) + q;
    ContentsConcat(p, q);
    ContentsConcat(p + [b[k]], q);
    ContentsSnoc(p, b[k]);
    assert Contents(b) == Contents(p) + Content(b[k]) + Contents(q);
  }

  lemma {:induction false} ContentsConcat(a: seq<Bucket>, b: seq<Bucket>)
    ensures Contents(a + b) == Contents(a) + Contents(b)
  {
    hide Content;
    if b == [] {
      assert a + b == a;
    } else {
      assert (a + b)[..|a + b| - 1] == a + b[..|b| - 1];
      ContentsConcat(a, b[..|b| - 1]);
    }
  }

  /** So every rank yields every tensor that the buckets were filled with exactly once, with its own bytes. */
  lemma YieldsEverything(buckets: seq<(nat, Bucket)>, originals: seq<seq<Named>>)
    requires HoldEach(Plain(buckets), originals)
    ensures multiset(Contents(VisitsOf(buckets))) == multiset(Flatten(originals))
  {
    EveryBucketOnce(buckets);
    ContentsBag(VisitsOf(buckets), Plain(buckets));
    ContentsAre(Plain(buckets), originals);
  }

  // ----- the order of the visits

  /** Before `y` in the order of the rounds, and of the ranks within a round. */
  predicate Earlier(x: (nat, nat), y: (nat, nat)) {
    x.0 < y.0 || (x.0 == y.0 && x.1 < y.1)
  }

  /** `at` lists round and rank of every bucket that round `i` and rank `k` have not reached, in that order. */
  ghost predicate InOrder(at: seq<(nat, nat)>, lists: seq<seq<Bucket>>, visits: seq<Bucket>, i: nat, k: nat) {
    && |at| == |visits|
    && (forall a, b :: 0 <= a < b < |at| ==> Earlier(at[a], at[b]))
    && (forall a :: 0 <= a < |at| ==>
         at[a].1 < |lists| && at[a].0 < |lists[at[a].1]| && Earlier(at[a], (i, k))
         && visits[a] == lists[at[a].1][at[a].0])
  }

  lemma {:induction false} VisitsInOrder(lists: seq<seq<Bucket>>, i: nat, k: nat) returns (at: seq<(nat, nat)>)
    requires k <= |lists|
    ensures InOrder(at, lists, Visits(lists, i, k), i, k)
    decreases i, k
  {
    if k > 0 {
      at := VisitsInOrder(lists, i, k - 1);
      if i < |lists[k - 1]| {
        at := at + [(i, k - 1)];
      }
    } else if i > 0 {
      at := VisitsInOrder(lists, i - 1, |lists|);
    } else {
      at := [];
    }
  }

  /** The ranks take their turns in the order in which they first occur among the buckets. */
  ghost predicate FirstOccur(ranks: seq<nat>, first: seq<nat>, buckets: seq<(nat, Bucket)>) {
    && |first| == |ranks| && Ascending(first)
    && forall k :: 0 <= k < |first| ==>
         && first[k] < |buckets| && buckets[first[k]].0 == ranks[k]
         && forall n :: 0 <= n < first[k] ==> buckets[n].0 != ranks[k]
  }

  lemma {:induction false} RanksInOrder(buckets: seq<(nat, Bucket)>) returns (first: seq<nat>)
    ensures FirstOccur(GroupsOf(buckets).ranks, first, buckets)
  {
    if buckets == [] {
      first := [];
    } else {
      var n := |buckets| - 1;
      var init, rank := buckets[..n], buckets[n].0;
      var g := GroupsOf(init);
      first := RanksInOrder(init);
      GroupsPartition(init);
      hide GroupsOf, Grouped, FirstOccur, OwnOf;
      LaterBucket(g.ranks, first, buckets);
      RanksAdded(buckets);
      if rank !in g.ranks {
        NoBucketYet(g, init, rank);
        assert forall m :: 0 <= m < n ==> init[m] == buckets[m];
        NewRank(g.ranks, first, buckets);
        first := first + [n];
      }
    }
  }

  lemma RanksAdded(buckets: seq<(nat, Bucket)>)
    requires buckets != []
    ensures var g, rank := GroupsOf(buckets[..|buckets| - 1]), buckets[|buckets| - 1].0;
      GroupsOf(buckets).ranks == if rank in g.ranks then g.ranks else g.ranks + [rank]
  {
  }

  /** A bucket more does not change where the ranks occur first. */
  lemma LaterBucket(ranks: seq<nat>, first: seq<nat>, buckets: seq<(nat, Bucket)>)
    requires buckets != [] && FirstOccur(ranks, first, buckets[..|buckets| - 1])
    ensures FirstOccur(ranks, first, buckets)
  {
    assert forall m :: 0 <= m < |buckets| - 1 ==> buckets[..|buckets| - 1][m] == buckets[m];
  }

  lemma NewRank(ranks: seq<nat>, first: seq<nat>, buckets: seq<(nat, Bucket)>)
    requires buckets != [] && FirstOccur(ranks, first, buckets)
    requires forall m :: 0 <= m < |buckets| - 1 ==> buckets[m].0 != buckets[|buckets| - 1].0
    requires buckets[|buckets| - 1].0 !in ranks
    ensures FirstOccur(ranks + [buckets[|buckets| - 1].0], first + [|buckets| - 1], buckets)
  {
  }

  /** A rank without a group has no bucket so far. */
  lemma NoBucketYet(g: Groups, buckets: seq<(nat, Bucket)>, rank: nat)
    requires Grouped(g, buckets) && rank !in g.ranks
    ensures forall m :: 0 <= m < |buckets| ==> buckets[m].0 != rank
  {
    NotBefore(buckets, rank);
  }

  lemma {:induction false} NotBefore(buckets: seq<(nat, Bucket)>, rank: nat)
    requires OwnOf(buckets, rank) == []
    ensures forall n :: 0 <= n < |buckets| ==> buckets[n].0 != rank
  {
    if buckets != [] {
      NotBefore(buckets[..|buckets| - 1], rank);
    }
  }
}
