/** The KIMI engine, trainer side: every rank packs its share of the tensors into buckets. */
module KimiBuckets {
  import opened Wrappers
  import opened Sequences

  datatype Tensor = Tensor(name: string, size: nat)

  type Bucket = seq<Tensor>

  /** The tensors whose index is `rank` modulo `world`, in order. */
  function Own(tensors: seq<Tensor>, world: nat, rank: nat): seq<Tensor>
    requires world >= 1
  {
    if tensors == [] then []
    else
      var n := |tensors| - 1;
      Own(tensors[..n], world, rank) + if n % world == rank then [tensors[n]] else []
  }

  lemma OwnSnoc(tensors: seq<Tensor>, n: nat, world: nat, rank: nat)
    requires world >= 1 && n < |tensors|
    ensures Own(tensors[..n + 1], world, rank)
         == if n % world == rank then Own(tensors[..n], world, rank) + [tensors[n]] else Own(tensors[..n], world, rank)
  {
    assert tensors[..n + 1][..n] == tensors[..n];
  }

  function SizeOf(bucket: Bucket): nat {
    if bucket == [] then 0 else SizeOf(bucket[..|bucket| - 1]) + bucket[|bucket| - 1].size
  }

  lemma SizeSnoc(bucket: Bucket, t: Tensor)
    ensures SizeOf(bucket + [t]) == SizeOf(bucket) + t.size
  {
    assert (bucket + [t])[..|bucket|] == bucket;
  }

  /** Within the cap, or a single tensor that is too large by itself. */
  predicate Capped(bucket: Bucket, cap: nat) {
    bucket != [] && (SizeOf(bucket) <= cap || |bucket| == 1)
  }

  /** A bucket is closed only when the tensor that comes next does not fit. */
  predicate Greedy(buckets: seq<Bucket>, cap: nat) {
    forall b :: 0 < b < |buckets| ==> buckets[b] != [] && SizeOf(buckets[b - 1]) + buckets[b][0].size > cap
  }

  predicate AllCapped(buckets: seq<Bucket>, cap: nat) {
    forall b :: 0 <= b < |buckets| ==> Capped(buckets[b], cap)
  }

  predicate DistinctNames(tensors: seq<Tensor>) {
    forall i, j :: 0 <= i < j < |tensors| ==> tensors[i].name != tensors[j].name
  }

  /** `current_bucket[name] = tensor`: a tensor of the same name is replaced. */
  function Put(bucket: Bucket, t: Tensor): Bucket {
    if bucket == [] then [t]
    else if bucket[0].name == t.name then [t] + bucket[1..]
    else [bucket[0]] + Put(bucket[1..], t)
  }

  lemma {:induction false} PutNew(bucket: Bucket, t: Tensor)
    requires forall k :: 0 <= k < |bucket| ==> bucket[k].name != t.name
    ensures Put(bucket, t) == bucket + [t]
  {
    if bucket != [] {
      PutNew(bucket[1..], t);
      assert bucket == [bucket[0]] + bucket[1..];
    }
  }

  /** The open bucket of rank `rank` holds only tensors that came before. */
  lemma {:induction false} OwnMember(tensors: seq<Tensor>, world: nat, rank: nat, k: nat) returns (i: nat)
    requires world >= 1 && k < |Own(tensors, world, rank)|
    ensures i < |tensors| && tensors[i] == Own(tensors, world, rank)[k]
  {
    var n := |tensors| - 1;
    if k < |Own(tensors[..n], world, rank)| {
      i := OwnMember(tensors[..n], world, rank, k);
    } else {
      i := n;
    }
  }

  lemma NewName(tensors: seq<Tensor>, n: nat, world: nat, rank: nat, closed: seq<Tensor>, open: Bucket)
    requires world >= 1 && n < |tensors| && DistinctNames(tensors) && Own(tensors[..n], world, rank) == closed + open
    ensures Put(open, tensors[n]) == open + [tensors[n]]
  {
    forall k | 0 <= k < |open|
      ensures open[k].name != tensors[n].name
    {
      var i := OwnMember(tensors[..n], world, rank, |closed| + k);
    }
    PutNew(open, tensors[n]);
  }

  /** What is packed after some of the tensors: the buckets yielded and the one being filled. */
  ghost predicate Packing(buckets: seq<Bucket>, current: Bucket, size: nat, own: seq<Tensor>, cap: nat) {
    && Flatten(buckets) + current == own && size == SizeOf(current)
    && AllCapped(buckets, cap) && Greedy(buckets, cap)
    && (current != [] ==> Capped(current, cap))
    && (current != [] && buckets != [] ==> SizeOf(buckets[|buckets| - 1]) + current[0].size > cap)
    && (current == [] ==> buckets == [])
  }

  lemma PackingCloses(buckets: seq<Bucket>, current: Bucket, size: nat, own: seq<Tensor>, cap: nat, t: Tensor)
    requires Packing(buckets, current, size, own, cap) && current != [] && size + t.size > cap
    ensures Packing(buckets + [current], [t], t.size, own + [t], cap)
  {
    FlattenSnoc(buckets, current);
    SizeSnoc([], t);
    assert [] + [t] == [t];
    assert Flatten(buckets + [current]) + [t] == own + [t];
  }

  lemma PackingAdds(buckets: seq<Bucket>, current: Bucket, size: nat, own: seq<Tensor>, cap: nat, t: Tensor)
    requires Packing(buckets, current, size, own, cap) && (current == [] || size + t.size <= cap)
    ensures Packing(buckets, current + [t], size + t.size, own + [t], cap)
  {
    SizeSnoc(current, t);
    assert Flatten(buckets) + (current + [t]) == own + [t];
  }

  lemma PackingEnds(buckets: seq<Bucket>, current: Bucket, size: nat, own: seq<Tensor>, cap: nat)
    requires Packing(buckets, current, size, own, cap)
    ensures var all := if current == [] then buckets else buckets + [current];
      Flatten(all) == own && AllCapped(all, cap) && Greedy(all, cap)
  {
    FlattenSnoc(buckets, current);
    hide SizeOf, Flatten;
    assert Flatten(buckets) + [] == Flatten(buckets);
  }

  /** `ckpt_get_named_tensor_buckets`; `Failure` stands for the error on a cap that is not positive. */
  method GetBuckets(tensors: seq<Tensor>, cap: nat, world: nat, rank: nat) returns (r: Result<seq<Bucket>>)
    requires world >= 1 && DistinctNames(tensors)
    ensures r.Failure? <==> cap == 0
    ensures r.Success? ==>
      Flatten(r.value) == Own(tensors, world, rank) && AllCapped(r.value, cap) && Greedy(r.value, cap)
  {
    hide Packing, DistinctNames, Put, AllCapped, Greedy;
    if cap == 0 {
      return Failure;
    }
    var buckets: seq<Bucket>, current: Bucket, size: nat := [], [], 0;
    PackingStarts(cap);
    for n := 0 to |tensors|
      invariant Packing(buckets, current, size, Own(tensors[..n], world, rank), cap)
    {
      var t := tensors[n];
      OwnSnoc(tensors, n, world, rank);
      if n % world == rank {
        ghost var before := Own(tensors[..n], world, rank);
        if size + t.size > cap && current != [] {
          PackingCloses(buckets, current, size, before, cap, t);
          buckets := buckets + [current];
          current := [];
          size := 0;
          PutNew(current, t);
          assert current + [t] == [t];
        } else {
          PackingNoName(buckets, current, size, before, cap, t);
          NewName(tensors, n, world, rank, Flatten(buckets), current);
          PackingAdds(buckets, current, size, before, cap, t);
        }
        current := Put(current, t);
        size := size + t.size;
      }
    }
    assert tensors[..|tensors|] == tensors;
    PackingEnds(buckets, current, size, Own(tensors, world, rank), cap);
    if current != [] {
      buckets := buckets + [current];
    }
    r := Success(buckets);
  }

  lemma PackingStarts(cap: nat)
    ensures Packing([], [], 0, [], cap)
  {
    assert Flatten<Tensor>([]) == [];
  }

  /** An empty open bucket has size 0; and the open bucket ends what is packed so far. */
  lemma PackingNoName(buckets: seq<Bucket>, current: Bucket, size: nat, own: seq<Tensor>, cap: nat, t: Tensor)
    requires Packing(buckets, current, size, own, cap)
    ensures Flatten(buckets) + current == own
    ensures current == [] ==> size == 0
  {
  }

  // ----- all ranks together

  /** The shares of all ranks. */
  function Shares(tensors: seq<Tensor>, world: nat): (r: seq<seq<Tensor>>)
    requires world >= 1
    ensures |r| == world
  {
    seq(world, rank requires 0 <= rank < world => Own(tensors, world, rank))
  }

  lemma SharesSnoc(tensors: seq<Tensor>, world: nat)
    requires world >= 1 && tensors != []
    ensures var n := |tensors| - 1;
      var init, rank := Shares(tensors[..n], world), n % world;
      Shares(tensors, world) == init[rank := init[rank] + [tensors[n]]]
  {
    hide Own;
    var n := |tensors| - 1;
    assert tensors[..n + 1] == tensors;
    forall r | 0 <= r < world
      ensures Own(tensors, world, r) == if n % world == r then Own(tensors[..n], world, r) + [tensors[n]] else Own(tensors[..n], world, r)
    {
      OwnSnoc(tensors, n, world, r);
    }
  }

  /** The shares hold every tensor exactly once. */
  lemma {:induction false} SharesCover(tensors: seq<Tensor>, world: nat)
    requires world >= 1
    ensures multiset(Flatten(Shares(tensors, world))) == multiset(tensors)
  {
    if tensors == [] {
      AllEmpty(Shares(tensors, world));
    } else {
      var n := |tensors| - 1;
      var init, rank := tensors[..n], n % world;
      SharesCover(init, world);
      SharesSnoc(tensors, world);
      hide Shares, Flatten;
      FlattenUpdate(Shares(init, world), rank, tensors[n]);
      assert tensors == init + [tensors[n]];
    }
  }

  /** The buckets of all ranks together hold every weight exactly once. */
  lemma BucketsCover(tensors: seq<Tensor>, world: nat, perRank: seq<seq<Bucket>>)
    requires world >= 1 && |perRank| == world
    requires forall rank :: 0 <= rank < world ==> Flatten(perRank[rank]) == Own(tensors, world, rank)
    ensures multiset(Flatten(Flatten(perRank))) == multiset(tensors)
  {
    SharesCover(tensors, world);
    FlattenTwice(perRank, Shares(tensors, world));
  }

  lemma {:induction false} FlattenTwice<T>(lists: seq<seq<seq<T>>>, flat: seq<seq<T>>)
    requires |flat| == |lists| && forall k :: 0 <= k < |lists| ==> Flatten(lists[k]) == flat[k]
    ensures Flatten(Flatten(lists)) == Flatten(flat)
  {
    if lists != [] {
      var n := |lists| - 1;
      FlattenTwice(lists[..n], flat[..n]);
      FlattenConcat(Flatten(lists[..n]), lists[n]);
    }
  }
}
