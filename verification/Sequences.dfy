/** Lists of lists, and sums. */
module Sequences {

  function Flatten<T>(lists: seq<seq<T>>): seq<T> {
    if lists == [] then [] else Flatten(lists[..|lists| - 1]) + lists[|lists| - 1]
  }

  lemma FlattenSnoc<T>(lists: seq<seq<T>>, last: seq<T>)
    ensures Flatten(lists + [last]) == Flatten(lists) + last
  {
    assert (lists + [last])[..|lists|] == lists;
  }

  lemma {:induction false} FlattenConcat<T>(a: seq<seq<T>>, b: seq<seq<T>>)
    ensures Flatten(a + b) == Flatten(a) + Flatten(b)
  {
    if b == [] {
      assert a + b == a;
    } else {
      hide Flatten;
      var init, last := b[..|b| - 1], b[|b| - 1];
      FlattenConcat(a, init);
      Associative(a, init, [last]);
      assert init + [last] == b;
      FlattenSnoc(a + init, last);
      FlattenSnoc(init, last);
      Associative(Flatten(a), Flatten(init), last);
    }
  }

  lemma Associative<T>(a: seq<T>, b: seq<T>, c: seq<T>)
    ensures (a + b) + c == a + (b + c)
  {
  }

  lemma FlattenOne<T>(list: seq<T>)
    ensures Flatten([list]) == list
  {
    assert [list][..0] == [];
  }

  lemma {:induction false} FlattenPrefix<T>(lists: seq<seq<T>>, k: nat)
    requires k <= |lists|
    ensures Flatten(lists[..k]) <= Flatten(lists)
    decreases |lists| - k
  {
    if k == |lists| {
      assert lists[..k] == lists;
    } else {
      assert lists[..k + 1][..k] == lists[..k];
      FlattenPrefix(lists, k + 1);
    }
  }

  lemma {:induction false} FlattenUpdate<T>(lists: seq<seq<T>>, k: nat, x: T)
    requires k < |lists|
    ensures multiset(Flatten(lists[k := lists[k] + [x]])) == multiset(Flatten(lists)) + multiset{x}
  {
    var n := |lists| - 1;
    var lists' := lists[k := lists[k] + [x]];
    assert Flatten(lists') == Flatten(lists'[..n]) + lists'[n];
    assert Flatten(lists) == Flatten(lists[..n]) + lists[n];
    if k < n {
      FlattenUpdate(lists[..n], k, x);
      hide Flatten;
      assert lists'[..n] == lists[..n][k := lists[k] + [x]];
    } else {
      hide Flatten;
      assert lists'[..n] == lists[..n];
      assert Flatten(lists') == Flatten(lists) + [x];
    }
  }

  lemma {:induction false} AllEmpty<T>(lists: seq<seq<T>>)
    requires forall k :: 0 <= k < |lists| ==> lists[k] == []
    ensures Flatten(lists) == []
  {
    if lists != [] {
      AllEmpty(lists[..|lists| - 1]);
    }
  }

  predicate Ascending(at: seq<nat>) {
    forall j, k :: 0 <= j < k < |at| ==> at[j] < at[k]
  }

  /** The places of a part, moved behind `n` others. */
  function Shifted(at: seq<nat>, n: nat): (r: seq<nat>)
    ensures |r| == |at| && forall k :: 0 <= k < |r| ==> r[k] == at[k] + n
  {
    seq(|at|, k requires 0 <= k < |at| => at[k] + n)
  }

  /** `range(n)` */
  function UpTo(n: nat): (r: seq<nat>)
    ensures |r| == n && forall k :: 0 <= k < n ==> r[k] == k
  {
    seq(n, k => k)
  }

  function Sum(s: seq<nat>): nat {
    if s == [] then 0 else Sum(s[..|s| - 1]) + s[|s| - 1]
  }

  lemma SumSnoc(s: seq<nat>, n: nat)
    ensures Sum(s + [n]) == Sum(s) + n
  {
    assert (s + [n])[..|s|] == s;
  }

  lemma {:induction false} SumKeeps(s: seq<nat>, s': seq<nat>)
    requires |s'| == |s| && forall k :: 0 <= k < |s| ==> s[k] <= s'[k]
    ensures Sum(s) <= Sum(s')
  {
    if s != [] {
      SumKeeps(s[..|s| - 1], s'[..|s| - 1]);
    }
  }

  lemma {:induction false} SumGrows(s: seq<nat>, s': seq<nat>, r: nat)
    requires |s'| == |s| && r < |s| && forall k :: 0 <= k < |s| ==> s[k] <= s'[k]
    requires s[r] < s'[r]
    ensures Sum(s) < Sum(s')
  {
    if r < |s| - 1 {
      SumGrows(s[..|s| - 1], s'[..|s| - 1], r);
    } else {
      SumKeeps(s[..|s| - 1], s'[..|s| - 1]);
    }
  }

  lemma {:induction false} SumBounded(s: seq<nat>, most: nat)
    requires forall k :: 0 <= k < |s| ==> s[k] <= most
    ensures Sum(s) <= |s| * most
  {
    if s != [] {
      SumBounded(s[..|s| - 1], most);
      assert |s| * most == (|s| - 1) * most + most;
    }
  }
}
