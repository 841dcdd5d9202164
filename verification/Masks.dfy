/** Boolean masks over rows or columns, and what they select. */
module Masks {
  import opened TensorRows

  function Count(mask: seq<bool>): nat {
    if mask == [] then 0 else Count(mask[..|mask| - 1]) + if mask[|mask| - 1] then 1 else 0
  }

  /** `output[mask]` */
  function Select<T>(rows: seq<T>, mask: seq<bool>): seq<T>
    requires |rows| == |mask|
  {
    if mask == [] then []
    else Select(rows[..|rows| - 1], mask[..|mask| - 1]) + if mask[|mask| - 1] then [rows[|rows| - 1]] else []
  }

  lemma {:induction false} CountConcat(a: seq<bool>, b: seq<bool>)
    ensures Count(a + b) == Count(a) + Count(b)
  {
    if b == [] {
      assert a + b == a;
    } else {
      assert (a + b)[..|a + b| - 1] == a + b[..|b| - 1];
      CountConcat(a, b[..|b| - 1]);
    }
  }

  lemma {:induction false} CountAll(n: nat)
    ensures Count(seq(n, _ => true)) == n
  {
    if n > 0 {
      assert seq(n, _ => true)[..n - 1] == seq(n - 1, _ => true);
      CountAll(n - 1);
    }
  }

  lemma {:induction false} SelectMap<T, U>(f: T -> U, rows: seq<T>, mask: seq<bool>)
    requires |rows| == |mask|
    ensures Select(Map(f, rows), mask) == Map(f, Select(rows, mask))
  {
    if mask != [] {
      SelectMap(f, rows[..|rows| - 1], mask[..|mask| - 1]);
      assert Map(f, rows)[..|rows| - 1] == Map(f, rows[..|rows| - 1]);
    }
  }

  lemma {:induction false} SelectConcat<T>(a: seq<T>, b: seq<T>, ma: seq<bool>, mb: seq<bool>)
    requires |a| == |ma| && |b| == |mb|
    ensures Select(a + b, ma + mb) == Select(a, ma) + Select(b, mb)
  {
    if b == [] {
      assert a + b == a && ma + mb == ma;
    } else {
      var b', mb' := b[..|b| - 1], mb[..|mb| - 1];
      assert (a + b)[..|a + b| - 1] == a + b' && (ma + mb)[..|ma + mb| - 1] == ma + mb';
      SelectConcat(a, b', ma, mb');
    }
  }

  lemma {:induction false} SelectAll<T>(a: seq<T>, mask: seq<bool>)
    requires |a| == |mask| && forall i :: 0 <= i < |mask| ==> mask[i]
    ensures Select(a, mask) == a
  {
    if a != [] {
      SelectAll(a[..|a| - 1], mask[..|mask| - 1]);
    }
  }

  lemma {:induction false} SelectNone<T>(a: seq<T>, mask: seq<bool>)
    requires |a| == |mask| && forall i :: 0 <= i < |mask| ==> !mask[i]
    ensures Select(a, mask) == []
  {
    if a != [] {
      SelectNone(a[..|a| - 1], mask[..|mask| - 1]);
    }
  }

  lemma {:induction false} SelectLength<T>(a: seq<T>, mask: seq<bool>)
    requires |a| == |mask|
    ensures |Select(a, mask)| == Count(mask)
  {
    if a != [] {
      SelectLength(a[..|a| - 1], mask[..|mask| - 1]);
    }
  }
}
