/** The few facts about products and quotients that the solver does not find by itself. */
module Arith {

  function Min(a: nat, b: nat): nat {
    if a < b then a else b
  }

  function Times(a: nat, b: nat): nat {
    a * b
  }

  lemma {:induction false} MulMono(a: nat, b: nat, k: nat)
    requires a <= b
    ensures a * k <= b * k
  {
    if a < b {
      MulMono(a, b - 1, k);
      assert b * k == (b - 1) * k + k;
    }
  }

  lemma LessTimes(a: nat, b: nat, k: nat)
    requires a < b
    ensures a * k + k <= b * k
  {
    MulMono(a + 1, b, k);
    assert (a + 1) * k == a * k + k;
  }

  /** Quotient and remainder are determined by `x == q * k + r` with `r < k`. */
  lemma DivModUnique(x: nat, q: nat, r: nat, k: nat)
    requires k > 0 && r < k && x == q * k + r
    ensures x / k == q && x % k == r
  {
    var q', r' := x / k, x % k;
    assert x == k * q' + r';
    assert k * q' == q' * k;
    if q < q' {
      LessTimes(q, q', k);
    } else if q' < q {
      LessTimes(q', q, k);
    }
  }
}
