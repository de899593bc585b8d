/** Rounding and the few facts about products of reals that the bucket proofs use. */
module Arithmetic {

  function MinReal(a: real, b: real): (m: real)
    ensures m <= a && m <= b && (m == a || m == b)
  {
    if a <= b then a else b
  }

  function MinInt(a: int, b: int): (m: int)
    ensures m <= a && m <= b && (m == a || m == b)
  {
    if a <= b then a else b
  }

  function MaxInt(a: int, b: int): (m: int)
    ensures a <= m && b <= m && (m == a || m == b)
  {
    if a >= b then a else b
  }

  /** Clock readings in order. */
  ghost predicate NeverBack(ts: seq<int>) {
    forall i, j :: 0 <= i < j < |ts| ==> ts[i] <= ts[j]
  }

  /** The least integer that is not below `x`. */
  function Ceil(x: real): (c: int)
    ensures x <= c as real < x + 1.0
  {
    -((-x).Floor)
  }

  /** `e` steps at `rate` reach `need` exactly from the rounded-up quotient on. */
  lemma CeilQuotient(need: real, rate: real, e: int)
    requires rate > 0.0
    ensures rate * (e as real) >= need <==> e >= Ceil(need / rate)
  {
    var q := need / rate;
    assert rate * q == need;
    AboveCeil(q, e);
    MulOrder(rate, q, e as real);
  }

  lemma AboveCeil(x: real, n: int)
    ensures n >= Ceil(x) <==> n as real >= x
  {
  }

  lemma MulOrder(rate: real, a: real, b: real)
    requires rate > 0.0
    ensures rate * a <= rate * b <==> a <= b
  {
    assert rate * b - rate * a == rate * (b - a);
  }

  lemma MulMono(rate: real, a: real, b: real)
    requires rate >= 0.0 && a <= b
    ensures rate * a <= rate * b
  {
  }

  lemma Distribute(rate: real, a: real, b: real)
    ensures rate * (a + b) == rate * a + rate * b
  {
  }
}
