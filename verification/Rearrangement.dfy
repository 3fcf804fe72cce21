/** Weighting a series whose partial sums never go negative by a falling positive weight. */
module Rearrangement {

  function Series(f: nat -> real, k: nat): real { if k == 0 then 0.0 else Series(f, k - 1) + f(k - 1) }

  /** discount(i) stands for 1 / log2(rank + 1) at the zero-based position i. */
  type Discount = nat -> real

  ghost predicate Discounts(d: Discount) {
    (forall i: nat :: d(i) > 0.0) && forall i: nat, j: nat :: i < j ==> d(j) < d(i)
  }

  lemma {:induction false} SeriesDifference(f: nat -> real, g: nat -> real, h: nat -> real, k: nat)
    requires forall i: nat :: h(i) == f(i) - g(i)
    ensures Series(h, k) == Series(f, k) - Series(g, k)
  {
    if k > 0 { SeriesDifference(f, g, h, k - 1); }
  }

  ghost predicate NeverNegative(f: nat -> real) { forall j: nat :: Series(f, j) >= 0.0 }

  function Weighted(f: nat -> real, d: Discount): nat -> real { (i: nat) => f(i) * d(i) }

  /** One step: e is the weighted and p the plain partial sum so far, f the next term, x > y the weights. */
  lemma Step(e: real, p: real, f: real, x: real, y: real)
    requires e >= p * x && p >= 0.0 && p + f >= 0.0 && x > y > 0.0
    ensures e + f * y >= (p + f) * y >= 0.0
    ensures e + f * y == 0.0 ==> p == 0.0 && e == 0.0 && f == 0.0
  {
    assert e + f * y - (p + f) * y == e - p * y;
    assert p * x - p * y == p * (x - y);
    assert p * (x - y) >= 0.0;
    assert (p + f) * y >= 0.0;
    if e + f * y == 0.0 {
      assert (p + f) * y == 0.0 && p + f == 0.0;
      assert p * (x - y) == 0.0 && p == 0.0;
    }
  }

  lemma {:induction false} WeightedAbove(f: nat -> real, d: Discount, k: nat)
    requires Discounts(d) && NeverNegative(f)
    ensures Series(Weighted(f, d), k + 1) >= Series(f, k + 1) * d(k) >= 0.0
    ensures Series(Weighted(f, d), k + 1) == 0.0 ==> forall i: nat :: i <= k ==> f(i) == 0.0
  {
    var w := Weighted(f, d);
    if k == 0 {
      First(f, d);
    } else {
      WeightedAbove(f, d, k - 1);
      assert w(k) == f(k) * d(k);
      assert Series(f, k + 1) == Series(f, k) + f(k) && Series(w, k + 1) == Series(w, k) + w(k);
      Step(Series(w, k), Series(f, k), f(k), d(k - 1), d(k));
    }
  }

  lemma First(f: nat -> real, d: Discount)
    requires Discounts(d) && NeverNegative(f)
    ensures Series(Weighted(f, d), 1) == Series(f, 1) * d(0) >= 0.0
    ensures Series(Weighted(f, d), 1) == 0.0 ==> f(0) == 0.0
  {
    assert Series(f, 1) == Series(f, 0) + f(0) == f(0);
    assert Series(Weighted(f, d), 1) == Series(Weighted(f, d), 0) + f(0) * d(0);
    if f(0) > 0.0 { assert f(0) * d(0) > 0.0; }
  }

  /** The weighted sum is never negative either, and vanishes only with all its terms. */
  lemma WeightedBound(f: nat -> real, d: Discount, k: nat)
    requires Discounts(d) && NeverNegative(f)
    ensures Series(Weighted(f, d), k) >= 0.0
    ensures Series(Weighted(f, d), k) == 0.0 <==> forall i: nat :: i < k ==> f(i) == 0.0
  {
    if k > 0 { WeightedAbove(f, d, k - 1); }
    if forall i: nat :: i < k ==> f(i) == 0.0 { AllZeroTerms(Weighted(f, d), k); }
  }

  lemma {:induction false} AllZeroTerms(f: nat -> real, k: nat)
    requires forall i: nat :: i < k ==> f(i) == 0.0
    ensures Series(f, k) == 0.0
  {
    if k > 0 { AllZeroTerms(f, k - 1); }
  }
}
