/** Discounted cumulative gain: the rearrangement bound over any positive, strictly decreasing
    discount, and exactly when it is reached. */
module Ndcg {
  import opened Rearrangement

  // ------------------------------------------------------------------- definitions

  function Pow2(n: nat): nat { if n == 0 then 1 else 2 * Pow2(n - 1) }

  /** 2^grade - 1 */
  function Gain(grade: nat): real { (Pow2(grade) - 1) as real }

  /** sum((2**grade - 1) / log2(rank + 1)) over the sequence */
  function Dcg(d: Discount, grades: seq<nat>): real {
    if grades == [] then 0.0
    else
      var n := |grades| - 1;
      Dcg(d, grades[..n]) + Gain(grades[n]) * d(n)
  }

  function Cut(grades: seq<nat>, k: nat): seq<nat> { if k <= |grades| then grades[..k] else grades }

  function NdcgAt(d: Discount, grades: seq<nat>, ideal: seq<nat>, k: nat): real {
    var best := Dcg(d, Cut(ideal, k));
    if best == 0.0 then 0.0 else Dcg(d, Cut(grades, k)) / best
  }

  /** The grade at a position, with zeros after the end. */
  function Padded(grades: seq<nat>, i: nat): nat { if i < |grades| then grades[i] else 0 }

  function NonZero(grades: seq<nat>): seq<nat> {
    if grades == [] then []
    else
      var n := |grades| - 1;
      NonZero(grades[..n]) + if grades[n] == 0 then [] else [grades[n]]
  }

  ghost predicate Descending(s: seq<nat>) { forall i, j :: 0 <= i < j < |s| ==> s[i] >= s[j] }

  /** Every positive grade is taken from the ideal list, each entry at most once. */
  ghost predicate Within(grades: seq<nat>, ideal: seq<nat>) { multiset(NonZero(grades)) <= multiset(ideal) }

  // -------------------------------------------------------------------------- gains

  lemma {:induction false} Pow2Grows(a: nat, b: nat)
    requires a < b
    ensures Pow2(a) < Pow2(b)
  {
    Pow2Positive(b - 1);
    if a < b - 1 { Pow2Grows(a, b - 1); }
  }

  lemma {:induction false} Pow2Positive(n: nat)
    ensures Pow2(n) >= 1
  {
    if n > 0 { Pow2Positive(n - 1); }
  }

  lemma GainFacts(a: nat, b: nat)
    ensures Gain(a) >= 0.0 && Gain(0) == 0.0
    ensures a <= b ==> Gain(a) <= Gain(b)
    ensures Gain(a) == Gain(b) <==> a == b
  {
    Pow2Positive(a);
    if a < b { Pow2Grows(a, b); } else if b < a { Pow2Grows(b, a); }
  }

  /** The total gain of the first j positions. */
  function Prefix(grades: seq<nat>, j: nat): real {
    if j == 0 then 0.0 else Prefix(grades, j - 1) + Gain(Padded(grades, j - 1))
  }

  function Total(grades: seq<nat>): real {
    if grades == [] then 0.0 else Total(grades[..|grades|-1]) + Gain(grades[|grades|-1])
  }

  // ------------------------------------------------------------- prefix dominance

  lemma {:induction false} TotalOfParts(a: seq<nat>, b: seq<nat>)
    ensures Total(a + b) == Total(a) + Total(b)
  {
    if b == [] {
      assert a + b == a;
    } else {
      var n := |b| - 1;
      TotalOfParts(a, b[..n]);
      assert (a + b)[..|a + b| - 1] == a + b[..n];
    }
  }

  lemma {:induction false} NonZeroTotal(grades: seq<nat>)
    ensures Total(NonZero(grades)) == Total(grades)
  {
    if grades != [] {
      var n := |grades| - 1;
      NonZeroTotal(grades[..n]);
      GainFacts(0, 0);
      if grades[n] != 0 {
        TotalOfParts(NonZero(grades[..n]), [grades[n]]);
        assert Total([grades[n]]) == Total([]) + Gain(grades[n]);
      } else {
        assert NonZero(grades) == NonZero(grades[..n]);
      }
    }
  }

  lemma {:induction false} LeastOf(s: seq<nat>) returns (k: nat)
    requires s != []
    ensures k < |s| && forall i :: 0 <= i < |s| ==> s[k] <= s[i]
  {
    var n := |s| - 1;
    if n == 0 {
      k := 0;
    } else {
      k := LeastOf(s[..n]);
      if s[n] < s[k] { k := n; }
    }
  }

  /** Among |s| entries of a descending list, the last of its first |s| is at least the least. */
  lemma LeastBelow(s: seq<nat>, t: seq<nat>, x: nat)
    requires Descending(t) && multiset(s) <= multiset(t) && s != []
    requires forall i :: 0 <= i < |s| ==> x <= s[i]
    ensures |s| <= |t| && x <= t[|s| - 1]
  {
    var j := |s|;
    SubCardinality(multiset(s), multiset(t));
    assert |multiset(s)| == |s| && |multiset(t)| == |t| && |multiset(t[..j-1])| == j - 1;
    if t[j-1] < x {
      forall y ensures multiset(s)[y] <= multiset(t[..j-1])[y] {
        CountInPrefix(s, t, j - 1, x, y);
      }
      SubCardinality(multiset(s), multiset(t[..j-1]));
      assert false;
    }
  }

  lemma CountInPrefix(s: seq<nat>, t: seq<nat>, n: nat, x: nat, y: nat)
    requires multiset(s) <= multiset(t) && n <= |t| && forall i :: n <= i < |t| ==> t[i] < x
    requires forall i :: 0 <= i < |s| ==> x <= s[i]
    ensures multiset(s)[y] <= multiset(t[..n])[y]
  {
    assert t == t[..n] + t[n..];
    if y in multiset(s) {
      assert y in s && y >= x;
      assert y !in t[n..];
    }
  }

  lemma {:induction false} SubCardinality(a: multiset<nat>, b: multiset<nat>)
    requires a <= b
    ensures |a| <= |b|
  {
    assert b == a + (b - a);
  }

  lemma TotalWithout(s: seq<nat>, k: nat)
    requires k < |s|
    ensures Total(s) == Total(s[..k] + s[k+1..]) + Gain(s[k])
    ensures multiset(s[..k] + s[k+1..]) <= multiset(s)
  {
    assert s == s[..k] + ([s[k]] + s[k+1..]);
    TotalOfParts(s[..k], [s[k]] + s[k+1..]);
    TotalOfParts([s[k]], s[k+1..]);
    TotalOfParts(s[..k], s[k+1..]);
    assert Total([s[k]]) == Total([]) + Gain(s[k]);
  }

  /** The largest total of |s| entries is that of the first |s|. */
  lemma {:induction false} TopTotal(s: seq<nat>, t: seq<nat>)
    requires Descending(t) && multiset(s) <= multiset(t)
    ensures |s| <= |t| && Total(s) <= Total(t[..|s|])
  {
    if s != [] {
      var n := |s| - 1;
      var k := LeastOf(s);
      LeastBelow(s, t, s[k]);
      TotalWithout(s, k);
      TopTotal(s[..k] + s[k+1..], t);
      GainFacts(s[k], t[n]);
      assert t[..|s|][..n] == t[..n];
    }
  }

  lemma {:induction false} PrefixIsTotal(grades: seq<nat>, j: nat)
    ensures Prefix(grades, j) == Total(Cut(grades, j))
  {
    GainFacts(0, 0);
    if j > 0 {
      PrefixIsTotal(grades, j - 1);
      if j <= |grades| {
        assert grades[..j][..j-1] == grades[..j-1];
      } else {
        assert Cut(grades, j) == Cut(grades, j - 1);
      }
    }
  }

  lemma {:induction false} TotalGrows(t: seq<nat>, i: nat, j: nat)
    requires i <= j <= |t|
    ensures Total(t[..i]) <= Total(t[..j])
  {
    if i < j {
      TotalGrows(t, i, j - 1);
      assert t[..j][..j-1] == t[..j-1];
      GainFacts(t[j-1], 0);
    }
  }

  lemma {:induction false} NonZeroShort(grades: seq<nat>)
    ensures |NonZero(grades)| <= |grades|
  {
    if grades != [] { NonZeroShort(grades[..|grades|-1]); }
  }

  lemma {:induction false} NonZeroCut(grades: seq<nat>, j: nat)
    requires j <= |grades|
    ensures multiset(NonZero(grades[..j])) <= multiset(NonZero(grades))
  {
    if j < |grades| {
      var n := |grades| - 1;
      assert grades[..n][..j] == grades[..j];
      NonZeroCut(grades[..n], j);
      var more: seq<nat> := if grades[n] == 0 then [] else [grades[n]];
      assert NonZero(grades) == NonZero(grades[..n]) + more;
      assert multiset(NonZero(grades[..n]) + more) == multiset(NonZero(grades[..n])) + multiset(more);
    } else {
      assert grades[..j] == grades;
    }
  }

  /** At every depth the ideal list has gathered at least as much. */
  lemma PrefixDominance(grades: seq<nat>, ideal: seq<nat>, j: nat)
    requires Descending(ideal) && Within(grades, ideal)
    ensures Prefix(grades, j) <= Prefix(ideal, j)
  {
    PrefixIsTotal(grades, j);
    PrefixIsTotal(ideal, j);
    var depth := if j <= |grades| then j else |grades|;
    assert Cut(grades, j) == grades[..depth];
    CutTotal(grades, ideal, depth);
    TotalGrows(ideal, if depth <= |ideal| then depth else |ideal|, if j <= |ideal| then j else |ideal|);
    assert ideal[..|ideal|] == ideal;
  }

  lemma CutTotal(grades: seq<nat>, ideal: seq<nat>, j: nat)
    requires Descending(ideal) && Within(grades, ideal) && j <= |grades|
    ensures Total(grades[..j]) <= Total(ideal[..if j <= |ideal| then j else |ideal|])
  {
    var cut := grades[..j];
    NonZeroTotal(cut);
    NonZeroShort(cut);
    NonZeroCut(grades, j);
    TopTotal(NonZero(cut), ideal);
    TotalGrows(ideal, |NonZero(cut)|, if j <= |ideal| then j else |ideal|);
  }

  // ------------------------------------------------------- the weighted difference

  /** By how much the ideal list is ahead at one position. */
  function Lead(grades: seq<nat>, ideal: seq<nat>): nat -> real {
    (i: nat) => Gain(Padded(ideal, i)) - Gain(Padded(grades, i))
  }

  lemma {:induction false} LeadTotal(grades: seq<nat>, ideal: seq<nat>, k: nat)
    ensures Series(Lead(grades, ideal), k) == Prefix(ideal, k) - Prefix(grades, k)
  {
    if k > 0 { LeadTotal(grades, ideal, k - 1); }
  }

  function PaddedGain(grades: seq<nat>): nat -> real { (i: nat) => Gain(Padded(grades, i)) }

  function PaddedDcg(d: Discount, grades: seq<nat>, k: nat): real { Series(Weighted(PaddedGain(grades), d), k) }

  lemma {:induction false} PaddedIsDcg(d: Discount, grades: seq<nat>, k: nat)
    ensures PaddedDcg(d, grades, k) == Dcg(d, Cut(grades, k))
  {
    if k > 0 {
      var w := Weighted(PaddedGain(grades), d);
      PaddedIsDcg(d, grades, k - 1);
      DcgStep(d, grades, k);
      assert Series(w, k) == Series(w, k - 1) + w(k - 1);
    }
  }

  lemma DcgStep(d: Discount, grades: seq<nat>, k: nat)
    requires k > 0
    ensures Dcg(d, Cut(grades, k)) == Dcg(d, Cut(grades, k - 1)) + Gain(Padded(grades, k - 1)) * d(k - 1)
  {
    if k <= |grades| {
      assert grades[..k][..k-1] == grades[..k-1];
    } else {
      GainFacts(0, 0);
      assert Cut(grades, k) == Cut(grades, k - 1);
    }
  }

  lemma LeadTerm(d: Discount, grades: seq<nat>, ideal: seq<nat>, i: nat)
    ensures Weighted(Lead(grades, ideal), d)(i) == Weighted(PaddedGain(ideal), d)(i) - Weighted(PaddedGain(grades), d)(i)
  {}

  lemma LeadDcg(d: Discount, grades: seq<nat>, ideal: seq<nat>, k: nat)
    ensures Series(Weighted(Lead(grades, ideal), d), k) == PaddedDcg(d, ideal, k) - PaddedDcg(d, grades, k)
  {
    forall i: nat { LeadTerm(d, grades, ideal, i); }
    SeriesDifference(Weighted(PaddedGain(ideal), d), Weighted(PaddedGain(grades), d), Weighted(Lead(grades, ideal), d), k);
  }

  lemma LeadNeverNegative(grades: seq<nat>, ideal: seq<nat>)
    requires Descending(ideal) && Within(grades, ideal)
    ensures NeverNegative(Lead(grades, ideal))
  {
    forall j: nat ensures Series(Lead(grades, ideal), j) >= 0.0 {
      PrefixDominance(grades, ideal, j);
      LeadTotal(grades, ideal, j);
    }
  }

  /** The rearrangement inequality, with its case of equality. */
  lemma DcgDominance(d: Discount, grades: seq<nat>, ideal: seq<nat>, k: nat)
    requires Discounts(d) && Descending(ideal) && Within(grades, ideal)
    ensures Dcg(d, Cut(grades, k)) <= Dcg(d, Cut(ideal, k))
    ensures Dcg(d, Cut(grades, k)) == Dcg(d, Cut(ideal, k)) <==> SamePadded(grades, ideal, k)
  {
    var lead := Lead(grades, ideal);
    PaddedIsDcg(d, grades, k);
    PaddedIsDcg(d, ideal, k);
    LeadDcg(d, grades, ideal, k);
    LeadNeverNegative(grades, ideal);
    WeightedBound(lead, d, k);
    forall i | 0 <= i < k ensures lead(i) == 0.0 <==> Padded(grades, i) == Padded(ideal, i) {
      GainFacts(Padded(grades, i), Padded(ideal, i));
    }
  }

  /** The same list, up to trailing zeros, as far as the cut. */
  ghost predicate SamePadded(grades: seq<nat>, ideal: seq<nat>, k: nat) {
    forall i :: 0 <= i < k ==> Padded(grades, i) == Padded(ideal, i)
  }

  lemma {:induction false} DcgNonNegative(d: Discount, grades: seq<nat>)
    requires Discounts(d)
    ensures Dcg(d, grades) >= 0.0
    ensures grades != [] && grades[0] > 0 ==> Dcg(d, grades) > 0.0
  {
    if grades != [] {
      var n := |grades| - 1;
      DcgNonNegative(d, grades[..n]);
      GainFacts(grades[n], 0);
      assert d(n) > 0.0 && Gain(grades[n]) * d(n) >= 0.0;
      if n == 0 && grades[0] > 0 { assert Gain(grades[0]) * d(0) > 0.0; }
    }
  }

  /** nDCG lies in [0, 1], and it is 1 exactly when the list is, up to trailing zeros, the ideal
      one cut at k, and there is something to gain. */
  lemma NdcgBounds(d: Discount, grades: seq<nat>, ideal: seq<nat>, k: nat)
    requires Discounts(d) && Descending(ideal) && Within(grades, ideal)
    ensures 0.0 <= NdcgAt(d, grades, ideal, k) <= 1.0
    ensures NdcgAt(d, grades, ideal, k) == 1.0 <==>
      k > 0 && Padded(ideal, 0) > 0 && SamePadded(grades, ideal, k)
  {
    DcgDominance(d, grades, ideal, k);
    DcgNonNegative(d, Cut(grades, k));
    DcgNonNegative(d, Cut(ideal, k));
    IdealZero(d, ideal, k);
    var a, b := Dcg(d, Cut(grades, k)), Dcg(d, Cut(ideal, k));
    if b > 0.0 { Quotient(a, b); }
  }

  lemma Quotient(a: real, b: real)
    requires 0.0 <= a <= b && b > 0.0
    ensures 0.0 <= a / b <= 1.0 && (a / b == 1.0 <==> a == b)
  {
    assert a / b * b == a;
  }

  /** There is something to gain exactly when the best grade within the cut is positive. */
  lemma IdealZero(d: Discount, ideal: seq<nat>, k: nat)
    requires Discounts(d) && Descending(ideal)
    ensures Dcg(d, Cut(ideal, k)) > 0.0 <==> k > 0 && Padded(ideal, 0) > 0
  {
    var cut := Cut(ideal, k);
    if cut != [] && cut[0] > 0 {
      DcgNonNegative(d, cut);
    } else {
      AllZero(d, cut);
    }
  }

  lemma {:induction false} AllZero(d: Discount, grades: seq<nat>)
    requires forall i :: 0 <= i < |grades| ==> grades[i] == 0
    ensures Dcg(d, grades) == 0.0
  {
    GainFacts(0, 0);
    if grades != [] { AllZero(d, grades[..|grades|-1]); }
  }
}
