/** Integer apportionment of a relation's sampling budget over its structural strata:
    floor quotas, a representation bump, and two opposing greedy repair loops. */
module Apportionment {
  import opened Ordering

  datatype Stratum = Stratum(bucket: string, facets: seq<string>)

  type Populations = map<Stratum, nat>
  type Quotas = map<Stratum, int>

  /** The Python order on the tuple (bucket, facet pattern). */
  predicate StratumLe(a: Stratum, b: Stratum) {
    if a.bucket == b.bucket then LexLe(StringLe, a.facets, b.facets) else StringLe(a.bucket, b.bucket)
  }

  lemma StratumTotalOrder()
    ensures TotalOrder(StratumLe)
  {
    StringTotalOrder();
    var lex := (a: seq<string>, b: seq<string>) => LexLe(StringLe, a, b);
    LexIsTotalOrder<string>(StringLe);
    forall a, b, c | StratumLe(a, b) && StratumLe(b, c) ensures StratumLe(a, c) {
      assert lex(a.facets, b.facets) && lex(b.facets, c.facets) ==> lex(a.facets, c.facets);
    }
    forall a, b ensures StratumLe(a, b) || StratumLe(b, a) {
      assert lex(a.facets, b.facets) || lex(b.facets, a.facets);
    }
    forall a, b | StratumLe(a, b) && StratumLe(b, a) ensures a == b {
      assert lex(a.facets, b.facets) && lex(b.facets, a.facets) ==> a.facets == b.facets;
    }
  }

  function Keys(s: set<Stratum>): (r: seq<Stratum>)
    ensures Distinct(r) && |r| == |s|
    ensures forall k :: k in r <==> k in s
  {
    StratumTotalOrder();
    SetToSorted(StratumLe, s)
  }

  ghost predicate KeysOf(p: Populations, keys: seq<Stratum>) {
    Distinct(keys) && |keys| == |p| && forall k :: k in keys <==> k in p
  }

  // ------------------------------------------------------------ summation

  function Total(m: Quotas, keys: seq<Stratum>): int
    requires forall k <- keys :: k in m
  {
    if keys == [] then 0 else m[keys[0]] + Total(m, keys[1..])
  }

  lemma {:induction false} TotalUpdate(m: Quotas, keys: seq<Stratum>, k: Stratum, v: int)
    requires Distinct(keys) && forall x <- keys :: x in m
    requires k in m
    ensures Total(m[k := v], keys) == if k in keys then Total(m, keys) - m[k] + v else Total(m, keys)
  {
    if keys != [] {
      TotalUpdate(m, keys[1..], k, v);
      assert keys[0] !in keys[1..];
    }
  }

  lemma {:induction false} TotalMonotone(m: Quotas, n: Quotas, keys: seq<Stratum>)
    requires forall k <- keys :: k in m && k in n && m[k] <= n[k]
    ensures Total(m, keys) <= Total(n, keys)
    ensures Total(m, keys) == Total(n, keys) ==> forall k <- keys :: m[k] == n[k]
  {
    if keys != [] {
      TotalMonotone(m, n, keys[1..]);
    }
  }

  // ---------------------------------------------------------- the two orders

  /** Cutting takes the minimum of (remainder, stratum); true when a comes at or ahead of b. */
  predicate CutLe(rem: Quotas, a: Stratum, b: Stratum)
    requires a in rem && b in rem
  {
    rem[a] < rem[b] || (rem[a] == rem[b] && StratumLe(a, b))
  }

  predicate CharGe(a: char, b: char) { a >= b }

  /** Python's order on the tuples of negated code points of a and b. */
  predicate NegatedLe(a: string, b: string) { LexLe(CharGe, a, b) }

  /** Topping up takes the maximum of (remainder, negated code points of the stratum's repr);
      true when a comes at or ahead of b. */
  predicate TopUpLe(rem: Quotas, repr: Stratum -> string, a: Stratum, b: Stratum)
    requires a in rem && b in rem
  {
    rem[a] > rem[b] || (rem[a] == rem[b] && NegatedLe(repr(b), repr(a)))
  }

  lemma NegatedTotalOrder(a: string, b: string)
    ensures NegatedLe(a, b) || NegatedLe(b, a)
    ensures NegatedLe(a, b) && NegatedLe(b, a) ==> a == b
  {
    assert TotalOrder(CharGe);
    LexTotal(CharGe, a, b);
  }

  lemma NegatedTransitive(a: string, b: string, c: string)
    requires NegatedLe(a, b) && NegatedLe(b, c)
    ensures NegatedLe(a, c)
  {
    assert TotalOrder(CharGe);
    LexTransitive(CharGe, a, b, c);
  }

  // ------------------------------------------------------------ base quotas

  function Floor(pop: nat, total: nat, size: nat): nat
    requires size > 0
  {
    (pop * total) / size
  }

  function Remainders(p: Populations, total: nat, size: nat): Quotas
    requires size > 0
  {
    map k | k in p :: (p[k] * total) % size
  }

  function Base(p: Populations, total: nat, size: nat): Quotas
    requires size > 0
  {
    map k | k in p :: if |p| <= total && Floor(p[k], total, size) < 1 then 1 else Floor(p[k], total, size)
  }

  lemma FloorBounds(pop: nat, total: nat, size: nat)
    requires 0 < size && total < size
    ensures Floor(pop, total, size) <= pop
    ensures Floor(pop, total, size) * size <= pop * total
  {
    var a := pop * total;
    assert a == a / size * size + a % size;
    assert a <= pop * size;
    DivideOut(a / size, pop, size);
  }

  lemma DivideOut(a: int, b: int, c: nat)
    requires c > 0 && a * c <= b * c
    ensures a <= b
  {
    var d := a - b;
    assert d * c == a * c - b * c;
    assert d >= 1 ==> d * c >= 1;
  }

  /** Without the representation bump the floors never exceed the budget. */
  lemma {:induction false} FloorsFit(p: Populations, total: nat, size: nat, keys: seq<Stratum>)
    requires total < size && |p| > total && forall k <- keys :: k in p
    ensures Total(Base(p, total, size), keys) * size <= Total(p, keys) * total
  {
    if keys != [] {
      FloorsFit(p, total, size, keys[1..]);
      FloorBounds(p[keys[0]], total, size);
      AddProducts(Base(p, total, size)[keys[0]], Total(Base(p, total, size), keys[1..]), size,
                  p[keys[0]], Total(p, keys[1..]), total);
    }
  }

  lemma AddProducts(a: int, b: int, c: int, x: int, y: int, z: int)
    requires a * c <= x * z && b * c <= y * z
    ensures (a + b) * c <= (x + y) * z
  {}

  lemma FloorsWithinBudget(p: Populations, total: nat, size: nat, keys: seq<Stratum>)
    requires forall k <- keys :: k in p
    requires total < size == Total(p, keys) && |p| > total
    ensures Total(Base(p, total, size), keys) <= total
  {
    FloorsFit(p, total, size, keys);
    DivideOut(Total(Base(p, total, size), keys), total, size);
  }

  // --------------------------------------------------------- the specification

  /** A stratum is cut only once every stratum ahead of it is already down to one. */
  ghost predicate CutShape(base: Quotas, rem: Quotas, q: Quotas)
    requires q.Keys == base.Keys == rem.Keys
  {
    && (forall k :: k in q ==> q[k] <= base[k])
    && (forall k :: k in q && q[k] < base[k] ==> q[k] >= 1)
    && (forall j, k :: j in q && k in q && j != k && CutLe(rem, j, k) && q[k] < base[k] ==> q[j] <= 1)
  }

  /** A stratum gains only once every stratum ahead of it is already at its population. */
  ghost predicate TopUpShape(p: Populations, base: Quotas, rem: Quotas, repr: Stratum -> string, q: Quotas)
    requires q.Keys == p.Keys == base.Keys == rem.Keys
  {
    && (forall k :: k in q ==> base[k] <= q[k] <= p[k])
    && (forall j, k :: j in q && k in q && j != k && TopUpLe(rem, repr, j, k) && q[k] > base[k] ==> q[j] == p[j])
  }

  /** The exact quota table, at most one repair loop having done any step. */
  ghost predicate Repaired(p: Populations, total: nat, keys: seq<Stratum>, base: Quotas, rem: Quotas,
                           repr: Stratum -> string, q: Quotas)
    requires p.Keys == base.Keys == rem.Keys && forall k <- keys :: k in p
  {
    && q.Keys == p.Keys
    && Total(q, keys) == total
    && (forall k :: k in p ==> 0 <= q[k] <= p[k])
    && (|p| <= total ==> forall k :: k in p ==> q[k] >= 1)
    && (Total(base, keys) >= total ==> CutShape(base, rem, q))
    && (Total(base, keys) <= total ==> TopUpShape(p, base, rem, repr, q))
  }

  ghost predicate IsApportionment(p: Populations, total: nat, repr: Stratum -> string, q: Quotas) {
    var keys := Keys(p.Keys);
    var size := Total(p, keys);
    if total >= size then q == p
    else Repaired(p, total, keys, Base(p, total, size), Remainders(p, total, size), repr, q)
  }

  /** The specification admits exactly one answer, so the result depends on the
      populations as a mapping and not on the order in which the strata were met. */
  lemma ApportionmentUnique(p: Populations, total: nat, repr: Stratum -> string, q: Quotas, q': Quotas)
    requires Injective(repr)
    requires IsApportionment(p, total, repr, q) && IsApportionment(p, total, repr, q')
    ensures q == q'
  {
    var keys := Keys(p.Keys);
    var size := Total(p, keys);
    if total < size {
      RepairedUnique(p, total, keys, Base(p, total, size), Remainders(p, total, size), repr, q, q');
    }
  }

  lemma RepairedUnique(p: Populations, total: nat, keys: seq<Stratum>, base: Quotas, rem: Quotas, repr: Stratum -> string,
                       q: Quotas, q': Quotas)
    requires Injective(repr) && p.Keys == base.Keys == rem.Keys && forall k :: k in keys <==> k in p
    requires Repaired(p, total, keys, base, rem, repr, q) && Repaired(p, total, keys, base, rem, repr, q')
    ensures q == q'
  {
    forall j, k | j in p && k in p ensures !(q[j] > q'[j] && q[k] < q'[k]) {
      NoOpposition(p, total, keys, base, rem, repr, q, q', j, k);
    }
    if forall x :: x in p ==> q[x] <= q'[x] {
      TotalMonotone(q, q', keys);
    } else {
      TotalMonotone(q', q, keys);
    }
  }

  /** Two answers cannot disagree upwards at one stratum and downwards at another: whichever of
      the two comes first in the order is saturated in one of the answers. */
  lemma NoOpposition(p: Populations, total: nat, keys: seq<Stratum>, base: Quotas, rem: Quotas, repr: Stratum -> string,
                     q: Quotas, q': Quotas, j: Stratum, k: Stratum)
    requires Injective(repr) && p.Keys == base.Keys == rem.Keys && forall x <- keys :: x in p
    requires j in p && k in p
    requires Repaired(p, total, keys, base, rem, repr, q) && Repaired(p, total, keys, base, rem, repr, q')
    ensures !(q[j] > q'[j] && q[k] < q'[k])
  {
    StratumTotalOrder();
    NegatedTotalOrder(repr(j), repr(k));
    assert CutLe(rem, j, k) || CutLe(rem, k, j);
    assert TopUpLe(rem, repr, j, k) || TopUpLe(rem, repr, k, j);
  }

  // -------------------------------------------------------------- the algorithm

  /** Python's min(candidates, key=...) under the cut key. */
  function CutFirst(rem: Quotas, c: seq<Stratum>): (k: Stratum)
    requires c != [] && forall x <- c :: x in rem
    ensures k in c && forall x <- c :: CutLe(rem, k, x)
  {
    StratumTotalOrder();
    if |c| == 1 then c[0]
    else
      var m := CutFirst(rem, c[1..]);
      assert forall x <- c :: x == c[0] || x in c[1..];
      if CutLe(rem, c[0], m) then c[0] else m
  }

  /** Python's max(candidates, key=...) under the top-up key. */
  function TopUpFirst(rem: Quotas, repr: Stratum -> string, c: seq<Stratum>): (k: Stratum)
    requires c != [] && forall x <- c :: x in rem
    ensures k in c && forall x <- c :: TopUpLe(rem, repr, k, x)
  {
    NegatedTotalOrder(repr(c[0]), repr(c[0]));
    if |c| == 1 then c[0]
    else
      var m := TopUpFirst(rem, repr, c[1..]);
      NegatedTotalOrder(repr(c[0]), repr(m));
      assert forall x <- c :: x == c[0] || x in c[1..];
      if TopUpLe(rem, repr, c[0], m) then
        TopUpTransitive(rem, repr, c[0], m, c[1..]);
        c[0]
      else m
  }

  lemma TopUpTransitive(rem: Quotas, repr: Stratum -> string, a: Stratum, m: Stratum, c: seq<Stratum>)
    requires a in rem && m in rem && forall x <- c :: x in rem && TopUpLe(rem, repr, m, x)
    requires TopUpLe(rem, repr, a, m)
    ensures forall x <- c :: TopUpLe(rem, repr, a, x)
  {
    forall x | x in c ensures TopUpLe(rem, repr, a, x) {
      if rem[a] == rem[x] {
        NegatedTransitive(repr(x), repr(m), repr(a));
      }
    }
  }

  function Above(q: Quotas, keys: seq<Stratum>, floor: int): (r: seq<Stratum>)
    requires forall k <- keys :: k in q
    ensures forall k :: k in r <==> k in keys && q[k] > floor
  {
    if keys == [] then [] else (if q[keys[0]] > floor then [keys[0]] else []) + Above(q, keys[1..], floor)
  }

  function Below(q: Quotas, keys: seq<Stratum>, p: Populations): (r: seq<Stratum>)
    requires forall k <- keys :: k in q && k in p
    ensures forall k :: k in r <==> k in keys && q[k] < p[k]
  {
    if keys == [] then [] else (if q[keys[0]] < p[keys[0]] then [keys[0]] else []) + Below(q, keys[1..], p)
  }

  lemma {:induction false} AtMostOneEach(q: Quotas, keys: seq<Stratum>)
    requires forall k <- keys :: k in q && q[k] <= 1
    ensures Total(q, keys) <= |keys|
  {
    if keys != [] { AtMostOneEach(q, keys[1..]); }
  }

  /** While the quotas exceed the number of strata something can still be cut. */
  lemma SomethingToCut(q: Quotas, keys: seq<Stratum>)
    requires (forall k <- keys :: k in q) && Total(q, keys) > |keys|
    ensures Above(q, keys, 1) != []
  {
    if forall k <- keys :: q[k] <= 1 {
      AtMostOneEach(q, keys);
    } else {
      var k :| k in keys && q[k] > 1;
      assert k in Above(q, keys, 1);
    }
  }

  /** While the quotas fall short of the population something can still be topped up. */
  lemma SomethingToTopUp(q: Quotas, keys: seq<Stratum>, p: Populations)
    requires (forall k <- keys :: k in q && k in p) && Total(q, keys) < Total(p, keys)
    ensures Below(q, keys, p) != []
  {
    if forall k <- keys :: q[k] >= p[k] {
      TotalMonotone(p, q, keys);
    } else {
      var k :| k in keys && q[k] < p[k];
      assert k in Below(q, keys, p);
    }
  }

  /** What the cut loop keeps: the shape, and quotas between the floor of one and the population. */
  ghost predicate CutState(p: Populations, total: nat, base: Quotas, rem: Quotas, q: Quotas) {
    && q.Keys == p.Keys == base.Keys == rem.Keys && CutShape(base, rem, q)
    && forall k :: k in p ==> 0 <= q[k] <= p[k] && (|p| <= total ==> q[k] >= 1)
  }

  lemma CutStep(p: Populations, total: nat, base: Quotas, rem: Quotas, q: Quotas, key: Stratum)
    requires CutState(p, total, base, rem, q) && key in q && q[key] > 1
    requires forall x :: x in q && q[x] > 1 ==> CutLe(rem, key, x)
    ensures CutState(p, total, base, rem, q[key := q[key] - 1])
  {
    StratumTotalOrder();
  }

  lemma TopUpStep(p: Populations, base: Quotas, rem: Quotas, repr: Stratum -> string, q: Quotas, key: Stratum)
    requires q.Keys == p.Keys == base.Keys == rem.Keys && TopUpShape(p, base, rem, repr, q)
    requires Injective(repr) && key in q && q[key] < p[key]
    requires forall x :: x in q && q[x] < p[x] ==> TopUpLe(rem, repr, key, x)
    ensures TopUpShape(p, base, rem, repr, q[key := q[key] + 1])
  {
    forall j | j in p && j != key && TopUpLe(rem, repr, j, key) ensures q[j] == p[j] {
      NegatedTotalOrder(repr(j), repr(key));
    }
  }

  /** First while loop: take single documents away until the budget is met. */
  method Cut(p: Populations, total: nat, keys: seq<Stratum>, base: Quotas, rem: Quotas)
    returns (quotas: Quotas)
    requires p.Keys == base.Keys == rem.Keys && KeysOf(p, keys)
    requires forall k :: k in p ==> 0 <= base[k] <= p[k] && (|p| <= total ==> base[k] >= 1)
    requires |p| > total ==> Total(base, keys) <= total
    ensures CutState(p, total, base, rem, quotas)
    ensures if Total(base, keys) > total then Total(quotas, keys) == total else quotas == base
  {
    quotas := base;
    while Total(quotas, keys) > total
      invariant CutState(p, total, base, rem, quotas)
      invariant if Total(base, keys) > total then Total(quotas, keys) >= total else quotas == base
    {
      SomethingToCut(quotas, keys);
      var candidates := Above(quotas, keys, 1);
      if candidates == [] {
        assert false; // the source raises "cannot represent all strata" here
      }
      var key := CutFirst(rem, candidates);
      CutStep(p, total, base, rem, quotas, key);
      TotalUpdate(quotas, keys, key, quotas[key] - 1);
      quotas := quotas[key := quotas[key] - 1];
    }
  }

  /** Second while loop: hand out single documents until the budget is met. */
  method TopUp(p: Populations, total: nat, keys: seq<Stratum>, base: Quotas, rem: Quotas, repr: Stratum -> string)
    returns (quotas: Quotas)
    requires p.Keys == base.Keys == rem.Keys && KeysOf(p, keys) && Injective(repr)
    requires forall k :: k in p ==> 0 <= base[k] <= p[k]
    requires Total(base, keys) <= total < Total(p, keys)
    ensures quotas.Keys == p.Keys && TopUpShape(p, base, rem, repr, quotas)
    ensures Total(quotas, keys) == total
  {
    quotas := base;
    while Total(quotas, keys) < total
      invariant quotas.Keys == p.Keys && TopUpShape(p, base, rem, repr, quotas)
      invariant Total(quotas, keys) <= total
    {
      SomethingToTopUp(quotas, keys, p);
      var candidates := Below(quotas, keys, p);
      if candidates == [] {
        assert false; // Python's max() of no candidates would raise here
      }
      var key := TopUpFirst(rem, repr, candidates);
      TopUpStep(p, base, rem, repr, quotas, key);
      TotalUpdate(quotas, keys, key, quotas[key] + 1);
      quotas := quotas[key := quotas[key] + 1];
    }
  }

  lemma BaseBounds(p: Populations, total: nat, size: nat, keys: seq<Stratum>)
    requires KeysOf(p, keys) && total < size == Total(p, keys)
    requires forall k :: k in p ==> p[k] > 0
    ensures forall k :: k in p ==> 0 <= Base(p, total, size)[k] <= p[k]
    ensures |p| <= total ==> forall k :: k in p ==> Base(p, total, size)[k] >= 1
    ensures |p| > total ==> Total(Base(p, total, size), keys) <= total
  {
    forall k | k in p ensures Floor(p[k], total, size) <= p[k] {
      FloorBounds(p[k], total, size);
    }
    if |p| > total {
      FloorsWithinBudget(p, total, size, keys);
    }
  }

  method Repair(p: Populations, total: nat, keys: seq<Stratum>, base: Quotas, rem: Quotas, repr: Stratum -> string)
    returns (quotas: Quotas)
    requires p.Keys == base.Keys == rem.Keys && KeysOf(p, keys) && Injective(repr)
    requires forall k :: k in p ==> 0 <= base[k] <= p[k] && (|p| <= total ==> base[k] >= 1)
    requires |p| > total ==> Total(base, keys) <= total
    requires total < Total(p, keys)
    ensures Repaired(p, total, keys, base, rem, repr, quotas)
  {
    quotas := Cut(p, total, keys, base, rem);
    if Total(quotas, keys) < total {
      quotas := TopUp(p, total, keys, quotas, rem, repr);
    }
  }

  method BaseQuotas(populations: Populations, total: nat, keys: seq<Stratum>, size: nat)
    returns (base: Quotas)
    requires KeysOf(populations, keys) && total < size == Total(populations, keys)
    requires forall k :: k in populations ==> populations[k] > 0
    ensures base == Base(populations, total, size)
  {
    base := map k | k in populations :: Floor(populations[k], total, size);
    if |keys| <= total {
      base := map k | k in populations :: if base[k] < 1 then 1 else base[k];
    }
  }

  method LargestRemainder(populations: Populations, total: nat, repr: Stratum -> string)
    returns (quotas: Quotas)
    requires forall k :: k in populations ==> populations[k] > 0
    requires Injective(repr)
    ensures IsApportionment(populations, total, repr, quotas)
  {
    var keys := Keys(populations.Keys);
    var size := Total(populations, keys);
    if total >= size {
      return populations;
    }
    BaseBounds(populations, total, size, keys);
    var base := BaseQuotas(populations, total, keys, size);
    quotas := Repair(populations, total, keys, base, Remainders(populations, total, size), repr);
  }
}
