/** Grouping rows by a key, and the conservation law every such grouping obeys. */
module Grouping {
  import opened Ordering

  /** The slices a loop over s passes through. */
  lemma PrefixStep<T>(s: seq<T>, i: nat)
    requires i < |s|
    ensures s[..i+1] == s[..i] + [s[i]] && s[..i+1][..i] == s[..i]
  {}

  lemma TakeAll<T>(s: seq<T>)
    ensures s[..|s|] == s
  {}

  /** The rows filed under key k, in arrival order. */
  function Select<T, K(==)>(rows: seq<T>, keyOf: T -> K, k: K): seq<T> {
    if rows == [] then []
    else
      var n := |rows| - 1;
      Select(rows[..n], keyOf, k) + if keyOf(rows[n]) == k then [rows[n]] else []
  }

  function Weigh<T>(rows: seq<T>, weight: T -> int): int {
    if rows == [] then 0 else Weigh(rows[..|rows|-1], weight) + weight(rows[|rows|-1])
  }

  /** The total of a weight, taken group by group. */
  function GroupedWeight<T, K(==)>(keys: seq<K>, rows: seq<T>, keyOf: T -> K, weight: T -> int): int {
    if keys == [] then 0
    else Weigh(Select(rows, keyOf, keys[0]), weight) + GroupedWeight(keys[1..], rows, keyOf, weight)
  }

  ghost predicate Covers<T, K>(keys: seq<K>, rows: seq<T>, keyOf: T -> K) {
    Distinct(keys) && forall i :: 0 <= i < |rows| ==> keyOf(rows[i]) in keys
  }

  lemma WeighAppend<T>(rows: seq<T>, r: T, weight: T -> int)
    ensures Weigh(rows + [r], weight) == Weigh(rows, weight) + weight(r)
  {
    assert (rows + [r])[..|rows|] == rows;
  }

  lemma SelectAppend<T, K>(rows: seq<T>, r: T, keyOf: T -> K, k: K)
    ensures Select(rows + [r], keyOf, k) == Select(rows, keyOf, k) + if keyOf(r) == k then [r] else []
  {
    assert (rows + [r])[..|rows|] == rows;
  }

  lemma {:induction false} GroupedAppend<T, K>(keys: seq<K>, rows: seq<T>, r: T, keyOf: T -> K, weight: T -> int)
    requires Distinct(keys)
    ensures GroupedWeight(keys, rows + [r], keyOf, weight)
         == GroupedWeight(keys, rows, keyOf, weight) + if keyOf(r) in keys then weight(r) else 0
  {
    if keys != [] {
      GroupedAppend(keys[1..], rows, r, keyOf, weight);
      SelectAppend(rows, r, keyOf, keys[0]);
      if keyOf(r) == keys[0] {
        WeighAppend(Select(rows, keyOf, keys[0]), r, weight);
        assert keyOf(r) !in keys[1..];
      } else {
        assert Select(rows + [r], keyOf, keys[0]) == Select(rows, keyOf, keys[0]);
        assert keyOf(r) in keys <==> keyOf(r) in keys[1..];
      }
    }
  }

  lemma {:induction false} GroupedEmpty<T, K>(keys: seq<K>, keyOf: T -> K, weight: T -> int)
    ensures GroupedWeight(keys, [], keyOf, weight) == 0
  {
    if keys != [] { GroupedEmpty(keys[1..], keyOf, weight); }
  }

  /** Nothing is lost or counted twice: any weight summed over the groups is its total. */
  lemma {:induction false} Conservation<T, K>(keys: seq<K>, rows: seq<T>, keyOf: T -> K, weight: T -> int)
    requires Covers(keys, rows, keyOf)
    ensures GroupedWeight(keys, rows, keyOf, weight) == Weigh(rows, weight)
  {
    if rows == [] {
      GroupedEmpty(keys, keyOf, weight);
    } else {
      var n := |rows| - 1;
      var front, last := rows[..n], rows[n];
      assert rows == front + [last] && keyOf(last) in keys;
      Conservation(keys, front, keyOf, weight);
      GroupedAppend(keys, front, last, keyOf, weight);
      assert Weigh(rows, weight) == Weigh(front, weight) + weight(last);
    }
  }

  lemma {:induction false} SelectMembers<T, K>(rows: seq<T>, keyOf: T -> K, k: K)
    ensures forall r :: r in Select(rows, keyOf, k) <==> r in rows && keyOf(r) == k
  {
    if rows != [] {
      var n := |rows| - 1;
      SelectMembers(rows[..n], keyOf, k);
      assert rows == rows[..n] + [rows[n]];
    }
  }

  lemma {:induction false} CountIsLength<T>(rows: seq<T>)
    ensures Weigh(rows, (r: T) => 1) == |rows|
  {
    if rows != [] { CountIsLength(rows[..|rows|-1]); }
  }

  // ------------------------------------------------------------- key sets

  function KeySet<T, K(==)>(rows: seq<T>, keyOf: T -> K): set<K> {
    if rows == [] then {} else KeySet(rows[..|rows|-1], keyOf) + {keyOf(rows[|rows|-1])}
  }

  lemma {:induction false} KeySetMembers<T, K>(rows: seq<T>, keyOf: T -> K)
    ensures forall i :: 0 <= i < |rows| ==> keyOf(rows[i]) in KeySet(rows, keyOf)
    ensures forall k :: k in KeySet(rows, keyOf) ==> Select(rows, keyOf, k) != []
    ensures forall k :: k !in KeySet(rows, keyOf) ==> Select(rows, keyOf, k) == []
  {
    if rows != [] { KeySetMembers(rows[..|rows|-1], keyOf); }
  }

  lemma KeySetAppend<T, K>(rows: seq<T>, r: T, keyOf: T -> K)
    ensures KeySet(rows + [r], keyOf) == KeySet(rows, keyOf) + {keyOf(r)}
  {
    assert (rows + [r])[..|rows|] == rows;
  }

  // ---------------------------------------------- a dictionary of running groups

  function Fold<T, G>(empty: G, add: (G, T) -> G, rows: seq<T>): G {
    if rows == [] then empty else add(Fold(empty, add, rows[..|rows|-1]), rows[|rows|-1])
  }

  lemma FoldAppend<T, G>(empty: G, add: (G, T) -> G, rows: seq<T>, r: T)
    ensures Fold(empty, add, rows + [r]) == add(Fold(empty, add, rows), r)
  {
    assert (rows + [r])[..|rows|] == rows;
  }

  /** Each entry holds what its own rows, in arrival order, fold to. */
  ghost predicate IsTable<T, K, G>(groups: map<K, G>, rows: seq<T>, keyOf: T -> K, empty: G, add: (G, T) -> G) {
    && groups.Keys == KeySet(rows, keyOf)
    && forall k :: k in groups ==> groups[k] == Fold(empty, add, Select(rows, keyOf, k))
  }

  /** groups.setdefault(key, empty) followed by an in-place update of the entry. */
  function Filed<T, K(==), G>(groups: map<K, G>, r: T, keyOf: T -> K, empty: G, add: (G, T) -> G): map<K, G> {
    var g := if keyOf(r) in groups then groups[keyOf(r)] else empty;
    groups[keyOf(r) := add(g, r)]
  }

  lemma FiledKeepsTable<T, K, G>(groups: map<K, G>, rows: seq<T>, r: T, keyOf: T -> K, empty: G, add: (G, T) -> G)
    requires IsTable(groups, rows, keyOf, empty, add)
    ensures IsTable(Filed(groups, r, keyOf, empty, add), rows + [r], keyOf, empty, add)
  {
    KeySetMembers(rows, keyOf);
    KeySetAppend(rows, r, keyOf);
    var groups' := Filed(groups, r, keyOf, empty, add);
    forall k | k in groups' ensures groups'[k] == Fold(empty, add, Select(rows + [r], keyOf, k)) {
      SelectAppend(rows, r, keyOf, k);
      if k == keyOf(r) {
        FoldAppend(empty, add, Select(rows, keyOf, k), r);
      } else {
        assert Select(rows + [r], keyOf, k) == Select(rows, keyOf, k);
      }
    }
  }

  /** Filing row after row gives the table of all rows. */
  lemma {:induction false} FiledAll<T, K, G>(file: (map<K, G>, T) -> map<K, G>, rows: seq<T>, keyOf: T -> K, empty: G, add: (G, T) -> G)
    requires forall i, m :: 0 <= i < |rows| ==> file(m, rows[i]) == Filed(m, rows[i], keyOf, empty, add)
    ensures IsTable(Fold(map[], file, rows), rows, keyOf, empty, add)
  {
    if rows != [] {
      var n := |rows| - 1;
      var front := rows[..n];
      FiledAll(file, front, keyOf, empty, add);
      FiledKeepsTable(Fold(map[], file, front), front, rows[n], keyOf, empty, add);
      assert rows == front + [rows[n]];
    }
  }

  lemma {:induction false} SelectedFrom<T, K>(rows: seq<T>, keyOf: T -> K, k: K, i: nat) returns (j: nat)
    requires i < |Select(rows, keyOf, k)|
    ensures j < |rows| && rows[j] == Select(rows, keyOf, k)[i] && keyOf(rows[j]) == k
  {
    var n := |rows| - 1;
    if i < |Select(rows[..n], keyOf, k)| {
      j := SelectedFrom(rows[..n], keyOf, k, i);
    } else {
      j := n;
    }
  }

  /** Filing keeps rows apart that were apart before. */
  lemma {:induction false} SelectUniqueBy<T, K, U>(rows: seq<T>, keyOf: T -> K, k: K, f: T -> U)
    requires UniqueBy(f, rows)
    ensures UniqueBy(f, Select(rows, keyOf, k))
  {
    if rows != [] {
      var n := |rows| - 1;
      SelectUniqueBy(rows[..n], keyOf, k, f);
      var front := Select(rows[..n], keyOf, k);
      forall i | 0 <= i < |front| ensures f(front[i]) != f(rows[n]) {
        var j := SelectedFrom(rows[..n], keyOf, k, i);
        assert rows[j] == front[i];
      }
    }
  }

  /** All rows, group after group. */
  function Regrouped<T, K(==)>(keys: seq<K>, rows: seq<T>, keyOf: T -> K): seq<T> {
    if keys == [] then [] else Select(rows, keyOf, keys[0]) + Regrouped(keys[1..], rows, keyOf)
  }

  lemma {:induction false} WeighOccurrences<T>(rows: seq<T>, x: T)
    ensures Weigh(rows, (r: T) => if r == x then 1 else 0) == multiset(rows)[x]
  {
    if rows != [] {
      var n := |rows| - 1;
      WeighOccurrences(rows[..n], x);
      assert rows == rows[..n] + [rows[n]];
    }
  }

  lemma {:induction false} RegroupedOccurrences<T, K>(keys: seq<K>, rows: seq<T>, keyOf: T -> K, x: T)
    ensures GroupedWeight(keys, rows, keyOf, (r: T) => if r == x then 1 else 0) == multiset(Regrouped(keys, rows, keyOf))[x]
  {
    if keys != [] {
      RegroupedOccurrences(keys[1..], rows, keyOf, x);
      WeighOccurrences(Select(rows, keyOf, keys[0]), x);
    }
  }

  /** Grouping reorders the rows and does nothing else. */
  lemma RegroupedPermutes<T(!new), K>(keys: seq<K>, rows: seq<T>, keyOf: T -> K)
    requires Covers(keys, rows, keyOf)
    ensures multiset(Regrouped(keys, rows, keyOf)) == multiset(rows)
  {
    forall x: T ensures multiset(Regrouped(keys, rows, keyOf))[x] == multiset(rows)[x] {
      Conservation(keys, rows, keyOf, (r: T) => if r == x then 1 else 0);
      RegroupedOccurrences(keys, rows, keyOf, x);
      WeighOccurrences(rows, x);
    }
  }

  // ------------------------------------------------------------------ real sums

  function SumOf<T>(s: seq<T>, f: T -> real): real {
    if s == [] then 0.0 else SumOf(s[..|s|-1], f) + f(s[|s|-1])
  }

  lemma {:induction false} SumConcat<T>(a: seq<T>, b: seq<T>, f: T -> real)
    ensures SumOf(a + b, f) == SumOf(a, f) + SumOf(b, f)
  {
    if b == [] {
      assert a + b == a;
    } else {
      var n := |b| - 1;
      SumConcat(a, b[..n], f);
      assert (a + b)[..|a + b| - 1] == a + b[..n];
    }
  }

  lemma {:induction false} SumPermutation<T>(a: seq<T>, b: seq<T>, f: T -> real)
    requires multiset(a) == multiset(b)
    ensures SumOf(a, f) == SumOf(b, f)
  {
    assert |multiset(a)| == |a| && |multiset(b)| == |b|;
    if a != [] {
      var n := |a| - 1;
      assert a == a[..n] + [a[n]];
      assert a[n] in multiset(b);
      var k :| 0 <= k < |b| && b[k] == a[n];
      Without(b, k);
      assert multiset(a[..n]) == multiset(a) - multiset{a[n]};
      SumPermutation(a[..n], b[..k] + b[k+1..], f);
      SumConcat(b[..k], [b[k]] + b[k+1..], f);
      SumConcat([b[k]], b[k+1..], f);
      SumConcat(b[..k], b[k+1..], f);
      assert SumOf([b[k]], f) == f(b[k]);
    }
  }

  // ------------------------------------------------------------------- counters

  /** A counter over all keys that the rows contribute. */
  function TallyOf<T, K>(rows: seq<T>, keysOf: T -> multiset<K>): multiset<K> {
    if rows == [] then multiset{} else TallyOf(rows[..|rows|-1], keysOf) + keysOf(rows[|rows|-1])
  }

  lemma TallyAppend<T, K>(rows: seq<T>, r: T, keysOf: T -> multiset<K>)
    ensures TallyOf(rows + [r], keysOf) == TallyOf(rows, keysOf) + keysOf(r)
  {
    assert (rows + [r])[..|rows|] == rows;
  }

  lemma {:induction false} TallyConcat<T, K>(a: seq<T>, b: seq<T>, keysOf: T -> multiset<K>)
    ensures TallyOf(a + b, keysOf) == TallyOf(a, keysOf) + TallyOf(b, keysOf)
  {
    if b == [] {
      assert a + b == a;
    } else {
      var n := |b| - 1;
      TallyConcat(a, b[..n], keysOf);
      assert (a + b)[..|a + b| - 1] == a + b[..n];
    }
  }

  lemma Without<T>(b: seq<T>, k: nat)
    requires k < |b|
    ensures b == b[..k] + ([b[k]] + b[k+1..])
    ensures multiset(b[..k] + b[k+1..]) == multiset(b) - multiset{b[k]}
  {
    assert b == b[..k] + ([b[k]] + b[k+1..]);
    assert multiset(b) == multiset(b[..k]) + (multiset{b[k]} + multiset(b[k+1..]));
  }

  /** Counting forgets the order in which rows stream by. */
  lemma {:induction false} TallyPermutation<T, K>(a: seq<T>, b: seq<T>, keysOf: T -> multiset<K>)
    requires multiset(a) == multiset(b)
    ensures TallyOf(a, keysOf) == TallyOf(b, keysOf)
  {
    assert |multiset(a)| == |a| && |multiset(b)| == |b|;
    if a != [] {
      var n := |a| - 1;
      assert a == a[..n] + [a[n]];
      assert a[n] in multiset(b);
      var k :| 0 <= k < |b| && b[k] == a[n];
      Without(b, k);
      assert multiset(a[..n]) == multiset(a) - multiset{a[n]};
      TallyPermutation(a[..n], b[..k] + b[k+1..], keysOf);
      TallyWithout(b, k, keysOf);
    }
  }

  lemma TallyWithout<T, K>(b: seq<T>, k: nat, keysOf: T -> multiset<K>)
    requires k < |b|
    ensures TallyOf(b, keysOf) == TallyOf(b[..k] + b[k+1..], keysOf) + keysOf(b[k])
  {
    Without(b, k);
    TallyConcat(b[..k], [b[k]] + b[k+1..], keysOf);
    TallyConcat([b[k]], b[k+1..], keysOf);
    TallyConcat(b[..k], b[k+1..], keysOf);
    assert TallyOf([b[k]], keysOf) == keysOf(b[k]);
  }

  lemma {:induction false} TallyMember<T, K>(rows: seq<T>, keysOf: T -> multiset<K>, k: K) returns (i: nat)
    requires k in TallyOf(rows, keysOf)
    ensures i < |rows| && k in keysOf(rows[i])
  {
    var n := |rows| - 1;
    if k in TallyOf(rows[..n], keysOf) {
      i := TallyMember(rows[..n], keysOf, k);
    } else {
      i := n;
    }
  }

  lemma {:induction false} TallyIncludes<T, K>(rows: seq<T>, keysOf: T -> multiset<K>, i: nat, k: K)
    requires i < |rows| && k in keysOf(rows[i])
    ensures k in TallyOf(rows, keysOf)
  {
    var n := |rows| - 1;
    if i < n { TallyIncludes(rows[..n], keysOf, i, k); }
  }
}
