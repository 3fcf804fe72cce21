/** What the derivation families share: eligibility accounting, filing rows under keys, and the
    order in which groups are emitted. */
module Families {
  import opened Ordering
  import opened Grouping
  import opened DerivationTypes

  datatype Reading<O> = Eligible(observation: O) | Rejected(reason: string)

  // ------------------------------------------------- eligibility accounting

  function EligibleOf<O>(rows: seq<Admitted>, read: Admitted -> Reading<O>): seq<O> {
    if rows == [] then []
    else
      var n := |rows| - 1;
      EligibleOf(rows[..n], read) + match read(rows[n]) case Eligible(o) => [o] case Rejected(_) => []
  }

  function ReasonsOf<O>(rows: seq<Admitted>, read: Admitted -> Reading<O>): multiset<string> {
    if rows == [] then multiset{}
    else
      var n := |rows| - 1;
      ReasonsOf(rows[..n], read) + match read(rows[n]) case Eligible(_) => multiset{} case Rejected(w) => multiset{w}
  }

  /** Eligible records plus all reason counts are the applicable records. */
  lemma {:induction false} EligibilityPartition<O>(rows: seq<Admitted>, read: Admitted -> Reading<O>)
    ensures |EligibleOf(rows, read)| + |ReasonsOf(rows, read)| == |rows|
  {
    if rows != [] { EligibilityPartition(rows[..|rows|-1], read); }
  }

  lemma ReadStep<O>(rows: seq<Admitted>, i: nat, read: Admitted -> Reading<O>)
    requires i < |rows|
    ensures EligibleOf(rows[..i+1], read)
         == EligibleOf(rows[..i], read) + match read(rows[i]) case Eligible(o) => [o] case Rejected(_) => []
    ensures ReasonsOf(rows[..i+1], read)
         == ReasonsOf(rows[..i], read) + match read(rows[i]) case Eligible(_) => multiset{} case Rejected(w) => multiset{w}
  {
    assert rows[..i+1][..i] == rows[..i];
  }

  lemma {:induction false} EligibleMembers<O>(rows: seq<Admitted>, read: Admitted -> Reading<O>, row: Admitted)
    returns (j: nat)
    requires row in rows && read(row).Eligible?
    ensures j < |EligibleOf(rows, read)| && EligibleOf(rows, read)[j] == read(row).observation
  {
    var n := |rows| - 1;
    assert rows == rows[..n] + [rows[n]];
    if row in rows[..n] {
      j := EligibleMembers(rows[..n], read, row);
    } else {
      j := |EligibleOf(rows[..n], read)|;
    }
  }

  /** The first loop of a family: count, reject with a reason, or file under the group key. */
  method FileRows<O, K(==), G>(rows: seq<Admitted>, read: Admitted -> Reading<O>, keyOf: O -> K, empty: G, add: (G, O) -> G)
    returns (groups: map<K, G>, applicable: nat, eligible: nat, reasons: multiset<string>)
    ensures applicable == |rows| && eligible == |EligibleOf(rows, read)| && reasons == ReasonsOf(rows, read)
    ensures IsTable(groups, EligibleOf(rows, read), keyOf, empty, add)
  {
    groups, applicable, eligible, reasons := map[], 0, 0, multiset{};
    ghost var filed: seq<O> := [];
    for i := 0 to |rows|
      invariant applicable == i && eligible == |filed| && filed == EligibleOf(rows[..i], read)
      invariant reasons == ReasonsOf(rows[..i], read)
      invariant IsTable(groups, filed, keyOf, empty, add)
    {
      ReadStep(rows, i, read);
      applicable := applicable + 1;
      match read(rows[i])
      case Rejected(reason) =>
        reasons := reasons + multiset{reason};
      case Eligible(o) =>
        eligible := eligible + 1;
        FiledKeepsTable(groups, filed, o, keyOf, empty, add);
        groups := Filed(groups, o, keyOf, empty, add);
        filed := filed + [o];
    }
    assert rows[..|rows|] == rows;
  }

  /** A family's part of the coverage report, and its groups in emission order. */
  datatype Family = Family(groups: seq<Group>, applicable: nat, eligible: nat, reasons: multiset<string>)

  // ------------------------------------------------------------ emission order

  lemma EncodedTotalOrder<K(!new)>(encode: K -> string)
    requires Injective(encode)
    ensures TotalOrder((a: K, b: K) => StringLe(encode(a), encode(b)))
  {
    StringTotalOrder();
  }

  /** Groups are emitted in the order of their canonically encoded keys. */
  function EmissionOrder<K(==, !new)>(encode: K -> string, keys: set<K>): (r: seq<K>)
    requires Injective(encode)
    ensures Distinct(r) && |r| == |keys| && forall k :: k in r <==> k in keys
    ensures forall i, j :: 0 <= i < j < |r| ==> StringLe(encode(r[i]), encode(r[j]))
  {
    EncodedTotalOrder(encode);
    SetToSortedAscends((a: K, b: K) => StringLe(encode(a), encode(b)), keys);
    SetToSorted((a: K, b: K) => StringLe(encode(a), encode(b)), keys)
  }

  lemma SameGroups(a: seq<Group>, b: seq<Group>)
    requires |a| == |b| && forall i :: 0 <= i < |a| ==> a[i] == b[i]
    ensures a == b
  {}

  // ------------------------------------------------------------ totals over groups

  function TotalOf(groups: seq<Group>, measure: Group -> int): int {
    if groups == [] then 0 else measure(groups[0]) + TotalOf(groups[1..], measure)
  }

  function One<O>(o: O): int { 1 }

  lemma {:induction false} CountOnes<O>(s: seq<O>)
    ensures Weigh(s, One) == |s|
  {
    if s != [] { CountOnes(s[..|s|-1]); }
  }

  lemma {:induction false} TotalOfAppend(groups: seq<Group>, g: Group, measure: Group -> int)
    ensures TotalOf(groups + [g], measure) == TotalOf(groups, measure) + measure(g)
  {
    if groups == [] {
      assert groups + [g] == [g];
    } else {
      TotalOfAppend(groups[1..], g, measure);
      assert (groups + [g])[1..] == groups[1..] + [g];
    }
  }

  lemma {:induction false} TotalOfSame(groups: seq<Group>, measure: Group -> int, measure': Group -> int)
    requires forall i :: 0 <= i < |groups| ==> measure(groups[i]) == measure'(groups[i])
    ensures TotalOf(groups, measure) == TotalOf(groups, measure')
  {
    if groups != [] { TotalOfSame(groups[1..], measure, measure'); }
  }

  lemma {:induction false} TotalOfConstant(groups: seq<Group>, measure: Group -> int, n: int)
    requires forall i :: 0 <= i < |groups| ==> measure(groups[i]) == n
    ensures TotalOf(groups, measure) == n * |groups|
  {
    if groups != [] {
      TotalOfConstant(groups[1..], measure, n);
      assert n * |groups| == n + n * |groups[1..]|;
    }
  }

  function MemberCount(g: Group): int { |g.members| }

  lemma {:induction false} EligibleFrom<O>(rows: seq<Admitted>, read: Admitted -> Reading<O>, j: nat) returns (i: nat)
    requires j < |EligibleOf(rows, read)|
    ensures i < |rows| && read(rows[i]) == Eligible(EligibleOf(rows, read)[j])
  {
    var n := |rows| - 1;
    var front := EligibleOf(rows[..n], read);
    if j < |front| {
      i := EligibleFrom(rows[..n], read, j);
    } else {
      i := n;
    }
  }

  function GroupKeyOf(g: Group): GroupKey { g.key }

  ghost predicate DistinctKeys(groups: seq<Group>) { UniqueBy(GroupKeyOf, groups) }

  /** What the pack relies on: one kind, pairwise different keys, a known number of members. */
  ghost predicate FamilyShape(groups: seq<Group>, kind: Kind, members: int) {
    && DistinctKeys(groups) && TotalOf(groups, MemberCount) == members
    && forall g <- groups :: g.key.Kind() == kind
  }

  lemma {:induction false} EligibleUniqueBy<O, U>(rows: seq<Admitted>, read: Admitted -> Reading<O>, f: Admitted -> U, g: O -> U)
    requires UniqueBy(f, rows)
    requires forall r <- rows :: read(r).Eligible? ==> g(read(r).observation) == f(r)
    ensures UniqueBy(g, EligibleOf(rows, read))
  {
    if rows != [] {
      var n := |rows| - 1;
      assert rows == rows[..n] + [rows[n]];
      EligibleUniqueBy(rows[..n], read, f, g);
      var front := EligibleOf(rows[..n], read);
      if read(rows[n]).Eligible? {
        forall j | 0 <= j < |front| ensures g(front[j]) != g(read(rows[n]).observation) {
          var i := EligibleFrom(rows[..n], read, j);
          assert rows[..n][i] == rows[i] && rows[i] in rows && rows[n] in rows;
        }
      }
    }
  }
}
