/** What the selection is: the hash-minimal members of each stratum, each exactly once. */
module PilotSelection {
  import opened Ordering
  import opened Grouping
  import opened Apportionment
  import opened PilotFrame
  import opened PilotBuilder

  // ---------------------------------------------------------------------- tables

  lemma SameTable<T, K, G>(a: map<K, G>, b: map<K, G>, rows: seq<T>, keyOf: T -> K, empty: G, add: (G, T) -> G)
    requires IsTable(a, rows, keyOf, empty, add) && IsTable(b, rows, keyOf, empty, add)
    ensures a == b
  {
    forall k | k in a ensures a[k] == b[k] {}
  }

  /** Build and replay work from the same dictionaries. */
  lemma TablesUnique(a: Tables, b: Tables, records: seq<Record>, policy: Policy, repr: Stratum -> string)
    requires Injective(repr) && AreTables(a, records, policy, repr) && AreTables(b, records, policy, repr)
    ensures a == b
  {
    SameTable(a.populations, b.populations, records, RelationOf, map[], Tally);
    SameTable(a.byStratum, b.byStratum, records, KeyOf, [], (g: seq<Record>, r: Record) => g + [r]);
    QuotasUnique(records, policy, repr, a.quotas, b.quotas);
  }

  lemma {:induction false} FoldAppends(rows: seq<Record>)
    ensures Fold([], (g: seq<Record>, r: Record) => g + [r], rows) == rows
  {
    if rows != [] {
      FoldAppends(rows[..|rows|-1]);
    }
  }

  lemma RowsAre(t: Tables, records: seq<Record>, relation: string, s: Stratum)
    requires AreStrata(t.byStratum, records)
    ensures t.Rows(relation, s) == Select(records, KeyOf, (relation, s))
  {
    KeySetMembers(records, KeyOf);
    FoldAppends(Select(records, KeyOf, (relation, s)));
  }

  ghost predicate QuotasFit(t: Tables)
    requires t.Keyed()
  {
    forall relation, s :: relation in t.quotas && s in t.quotas[relation] ==>
      0 <= t.quotas[relation][s] <= t.populations[relation][s] == |t.Rows(relation, s)|
  }

  predicate HasPlace(t: Tables, r: Record) { r.relation in t.quotas && r.stratum in t.quotas[r.relation] }

  ghost predicate RecordsFiled(t: Tables, records: seq<Record>) {
    forall r <- records :: HasPlace(t, r) && r in t.Rows(r.relation, r.stratum)
  }

  ghost predicate RowsFrom(t: Tables, records: seq<Record>) {
    forall relation, s, r :: r in t.Rows(relation, s) ==> r in records && r.relation == relation && r.stratum == s
  }

  /** What the theorems below use about the tables of a frame. */
  ghost predicate Frame(t: Tables, records: seq<Record>) {
    t.Keyed() && QuotasFit(t) && RecordsFiled(t, records) && RowsFrom(t, records)
  }

  lemma TablesFrame(t: Tables, records: seq<Record>, policy: Policy, repr: Stratum -> string)
    requires AreTables(t, records, policy, repr)
    ensures Frame(t, records)
  {
    TablesKeyed(t, records, policy, repr);
    TablesQuotas(t, records, policy, repr);
    TablesRows(t, records);
    forall r | r in records ensures HasPlace(t, r) && r in t.Rows(r.relation, r.stratum) {
      RecordFiled(t, records, policy, repr, r);
    }
  }

  lemma TablesQuotas(t: Tables, records: seq<Record>, policy: Policy, repr: Stratum -> string)
    requires AreTables(t, records, policy, repr) && t.Keyed()
    ensures QuotasFit(t)
  {
    forall relation, s | relation in t.quotas && s in t.quotas[relation]
      ensures 0 <= t.quotas[relation][s] <= t.populations[relation][s] == |t.Rows(relation, s)|
    {
      QuotaEntry(t, records, policy, repr, relation, s);
    }
  }

  lemma TablesRows(t: Tables, records: seq<Record>)
    requires AreStrata(t.byStratum, records)
    ensures RowsFrom(t, records)
  {
    forall relation, s, r | r in t.Rows(relation, s) ensures r in records && r.relation == relation && r.stratum == s {
      RowsAre(t, records, relation, s);
      SelectMembers(records, KeyOf, (relation, s));
    }
  }

  lemma QuotaEntry(t: Tables, records: seq<Record>, policy: Policy, repr: Stratum -> string, relation: string, s: Stratum)
    requires AreTables(t, records, policy, repr) && t.Keyed() && relation in t.quotas && s in t.quotas[relation]
    ensures 0 <= t.quotas[relation][s] <= t.populations[relation][s] == |t.Rows(relation, s)|
  {
    PopulationEntry(t.populations, records, relation);
    PopulationCounts(records, relation);
    QuotaBounds(PopulationOf(records, relation), policy, repr, t.quotas[relation]);
    RowsAre(t, records, relation, s);
  }

  lemma RecordFiled(t: Tables, records: seq<Record>, policy: Policy, repr: Stratum -> string, r: Record)
    requires AreTables(t, records, policy, repr) && t.Keyed() && r in records
    ensures HasPlace(t, r) && r in t.Rows(r.relation, r.stratum)
  {
    var i :| 0 <= i < |records| && records[i] == r;
    KeySetMembers(records, RelationOf);
    assert RelationOf(records[i]) in KeySet(records, RelationOf);
    PopulationEntry(t.populations, records, r.relation);
    PopulationCounts(records, r.relation);
    var rows := Select(records, RelationOf, r.relation);
    SelectMembers(records, RelationOf, r.relation);
    var k :| 0 <= k < |rows| && rows[k] == r;
    KeySetMembers(rows, StratumOf);
    assert StratumOf(rows[k]) in KeySet(rows, StratumOf);
    RowsAre(t, records, r.relation, r.stratum);
    SelectMembers(records, KeyOf, (r.relation, r.stratum));
  }

  // -------------------------------------------------------------------- hash-min

  predicate Drawn(t: Tables, r: Record)
    requires HasPlace(t, r)
  {
    r in Draw(t.Rows(r.relation, r.stratum), t.quotas[r.relation][r.stratum])
  }

  lemma RankPreorder()
    ensures TotalPreorder(RankLe)
  {
    StringTotalOrder();
  }

  lemma TakenRankAhead(sorted: seq<Record>, n: nat, a: Record, b: Record)
    requires SortedBy(RankLe, sorted) && n <= |sorted| && a in sorted[..n] && b in sorted && b !in sorted[..n]
    ensures RankLe(a, b)
  {
    var i :| 0 <= i < n && sorted[i] == a;
    var k :| 0 <= k < |sorted| && sorted[k] == b;
    forall j | 0 <= j < n ensures sorted[j] in sorted[..n] {
      assert sorted[..n][j] == sorted[j];
    }
  }

  /** The draw takes exactly the quota, and nothing drawn ranks above anything left out. */
  lemma DrawIsHashMin(t: Tables, records: seq<Record>, relation: string, s: Stratum)
    requires Frame(t, records) && relation in t.quotas && s in t.quotas[relation]
    ensures |Draw(t.Rows(relation, s), t.quotas[relation][s])| == t.quotas[relation][s]
    ensures forall a, b :: a in t.Rows(relation, s) && b in t.Rows(relation, s) && Drawn(t, a) && !Drawn(t, b) ==> RankLe(a, b)
  {
    RankPreorder();
    var rows, n := t.Rows(relation, s), t.quotas[relation][s];
    var sorted := Sort(RankLe, rows);
    SortSorted(RankLe, rows);
    SortMembers(RankLe, rows);
    forall a, b | a in rows && b in rows && Drawn(t, a) && !Drawn(t, b) ensures RankLe(a, b) {
      TakenRankAhead(sorted, n, a, b);
    }
  }

  // -------------------------------------------------------- members of the selection

  function ChoiceOf(t: Tables, policy: Policy, r: Record): Chosen
    requires t.Keyed() && HasPlace(t, r)
  {
    Choose(r, Census(policy, t.populations[r.relation]), t.populations[r.relation][r.stratum], t.quotas[r.relation][r.stratum])
  }

  lemma {:induction false} ChooseAllAt(rows: seq<Record>, census: bool, population: int, quota: int)
    ensures |ChooseAll(rows, census, population, quota)| == |rows|
    ensures forall i :: 0 <= i < |rows| ==> ChooseAll(rows, census, population, quota)[i] == Choose(rows[i], census, population, quota)
  {
    if rows != [] { ChooseAllAt(rows[..|rows|-1], census, population, quota); }
  }

  lemma DrawnRow(t: Tables, policy: Policy, relation: string, s: Stratum, c: Chosen) returns (r: Record)
    requires t.Keyed() && relation in t.quotas && s in t.quotas[relation] && c in StratumChosen(t, policy, relation, s)
    ensures r in Draw(t.Rows(relation, s), t.quotas[relation][s])
    ensures c == Choose(r, Census(policy, t.populations[relation]), t.populations[relation][s], t.quotas[relation][s])
  {
    var rows, n := t.Rows(relation, s), t.quotas[relation][s];
    ChooseAllAt(Draw(rows, n), Census(policy, t.populations[relation]), t.populations[relation][s], n);
    var i :| 0 <= i < |Draw(rows, n)| && c == StratumChosen(t, policy, relation, s)[i];
    r := Draw(rows, n)[i];
  }

  lemma StratumMember(t: Tables, policy: Policy, records: seq<Record>, relation: string, s: Stratum, c: Chosen) returns (r: Record)
    requires Frame(t, records) && relation in t.quotas && s in t.quotas[relation] && c in StratumChosen(t, policy, relation, s)
    ensures r in records && Drawn(t, r) && c == ChoiceOf(t, policy, r)
  {
    var rows := t.Rows(relation, s);
    r := DrawnRow(t, policy, relation, s, c);
    SortMembers(RankLe, rows);
    assert r in Sort(RankLe, rows);
  }

  lemma {:induction false} RelationMember(t: Tables, policy: Policy, records: seq<Record>, relation: string, strata: seq<Stratum>, c: Chosen)
    returns (r: Record)
    requires Frame(t, records) && relation in t.quotas && forall s <- strata :: s in t.quotas[relation]
    requires c in RelationChosen(t, policy, relation, strata)
    ensures r in records && Drawn(t, r) && c == ChoiceOf(t, policy, r)
  {
    var n := |strata| - 1;
    if c in RelationChosen(t, policy, relation, strata[..n]) {
      r := RelationMember(t, policy, records, relation, strata[..n], c);
    } else {
      r := StratumMember(t, policy, records, relation, strata[n], c);
    }
  }

  lemma {:induction false} SelectionMember(t: Tables, policy: Policy, records: seq<Record>, relations: seq<string>, c: Chosen)
    returns (r: Record)
    requires Frame(t, records) && forall x <- relations :: x in t.quotas
    requires c in Selection(t, policy, relations)
    ensures r in records && Drawn(t, r) && c == ChoiceOf(t, policy, r)
  {
    var n := |relations| - 1;
    if c in Selection(t, policy, relations[..n]) {
      r := SelectionMember(t, policy, records, relations[..n], c);
    } else {
      r := RelationMember(t, policy, records, relations[n], Keys(t.quotas[relations[n]].Keys), c);
    }
  }

  lemma DrawnChosen(t: Tables, policy: Policy, r: Record)
    requires t.Keyed() && HasPlace(t, r) && Drawn(t, r)
    ensures ChoiceOf(t, policy, r) in StratumChosen(t, policy, r.relation, r.stratum)
  {
    var drawn := Draw(t.Rows(r.relation, r.stratum), t.quotas[r.relation][r.stratum]);
    ChooseAllAt(drawn, Census(policy, t.populations[r.relation]), t.populations[r.relation][r.stratum], t.quotas[r.relation][r.stratum]);
    var i :| 0 <= i < |drawn| && drawn[i] == r;
    assert StratumChosen(t, policy, r.relation, r.stratum)[i] == ChoiceOf(t, policy, r);
  }

  lemma {:induction false} StratumIncluded(t: Tables, policy: Policy, relation: string, strata: seq<Stratum>, s: Stratum)
    requires t.Keyed() && relation in t.quotas && s in strata && forall x <- strata :: x in t.quotas[relation]
    ensures forall c :: c in StratumChosen(t, policy, relation, s) ==> c in RelationChosen(t, policy, relation, strata)
  {
    var n := |strata| - 1;
    if strata[n] != s {
      assert strata == strata[..n] + [strata[n]];
      StratumIncluded(t, policy, relation, strata[..n], s);
    }
  }

  lemma {:induction false} RelationIncluded(t: Tables, policy: Policy, relations: seq<string>, relation: string)
    requires t.Keyed() && relation in relations && forall x <- relations :: x in t.quotas
    ensures forall c :: c in AllOf(t, policy, relation) ==> c in Selection(t, policy, relations)
  {
    var n := |relations| - 1;
    if relations[n] != relation {
      assert relations == relations[..n] + [relations[n]];
      RelationIncluded(t, policy, relations[..n], relation);
    }
  }

  lemma DrawnSelected(t: Tables, policy: Policy, records: seq<Record>, r: Record)
    requires Frame(t, records) && r in records && Drawn(t, r)
    ensures ChoiceOf(t, policy, r) in Selection(t, policy, SortedNames(t.quotas.Keys))
  {
    DrawnChosen(t, policy, r);
    StratumIncluded(t, policy, r.relation, Keys(t.quotas[r.relation].Keys), r.stratum);
    RelationIncluded(t, policy, SortedNames(t.quotas.Keys), r.relation);
  }

  // ------------------------------------------------------------ the selected table

  lemma {:induction false} PutMember(cs: seq<Chosen>, id: string)
    ensures id in Fold(map[], Put, cs) <==> exists c :: c in cs && c.document.id == id
    ensures id in Fold(map[], Put, cs) ==> Fold(map[], Put, cs)[id] in cs && Fold(map[], Put, cs)[id].document.id == id
  {
    if cs != [] {
      var n := |cs| - 1;
      PutMember(cs[..n], id);
      assert cs == cs[..n] + [cs[n]];
    }
  }

  /** Records are told apart by their document identity. */
  ghost predicate UniqueRecords(records: seq<Record>) {
    forall a, b :: a in records && b in records && a.document.id == b.document.id ==> a == b
  }

  /** A document is selected exactly when its record is drawn, with the row its stratum prescribes. */
  lemma ExactlyTheDrawn(t: Tables, policy: Policy, records: seq<Record>, r: Record)
    requires Frame(t, records) && UniqueRecords(records) && r in records
    ensures r.document.id in SelectedOf(t, policy) <==> Drawn(t, r)
    ensures Drawn(t, r) ==> SelectedOf(t, policy)[r.document.id] == ChoiceOf(t, policy, r)
  {
    var cs := Selection(t, policy, SortedNames(t.quotas.Keys));
    PutMember(cs, r.document.id);
    if Drawn(t, r) {
      DrawnSelected(t, policy, records, r);
      assert ChoiceOf(t, policy, r).document.id == r.document.id;
    }
    if r.document.id in SelectedOf(t, policy) {
      var x := SelectionMember(t, policy, records, SortedNames(t.quotas.Keys), SelectedOf(t, policy)[r.document.id]);
      assert x == r;
    }
  }

  lemma SelectedRecord(t: Tables, policy: Policy, records: seq<Record>, id: string) returns (r: Record)
    requires Frame(t, records) && id in SelectedOf(t, policy)
    ensures r in records && r.document.id == id && Drawn(t, r) && SelectedOf(t, policy)[id] == ChoiceOf(t, policy, r)
  {
    PutMember(Selection(t, policy, SortedNames(t.quotas.Keys)), id);
    r := SelectionMember(t, policy, records, SortedNames(t.quotas.Keys), SelectedOf(t, policy)[id]);
  }
}
