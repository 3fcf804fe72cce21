/** The sampling weights of a relation add up to its population exactly when its strata fit the
    budget. */
module PilotWeights {
  import opened Ordering
  import opened Grouping
  import opened Apportionment
  import opened PilotFrame
  import opened PilotBuilder
  import opened PilotVerifier
  import opened PilotSelection
  import opened PilotClosure
  import opened PilotTheorem

  // ---------------------------------------------------------------- weights of rows

  /** A row's sampling weight; a selected row has a positive quota. */
  function Weight(row: SelectionRow): real {
    if row.weight.1 == 0 then 0.0 else row.weight.0 as real / row.weight.1 as real
  }

  function WeightFor(relation: string, c: Chosen): real {
    if c.row.relation == relation then Weight(c.row) else 0.0
  }

  function WeightOf(relation: string): Chosen -> real { (c: Chosen) => WeightFor(relation, c) }

  function RelationWeight(rows: seq<SelectionRow>, relation: string): real {
    if rows == [] then 0.0
    else RelationWeight(rows[..|rows|-1], relation) + if rows[|rows|-1].relation == relation then Weight(rows[|rows|-1]) else 0.0
  }

  /** The population of the strata that some row represents. */
  function Represented(p: Populations, q: Quotas, strata: seq<Stratum>): int
    requires forall s <- strata :: s in p && s in q
  {
    if strata == [] then 0
    else Represented(p, q, strata[..|strata|-1]) + if q[strata[|strata|-1]] >= 1 then p[strata[|strata|-1]] else 0
  }

  lemma Cancel(n: nat, x: int)
    requires n >= 1
    ensures n as real * Share(x, n) == x as real
  {}

  /** What each row of a stratum weighs. */
  function Share(population: int, quota: int): real
    requires quota >= 1
  {
    population as real / quota as real
  }

  lemma OneWeight(r: Record, census: bool, population: int, quota: int)
    requires quota >= 1
    ensures WeightOf(r.relation)(Choose(r, census, population, quota)) == Share(population, quota)
  {}

  lemma OneMore(n: nat, x: real)
    ensures n as real * x + x == (n + 1) as real * x
  {}

  /** x added up n times. */
  function Repeated(n: nat, x: real): real { if n == 0 then 0.0 else Repeated(n - 1, x) + x }

  lemma {:induction false} RepeatedIs(n: nat, x: real)
    ensures Repeated(n, x) == n as real * x
  {
    if n > 0 {
      RepeatedIs(n - 1, x);
      OneMore(n - 1, x);
    }
  }

  lemma {:induction false} ChosenWeight(rows: seq<Record>, census: bool, population: int, quota: int, relation: string, x: real)
    requires forall r <- rows :: WeightOf(relation)(Choose(r, census, population, quota)) == x
    ensures SumOf(ChooseAll(rows, census, population, quota), WeightOf(relation)) == Repeated(|rows|, x)
  {
    if rows != [] {
      var n := |rows| - 1;
      ChosenWeight(rows[..n], census, population, quota, relation, x);
      assert rows[n] in rows;
    }
  }

  lemma DrawnPlace(t: Tables, records: seq<Record>, relation: string, s: Stratum)
    requires Frame(t, records) && relation in t.quotas && s in t.quotas[relation]
    ensures forall r <- Draw(t.Rows(relation, s), t.quotas[relation][s]) :: r.relation == relation && r.stratum == s
  {
    SortMembers(RankLe, t.Rows(relation, s));
    forall r | r in Draw(t.Rows(relation, s), t.quotas[relation][s]) ensures r.relation == relation && r.stratum == s {
      assert r in Sort(RankLe, t.Rows(relation, s));
    }
  }

  lemma DrawnWeight(drawn: seq<Record>, census: bool, population: int, quota: int, relation: string)
    requires quota >= 1 && |drawn| == quota && forall r <- drawn :: r.relation == relation
    ensures SumOf(ChooseAll(drawn, census, population, quota), WeightOf(relation)) == population as real
  {
    forall r | r in drawn ensures WeightOf(relation)(Choose(r, census, population, quota)) == Share(population, quota) {
      OneWeight(r, census, population, quota);
    }
    ChosenWeight(drawn, census, population, quota, relation, Share(population, quota));
    RepeatedIs(quota, Share(population, quota));
    Cancel(quota, population);
  }

  lemma StratumWeight(t: Tables, policy: Policy, records: seq<Record>, relation: string, s: Stratum)
    requires Frame(t, records) && relation in t.quotas && s in t.quotas[relation]
    ensures SumOf(StratumChosen(t, policy, relation, s), WeightOf(relation))
      == if t.quotas[relation][s] >= 1 then t.populations[relation][s] as real else 0.0
  {
    var n, population := t.quotas[relation][s], t.populations[relation][s];
    if n >= 1 {
      DrawIsHashMin(t, records, relation, s);
      DrawnPlace(t, records, relation, s);
      DrawnWeight(Draw(t.Rows(relation, s), n), Census(policy, t.populations[relation]), population, n, relation);
    }
  }

  lemma DrawnFrom(rows: seq<Record>, n: int, i: nat)
    requires i < |Draw(rows, n)|
    ensures Draw(rows, n)[i] in rows
  {
    SortMembers(RankLe, rows);
    assert Draw(rows, n)[i] in Sort(RankLe, rows);
  }

  lemma {:induction false} StrataWeight(t: Tables, policy: Policy, records: seq<Record>, relation: string, strata: seq<Stratum>)
    requires Frame(t, records) && relation in t.quotas && forall s <- strata :: s in t.quotas[relation]
    ensures SumOf(RelationChosen(t, policy, relation, strata), WeightOf(relation))
      == Represented(t.populations[relation], t.quotas[relation], strata) as real
  {
    if strata != [] {
      var n := |strata| - 1;
      var front, last := RelationChosen(t, policy, relation, strata[..n]), StratumChosen(t, policy, relation, strata[n]);
      assert RelationChosen(t, policy, relation, strata) == front + last;
      StrataWeight(t, policy, records, relation, strata[..n]);
      StratumWeight(t, policy, records, relation, strata[n]);
      SumConcat(front, last, WeightOf(relation));
    }
  }

  // ------------------------------------------------------- when nothing is unrepresented

  lemma {:induction false} TotalLast(m: Quotas, keys: seq<Stratum>)
    requires keys != [] && forall k <- keys :: k in m
    ensures Total(m, keys) == Total(m, keys[..|keys|-1]) + m[keys[|keys|-1]]
  {
    if |keys| > 1 {
      TotalLast(m, keys[1..]);
      assert keys[1..][..|keys|-2] == keys[..|keys|-1][1..];
    }
  }

  lemma {:induction false} RepresentedTotal(p: Populations, q: Quotas, strata: seq<Stratum>)
    requires forall s <- strata :: s in p && s in q && p[s] > 0
    ensures Represented(p, q, strata) <= Total(p, strata)
    ensures Represented(p, q, strata) == Total(p, strata) <==> forall s <- strata :: q[s] >= 1
  {
    if strata != [] {
      var n := |strata| - 1;
      TotalLast(p, strata);
      RepresentedTotal(p, q, strata[..n]);
      assert strata == strata[..n] + [strata[n]];
    }
  }

  lemma {:induction false} AtLeastOneEach(q: Quotas, keys: seq<Stratum>)
    requires forall k <- keys :: k in q && q[k] >= 1
    ensures Total(q, keys) >= |keys|
  {
    if keys != [] { AtLeastOneEach(q, keys[1..]); }
  }

  /** Every stratum is represented exactly when a census is taken or the strata fit the budget. */
  lemma AllRepresented(p: Populations, policy: Policy, repr: Stratum -> string, q: Quotas)
    requires IsQuota(p, policy, repr, q) && Positive(p)
    ensures q.Keys == p.Keys
    ensures (forall s :: s in p ==> q[s] >= 1) <==> Census(policy, p) || |p| <= policy.sampleLimit
  {
    var keys := Keys(p.Keys);
    assert |keys| == |p.Keys| == |p|;
    AtLeastOneEach(p, keys);
    if forall s :: s in p ==> q[s] >= 1 {
      AtLeastOneEach(q, keys);
    }
  }

  // -------------------------------------------------------------- the emitted rows

  lemma {:induction false} RelationPlaces(t: Tables, policy: Policy, records: seq<Record>, relation: string, strata: seq<Stratum>, c: Chosen)
    requires Frame(t, records) && relation in t.quotas && forall s <- strata :: s in t.quotas[relation]
    requires c in RelationChosen(t, policy, relation, strata)
    ensures c.row.relation == relation && c.row.stratum in strata
  {
    var n := |strata| - 1;
    if c in RelationChosen(t, policy, relation, strata[..n]) {
      RelationPlaces(t, policy, records, relation, strata[..n], c);
    } else {
      StratumPlace(t, policy, records, relation, strata[n], c);
    }
  }

  lemma StratumPlace(t: Tables, policy: Policy, records: seq<Record>, relation: string, s: Stratum, c: Chosen)
    requires Frame(t, records) && relation in t.quotas && s in t.quotas[relation] && c in StratumChosen(t, policy, relation, s)
    ensures c.row.relation == relation && c.row.stratum == s
  {
    var rows, n := t.Rows(relation, s), t.quotas[relation][s];
    ChooseAllAt(Draw(rows, n), Census(policy, t.populations[relation]), t.populations[relation][s], n);
    var i :| 0 <= i < |StratumChosen(t, policy, relation, s)| && StratumChosen(t, policy, relation, s)[i] == c;
    DrawnFrom(rows, n, i);
  }

  lemma DrawDistinct(rows: seq<Record>, n: int)
    requires Distinct(rows)
    ensures Distinct(Draw(rows, n))
  {
    DistinctSort(RankLe, rows);
  }

  lemma {:induction false} ChosenDistinct(drawn: seq<Record>, census: bool, population: int, quota: int)
    requires forall i, j :: 0 <= i < j < |drawn| ==> drawn[i].document.id != drawn[j].document.id
    ensures Distinct(ChooseAll(drawn, census, population, quota))
  {
    ChooseAllAt(drawn, census, population, quota);
  }

  lemma StratumDistinct(t: Tables, policy: Policy, records: seq<Record>, relation: string, s: Stratum)
    requires Frame(t, records) && UniqueRecords(records) && relation in t.quotas && s in t.quotas[relation]
    requires Distinct(t.Rows(relation, s))
    ensures Distinct(StratumChosen(t, policy, relation, s))
  {
    var rows, n := t.Rows(relation, s), t.quotas[relation][s];
    var drawn := Draw(rows, n);
    DrawDistinct(rows, n);
    forall i, j | 0 <= i < j < |drawn| ensures drawn[i].document.id != drawn[j].document.id {
      DrawnFrom(rows, n, i);
      DrawnFrom(rows, n, j);
    }
    ChosenDistinct(drawn, Census(policy, t.populations[relation]), t.populations[relation][s], n);
  }

  ghost predicate RowsDistinct(t: Tables) {
    forall relation, s :: Distinct(t.Rows(relation, s))
  }

  lemma {:induction false} RelationDistinct(t: Tables, policy: Policy, records: seq<Record>, relation: string, strata: seq<Stratum>)
    requires Frame(t, records) && UniqueRecords(records) && RowsDistinct(t)
    requires relation in t.quotas && Distinct(strata) && forall s <- strata :: s in t.quotas[relation]
    ensures Distinct(RelationChosen(t, policy, relation, strata))
  {
    if strata != [] {
      var n := |strata| - 1;
      RelationDistinct(t, policy, records, relation, strata[..n]);
      StratumDistinct(t, policy, records, relation, strata[n]);
      var a, b := RelationChosen(t, policy, relation, strata[..n]), StratumChosen(t, policy, relation, strata[n]);
      forall c ensures !(c in a && c in b) {
        if c in a && c in b {
          RelationPlaces(t, policy, records, relation, strata[..n], c);
          StratumPlace(t, policy, records, relation, strata[n], c);
          assert false;
        }
      }
      DistinctConcat(a, b);
    }
  }

  lemma {:induction false} SelectionPlaces(t: Tables, policy: Policy, records: seq<Record>, relations: seq<string>, c: Chosen)
    requires Frame(t, records) && forall x <- relations :: x in t.quotas
    requires c in Selection(t, policy, relations)
    ensures c.row.relation in relations
  {
    var n := |relations| - 1;
    if c in Selection(t, policy, relations[..n]) {
      SelectionPlaces(t, policy, records, relations[..n], c);
    } else {
      RelationPlaces(t, policy, records, relations[n], Keys(t.quotas[relations[n]].Keys), c);
    }
  }

  lemma {:induction false} SelectionDistinct(t: Tables, policy: Policy, records: seq<Record>, relations: seq<string>)
    requires Frame(t, records) && UniqueRecords(records) && RowsDistinct(t)
    requires Distinct(relations) && forall x <- relations :: x in t.quotas
    ensures Distinct(Selection(t, policy, relations))
  {
    if relations != [] {
      var n := |relations| - 1;
      var strata := Keys(t.quotas[relations[n]].Keys);
      SelectionDistinct(t, policy, records, relations[..n]);
      RelationDistinct(t, policy, records, relations[n], strata);
      var a, b := Selection(t, policy, relations[..n]), AllOf(t, policy, relations[n]);
      forall c ensures !(c in a && c in b) {
        if c in a && c in b {
          SelectionPlaces(t, policy, records, relations[..n], c);
          RelationPlaces(t, policy, records, relations[n], strata, c);
          assert false;
        }
      }
      DistinctConcat(a, b);
    }
  }

  lemma {:induction false} NoWeight(cs: seq<Chosen>, relation: string)
    requires forall c <- cs :: c.row.relation != relation
    ensures SumOf(cs, WeightOf(relation)) == 0.0
  {
    if cs != [] {
      NoWeight(cs[..|cs|-1], relation);
      assert cs[|cs|-1] in cs;
    }
  }

  lemma OtherWeight(t: Tables, policy: Policy, records: seq<Record>, other: string, relation: string)
    requires Frame(t, records) && other in t.quotas && other != relation
    ensures SumOf(AllOf(t, policy, other), WeightOf(relation)) == 0.0
  {
    forall c | c in AllOf(t, policy, other) ensures c.row.relation != relation {
      RelationPlaces(t, policy, records, other, Keys(t.quotas[other].Keys), c);
    }
    NoWeight(AllOf(t, policy, other), relation);
  }

  /** A relation's weight within the whole selection is that of its own part. */
  lemma {:induction false} SelectionWeight(t: Tables, policy: Policy, records: seq<Record>, relations: seq<string>, relation: string)
    requires Frame(t, records) && Distinct(relations) && forall x <- relations :: x in t.quotas
    ensures SumOf(Selection(t, policy, relations), WeightOf(relation))
      == if relation in relations then SumOf(AllOf(t, policy, relation), WeightOf(relation)) else 0.0
  {
    if relations != [] {
      var n := |relations| - 1;
      SelectionWeight(t, policy, records, relations[..n], relation);
      SumConcat(Selection(t, policy, relations[..n]), AllOf(t, policy, relations[n]), WeightOf(relation));
      LastOf(relations, relation);
      if relations[n] != relation { OtherWeight(t, policy, records, relations[n], relation); }
    }
  }

  lemma LastOf(relations: seq<string>, relation: string)
    requires relations != [] && Distinct(relations)
    ensures var n := |relations| - 1;
      (relation in relations <==> relation in relations[..n] || relation == relations[n]) && relations[n] !in relations[..n]
  {
    var n := |relations| - 1;
    assert relations == relations[..n] + [relations[n]];
  }

  function Emitted(selected: map<string, Chosen>, ids: seq<string>): seq<Chosen>
    requires forall x <- ids :: x in selected
  {
    seq(|ids|, i requires 0 <= i < |ids| => selected[ids[i]])
  }

  lemma {:induction false} RowsWeight(selected: map<string, Chosen>, ids: seq<string>, relation: string)
    requires forall x <- ids :: x in selected
    ensures RelationWeight(RowsOf(selected, ids), relation) == SumOf(Emitted(selected, ids), WeightOf(relation))
  {
    if ids != [] {
      var n := |ids| - 1;
      RowsWeight(selected, ids[..n], relation);
      assert RowsOf(selected, ids)[..n] == RowsOf(selected, ids[..n]);
      assert Emitted(selected, ids)[..n] == Emitted(selected, ids[..n]);
    }
  }

  /** A dictionary filled with pairwise different entries, each kept under its own identity, emits them all. */
  lemma EmitsAll(cs: seq<Chosen>, selected: map<string, Chosen>, ids: seq<string>)
    requires selected == Fold(map[], Put, cs) && ids == SortedKeys(selected) && Distinct(cs)
    requires forall c <- cs :: c.document.id in selected && selected[c.document.id] == c
    ensures multiset(Emitted(selected, ids)) == multiset(cs)
  {
    var out := Emitted(selected, ids);
    forall i | 0 <= i < |ids| ensures out[i].document.id == ids[i] && out[i] in cs {
      PutMember(cs, ids[i]);
    }
    forall c | c in cs ensures c in out {
      var i :| 0 <= i < |ids| && ids[i] == c.document.id;
      assert out[i] == c;
    }
    DistinctSameMembers(out, cs);
  }

  lemma SelectedAsChosen(t: Tables, policy: Policy, records: seq<Record>, cs: seq<Chosen>, selected: map<string, Chosen>)
    requires Frame(t, records) && UniqueRecords(records)
    requires cs == Selection(t, policy, SortedNames(t.quotas.Keys)) && selected == SelectedOf(t, policy)
    ensures forall c <- cs :: c.document.id in selected && selected[c.document.id] == c
  {
    forall c | c in cs ensures c.document.id in selected && selected[c.document.id] == c {
      var r := SelectionMember(t, policy, records, SortedNames(t.quotas.Keys), c);
      ExactlyTheDrawn(t, policy, records, r);
    }
  }

  lemma EmittedIsSelection(t: Tables, policy: Policy, records: seq<Record>)
    requires Frame(t, records) && UniqueRecords(records) && RowsDistinct(t)
    ensures var selected := SelectedOf(t, policy);
      multiset(Emitted(selected, SortedKeys(selected))) == multiset(Selection(t, policy, SortedNames(t.quotas.Keys)))
  {
    var selected, cs := SelectedOf(t, policy), Selection(t, policy, SortedNames(t.quotas.Keys));
    SelectionDistinct(t, policy, records, SortedNames(t.quotas.Keys));
    SelectedAsChosen(t, policy, records, cs, selected);
    EmitsAll(cs, selected, SortedKeys(selected));
  }

  lemma RowsAreDistinct(t: Tables, hash: RankHash, documents: seq<Document>)
    requires Structured(documents) && Ascends(DocumentIds(documents)) && AreStrata(t.byStratum, RecordsOf(hash, documents))
    ensures RowsDistinct(t)
  {
    var records := RecordsOf(hash, documents);
    var idOf := (r: Record) => r.document.id;
    forall i, j | 0 <= i < j < |records| ensures idOf(records[i]) != idOf(records[j]) {
      AscendsStrict(DocumentIds(documents));
      StringLtFacts(DocumentIds(documents)[i], DocumentIds(documents)[j], "");
    }
    forall relation, s ensures Distinct(t.Rows(relation, s)) {
      RowsAre(t, records, relation, s);
      SelectUniqueBy(records, KeyOf, (relation, s), idOf);
    }
  }

  /** In the sample of a reconciled pack, the sampling weights of a relation's rows add up to the
      relation's documents if and only if it is taken whole or its strata fit the budget. */
  lemma WeightsSumToPopulation(pack: Pack, policy: Policy, hash: RankHash, repr: Stratum -> string, t: Tables, relation: string)
    requires Reconciled(pack) && AreTables(t, RecordsOf(hash, pack.documents), policy, repr) && t.Keyed() && relation in t.quotas
    ensures RelationWeight(SampleFor(pack, policy, t).selection, relation) == Size(t.populations[relation]) as real
      <==> Census(policy, t.populations[relation]) || |t.populations[relation]| <= policy.sampleLimit
    ensures Size(t.populations[relation]) == |Select(RecordsOf(hash, pack.documents), RelationOf, relation)|
  {
    var records, selected := RecordsOf(hash, pack.documents), SelectedOf(t, policy);
    var p, q := t.populations[relation], t.quotas[relation];
    TablesFrame(t, records, policy, repr);
    RecordsUnique(hash, pack.documents);
    RowsAreDistinct(t, hash, pack.documents);
    PopulationEntry(t.populations, records, relation);
    PopulationTotal(records, relation);
    RowsWeight(selected, SortedKeys(selected), relation);
    EmittedIsSelection(t, policy, records);
    SumPermutation(Emitted(selected, SortedKeys(selected)), Selection(t, policy, SortedNames(t.quotas.Keys)), WeightOf(relation));
    SelectionWeight(t, policy, records, SortedNames(t.quotas.Keys), relation);
    StrataWeight(t, policy, records, relation, Keys(q.Keys));
    RepresentedTotal(p, q, Keys(q.Keys));
    AllRepresented(p, policy, repr, q);
  }
}
