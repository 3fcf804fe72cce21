/** Building a pilot: hash-min selection per stratum and whole-group occurrence closure. */
module PilotBuilder {
  import opened Ordering
  import opened Wrappers
  import opened Grouping
  import opened Apportionment
  import opened PilotFrame

  /** One row of the selection file. */
  datatype SelectionRow = SelectionRow(id: string, relation: string, stratum: Stratum, census: bool, rank: string,
                                       population: int, quota: int, probability: (int, int), weight: (int, int))

  datatype Chosen = Chosen(document: Document, row: SelectionRow)

  datatype RelationStat = RelationStat(sourceDocuments: nat, selectedDocuments: nat, census: bool)

  datatype Sample = Sample(documents: seq<Document>, selection: seq<SelectionRow>, occurrences: seq<Occurrence>,
                           sourceDocuments: nat, sourceOccurrences: nat, selectedDocuments: nat, selectedOccurrences: nat,
                           byRelation: map<string, RelationStat>, occurrencesByRelation: multiset<string>)

  datatype Fault = Unstructured | Mixed | UnknownRelation | Unclosed

  datatype Outcome = Built(sample: Sample) | Failed(fault: Fault)

  // ------------------------------------------------------------------- selection

  predicate RankLe(a: Record, b: Record) {
    if a.rank == b.rank then StringLe(a.document.id, b.document.id) else StringLe(a.rank, b.rank)
  }

  /** The first rows in rank order; a quota is never negative. */
  function Draw(rows: seq<Record>, quota: int): seq<Record> { Take(Sort(RankLe, rows), if quota < 0 then 0 else quota) }

  function Choose(r: Record, census: bool, population: int, quota: int): Chosen {
    Chosen(r.document, SelectionRow(r.document.id, r.relation, r.stratum, census, r.rank, population, quota,
                                    (quota, population), (population, quota)))
  }

  function ChooseAll(rows: seq<Record>, census: bool, population: int, quota: int): seq<Chosen> {
    if rows == [] then []
    else ChooseAll(rows[..|rows|-1], census, population, quota) + [Choose(rows[|rows|-1], census, population, quota)]
  }

  /** The builder's dictionaries: populations, rows by stratum, quotas. */
  datatype Tables = Tables(populations: PopulationTable, byStratum: map<(string, Stratum), seq<Record>>, quotas: map<string, Quotas>)
  {
    ghost predicate Keyed() {
      quotas.Keys == populations.Keys && forall r :: r in quotas ==> quotas[r].Keys == populations[r].Keys
    }

    function Rows(relation: string, s: Stratum): seq<Record> {
      if (relation, s) in byStratum then byStratum[(relation, s)] else []
    }
  }

  function StratumChosen(t: Tables, policy: Policy, relation: string, s: Stratum): seq<Chosen>
    requires t.Keyed() && relation in t.quotas && s in t.quotas[relation]
  {
    var quota := t.quotas[relation][s];
    ChooseAll(Draw(t.Rows(relation, s), quota), Census(policy, t.populations[relation]), t.populations[relation][s], quota)
  }

  function RelationChosen(t: Tables, policy: Policy, relation: string, strata: seq<Stratum>): seq<Chosen>
    requires t.Keyed() && relation in t.quotas && forall s <- strata :: s in t.quotas[relation]
  {
    if strata == [] then []
    else
      var n := |strata| - 1;
      RelationChosen(t, policy, relation, strata[..n]) + StratumChosen(t, policy, relation, strata[n])
  }

  function AllOf(t: Tables, policy: Policy, relation: string): seq<Chosen>
    requires t.Keyed() && relation in t.quotas
  {
    RelationChosen(t, policy, relation, Keys(t.quotas[relation].Keys))
  }

  function Selection(t: Tables, policy: Policy, relations: seq<string>): seq<Chosen>
    requires t.Keyed() && forall r <- relations :: r in t.quotas
  {
    if relations == [] then []
    else
      var n := |relations| - 1;
      Selection(t, policy, relations[..n]) + AllOf(t, policy, relations[n])
  }

  function Put(selected: map<string, Chosen>, c: Chosen): map<string, Chosen> { selected[c.document.id := c] }

  function Stat(t: Tables, policy: Policy, relation: string): RelationStat
    requires t.Keyed() && relation in t.quotas
  {
    var p := t.populations[relation];
    RelationStat(Size(p), |AllOf(t, policy, relation)|, Census(policy, p))
  }

  // --------------------------------------------------------- occurrence retention

  predicate Touches(o: Occurrence, ids: set<string>) { exists d <- o.documents :: d in ids }

  predicate Whole(o: Occurrence, ids: set<string>) { forall d <- o.documents :: d in ids }

  function Retained(occurrences: seq<Occurrence>, ids: set<string>): seq<Occurrence> {
    if occurrences == [] then []
    else
      var last := occurrences[|occurrences|-1];
      Retained(occurrences[..|occurrences|-1], ids) + if Touches(last, ids) then [last] else []
  }

  /** The error of the first occurrence that cannot be retained whole. */
  function FirstFault(occurrences: seq<Occurrence>, ids: set<string>, relations: set<string>): Option<Fault> {
    if occurrences == [] then None
    else
      var n := |occurrences| - 1;
      var earlier := FirstFault(occurrences[..n], ids, relations);
      if earlier.Some? || !Touches(occurrences[n], ids) then earlier
      else if !Whole(occurrences[n], ids) then Some(Mixed)
      else if occurrences[n].relation !in relations then Some(UnknownRelation)
      else None
  }

  /** How often each document is mentioned. */
  function Mentions(occurrences: seq<Occurrence>): multiset<string> {
    if occurrences == [] then multiset{}
    else Mentions(occurrences[..|occurrences|-1]) + multiset(occurrences[|occurrences|-1].documents)
  }

  function RelationTally(occurrences: seq<Occurrence>): multiset<string> {
    if occurrences == [] then multiset{}
    else RelationTally(occurrences[..|occurrences|-1]) + multiset{occurrences[|occurrences|-1].relation}
  }

  ghost predicate Closed(selected: map<string, Chosen>, seen: multiset<string>) {
    forall id :: id in selected ==> seen[id] == selected[id].document.count
  }

  // ------------------------------------------------------------- the whole sample

  function DocumentsOf(selected: map<string, Chosen>, ids: seq<string>): seq<Document>
    requires forall x <- ids :: x in selected
  {
    seq(|ids|, i requires 0 <= i < |ids| => selected[ids[i]].document)
  }

  function RowsOf(selected: map<string, Chosen>, ids: seq<string>): seq<SelectionRow>
    requires forall x <- ids :: x in selected
  {
    seq(|ids|, i requires 0 <= i < |ids| => selected[ids[i]].row)
  }

  function Stats(t: Tables, policy: Policy): map<string, RelationStat>
    requires t.Keyed()
  {
    map relation | relation in t.quotas :: Stat(t, policy, relation)
  }

  function SelectedOf(t: Tables, policy: Policy): map<string, Chosen>
    requires t.Keyed()
  {
    Fold(map[], Put, Selection(t, policy, SortedNames(t.quotas.Keys)))
  }

  ghost function BuildOf(pack: Pack, policy: Policy, t: Tables): Outcome
    requires t.Keyed()
  {
    var selected := SelectedOf(t, policy);
    var kept := Retained(pack.occurrences, selected.Keys);
    match FirstFault(pack.occurrences, selected.Keys, t.quotas.Keys)
    case Some(fault) => Failed(fault)
    case None =>
      if !Closed(selected, Mentions(kept)) then Failed(Unclosed)
      else Built(Sample(DocumentsOf(selected, SortedKeys(selected)), RowsOf(selected, SortedKeys(selected)), kept,
                        |pack.documents|, pack.sourceRecords, |selected|, |kept|, Stats(t, policy), RelationTally(kept)))
  }

  /** The tables that the records, the policy and the apportionment determine. */
  ghost predicate AreTables(t: Tables, records: seq<Record>, policy: Policy, repr: Stratum -> string) {
    ArePopulations(t.populations, records) && AreStrata(t.byStratum, records) && AreQuotas(records, policy, repr, t.quotas)
  }

  lemma TablesKeyed(t: Tables, records: seq<Record>, policy: Policy, repr: Stratum -> string)
    requires AreTables(t, records, policy, repr)
    ensures t.Keyed()
  {
    forall r | r in t.quotas ensures t.quotas[r].Keys == t.populations[r].Keys {
      PopulationEntry(t.populations, records, r);
      QuotaBounds(PopulationOf(records, r), policy, repr, t.quotas[r]);
    }
  }

  // --------------------------------------------------------------------- the loops

  lemma {:induction false} FoldConcat<T, G>(empty: G, add: (G, T) -> G, a: seq<T>, b: seq<T>)
    ensures Fold(empty, add, a + b) == Fold(Fold(empty, add, a), add, b)
  {
    if b == [] {
      assert a + b == a;
    } else {
      var n := |b| - 1;
      FoldConcat(empty, add, a, b[..n]);
      assert (a + b)[..|a + b| - 1] == a + b[..n];
    }
  }

  method ChooseStratum(rows: seq<Record>, census: bool, population: int, quota: int, before: map<string, Chosen>)
    returns (selected: map<string, Chosen>, count: nat)
    ensures selected == Fold(before, Put, ChooseAll(Draw(rows, quota), census, population, quota))
    ensures count == |ChooseAll(Draw(rows, quota), census, population, quota)|
  {
    var drawn := Draw(rows, quota);
    selected, count := before, 0;
    for i := 0 to |drawn|
      invariant selected == Fold(before, Put, ChooseAll(drawn[..i], census, population, quota))
      invariant count == i == |ChooseAll(drawn[..i], census, population, quota)|
    {
      PrefixStep(drawn, i);
      FoldAppend(before, Put, ChooseAll(drawn[..i], census, population, quota), Choose(drawn[i], census, population, quota));
      selected := Put(selected, Choose(drawn[i], census, population, quota));
      count := count + 1;
    }
    TakeAll(drawn);
  }

  lemma RelationStep(t: Tables, policy: Policy, relation: string, strata: seq<Stratum>, i: nat, before: map<string, Chosen>)
    requires t.Keyed() && relation in t.quotas && i < |strata| && forall s <- strata :: s in t.quotas[relation]
    ensures var next := StratumChosen(t, policy, relation, strata[i]);
      && Fold(before, Put, RelationChosen(t, policy, relation, strata[..i+1]))
        == Fold(Fold(before, Put, RelationChosen(t, policy, relation, strata[..i])), Put, next)
      && |RelationChosen(t, policy, relation, strata[..i+1])| == |RelationChosen(t, policy, relation, strata[..i])| + |next|
  {
    PrefixStep(strata, i);
    FoldConcat(before, Put, RelationChosen(t, policy, relation, strata[..i]), StratumChosen(t, policy, relation, strata[i]));
  }

  method ChooseStrata(t: Tables, policy: Policy, relation: string, strata: seq<Stratum>, before: map<string, Chosen>)
    returns (selected: map<string, Chosen>, count: nat)
    requires t.Keyed() && relation in t.quotas && forall s <- strata :: s in t.quotas[relation]
    ensures selected == Fold(before, Put, RelationChosen(t, policy, relation, strata))
    ensures count == |RelationChosen(t, policy, relation, strata)|
  {
    var p, q := t.populations[relation], t.quotas[relation];
    selected, count := before, 0;
    for i := 0 to |strata|
      invariant selected == Fold(before, Put, RelationChosen(t, policy, relation, strata[..i]))
      invariant count == |RelationChosen(t, policy, relation, strata[..i])|
    {
      var s := strata[i];
      var added;
      selected, added := ChooseStratum(t.Rows(relation, s), Census(policy, p), p[s], q[s], selected);
      RelationStep(t, policy, relation, strata, i, before);
      count := count + added;
    }
    TakeAll(strata);
  }

  method ChooseRelation(t: Tables, policy: Policy, relation: string, before: map<string, Chosen>)
    returns (selected: map<string, Chosen>, stat: RelationStat)
    requires t.Keyed() && relation in t.quotas
    ensures selected == Fold(before, Put, AllOf(t, policy, relation))
    ensures stat == Stat(t, policy, relation)
  {
    var count;
    selected, count := ChooseStrata(t, policy, relation, Keys(t.quotas[relation].Keys), before);
    stat := RelationStat(Size(t.populations[relation]), count, Census(policy, t.populations[relation]));
  }

  /** The two dictionaries that the relation loop fills. */
  datatype Progress = Progress(selected: map<string, Chosen>, stats: map<string, RelationStat>)

  function ProgressAfter(t: Tables, policy: Policy, relations: seq<string>): Progress
    requires t.Keyed() && forall r <- relations :: r in t.quotas
  {
    if relations == [] then Progress(map[], map[])
    else
      var n := |relations| - 1;
      var before := ProgressAfter(t, policy, relations[..n]);
      Progress(Fold(before.selected, Put, AllOf(t, policy, relations[n])),
               before.stats[relations[n] := Stat(t, policy, relations[n])])
  }

  lemma {:induction false} ProgressSelects(t: Tables, policy: Policy, relations: seq<string>)
    requires t.Keyed() && forall r <- relations :: r in t.quotas
    ensures ProgressAfter(t, policy, relations).selected == Fold(map[], Put, Selection(t, policy, relations))
  {
    if relations != [] {
      var n := |relations| - 1;
      ProgressSelects(t, policy, relations[..n]);
      FoldConcat(map[], Put, Selection(t, policy, relations[..n]), AllOf(t, policy, relations[n]));
    }
  }

  lemma {:induction false} ProgressCounts(t: Tables, policy: Policy, relations: seq<string>, r: string)
    requires t.Keyed() && forall r <- relations :: r in t.quotas
    ensures var stats := ProgressAfter(t, policy, relations).stats;
      (r in stats <==> r in relations) && (r in stats ==> stats[r] == Stat(t, policy, r))
  {
    if relations != [] {
      var n := |relations| - 1;
      ProgressCounts(t, policy, relations[..n], r);
      PrefixStep(relations, n);
      TakeAll(relations);
    }
  }

  lemma ProgressStats(t: Tables, policy: Policy, relations: seq<string>)
    requires t.Keyed() && forall r :: r in relations <==> r in t.quotas
    ensures ProgressAfter(t, policy, relations).stats == Stats(t, policy)
  {
    var stats := ProgressAfter(t, policy, relations).stats;
    forall r ensures (r in stats <==> r in t.quotas) && (r in stats ==> stats[r] == Stat(t, policy, r)) {
      ProgressCounts(t, policy, relations, r);
    }
  }

  method SelectRelations(t: Tables, policy: Policy, relations: seq<string>)
    returns (selected: map<string, Chosen>, stats: map<string, RelationStat>)
    requires t.Keyed() && forall r <- relations :: r in t.quotas
    ensures Progress(selected, stats) == ProgressAfter(t, policy, relations)
  {
    selected, stats := map[], map[];
    for i := 0 to |relations|
      invariant Progress(selected, stats) == ProgressAfter(t, policy, relations[..i])
    {
      PrefixStep(relations, i);
      var stat;
      selected, stat := ChooseRelation(t, policy, relations[i], selected);
      stats := stats[relations[i] := stat];
    }
    TakeAll(relations);
  }

  // ------------------------------------------------------------ the occurrence loop

  lemma RetainStep(occurrences: seq<Occurrence>, i: nat, ids: set<string>, relations: set<string>)
    requires i < |occurrences|
    ensures Retained(occurrences[..i+1], ids)
         == Retained(occurrences[..i], ids) + if Touches(occurrences[i], ids) then [occurrences[i]] else []
    ensures FirstFault(occurrences[..i+1], ids, relations) ==
      var earlier := FirstFault(occurrences[..i], ids, relations);
      if earlier.Some? || !Touches(occurrences[i], ids) then earlier
      else if !Whole(occurrences[i], ids) then Some(Mixed)
      else if occurrences[i].relation !in relations then Some(UnknownRelation)
      else None
  {
    PrefixStep(occurrences, i);
  }

  lemma {:induction false} FaultPersists(occurrences: seq<Occurrence>, i: nat, ids: set<string>, relations: set<string>)
    requires i <= |occurrences| && FirstFault(occurrences[..i], ids, relations).Some?
    ensures FirstFault(occurrences, ids, relations) == FirstFault(occurrences[..i], ids, relations)
  {
    if i < |occurrences| {
      var n := |occurrences| - 1;
      assert occurrences[..n][..i] == occurrences[..i];
      FaultPersists(occurrences[..n], i, ids, relations);
    } else {
      assert occurrences[..i] == occurrences;
    }
  }

  lemma MentionsAppend(occurrences: seq<Occurrence>, o: Occurrence)
    ensures Mentions(occurrences + [o]) == Mentions(occurrences) + multiset(o.documents)
    ensures RelationTally(occurrences + [o]) == RelationTally(occurrences) + multiset{o.relation}
  {
    assert (occurrences + [o])[..|occurrences|] == occurrences;
  }

  method RetainOccurrences(occurrences: seq<Occurrence>, ids: set<string>, relations: set<string>)
    returns (fault: Option<Fault>, kept: seq<Occurrence>, seen: multiset<string>, tally: multiset<string>)
    ensures fault == FirstFault(occurrences, ids, relations)
    ensures fault.None? ==> kept == Retained(occurrences, ids) && seen == Mentions(kept) && tally == RelationTally(kept)
  {
    fault, kept, seen, tally := None, [], multiset{}, multiset{};
    for i := 0 to |occurrences|
      invariant fault.None? && FirstFault(occurrences[..i], ids, relations) == None
      invariant kept == Retained(occurrences[..i], ids) && seen == Mentions(kept) && tally == RelationTally(kept)
    {
      var o := occurrences[i];
      RetainStep(occurrences, i, ids, relations);
      if Touches(o, ids) {
        if !Whole(o, ids) || o.relation !in relations {
          fault := Some(if !Whole(o, ids) then Mixed else UnknownRelation);
          FaultPersists(occurrences, i + 1, ids, relations);
          return;
        }
        MentionsAppend(kept, o);
        kept, tally := kept + [o], tally + multiset{o.relation};
        seen := CountDocuments(seen, o.documents);
      }
    }
    TakeAll(occurrences);
  }

  method CountDocuments(before: multiset<string>, documents: seq<string>) returns (seen: multiset<string>)
    ensures seen == before + multiset(documents)
  {
    seen := before;
    for i := 0 to |documents|
      invariant seen == before + multiset(documents[..i])
    {
      PrefixStep(documents, i);
      seen := seen + multiset{documents[i]};
    }
    TakeAll(documents);
  }

  method CheckClosure(selected: map<string, Chosen>, seen: multiset<string>) returns (ok: bool)
    ensures ok <==> Closed(selected, seen)
  {
    var todo := selected.Keys;
    while todo != {}
      invariant todo <= selected.Keys
      invariant forall id :: id in selected && id !in todo ==> seen[id] == selected[id].document.count
    {
      var id :| id in todo;
      if seen[id] != selected[id].document.count {
        return false;
      }
      todo := todo - {id};
    }
    ok := true;
  }

  method BuildTables(records: seq<Record>, populations: PopulationTable, policy: Policy, repr: Stratum -> string) returns (t: Tables)
    requires Injective(repr) && ArePopulations(populations, records)
    ensures AreTables(t, records, policy, repr) && t.Keyed()
  {
    forall relation | relation in populations ensures Positive(populations[relation]) {
      PopulationEntry(populations, records, relation);
    }
    var quotas := QuotasFor(populations, policy, repr);
    QuotasAre(populations, records, policy, repr, quotas);
    var byStratum := FileStrata(records);
    t := Tables(populations, byStratum, quotas);
    TablesKeyed(t, records, policy, repr);
  }

  method BuildFrom(pack: Pack, policy: Policy, t: Tables) returns (outcome: Outcome)
    requires t.Keyed()
    ensures outcome == BuildOf(pack, policy, t)
  {
    var relations := SortedNames(t.quotas.Keys);
    var selected, stats := SelectRelations(t, policy, relations);
    ProgressSelects(t, policy, relations);
    ProgressStats(t, policy, relations);
    var fault, kept, seen, tally := RetainOccurrences(pack.occurrences, selected.Keys, t.quotas.Keys);
    if fault.Some? {
      return Failed(fault.value);
    }
    var closed := CheckClosure(selected, seen);
    if !closed {
      return Failed(Unclosed);
    }
    var ids := SortedKeys(selected);
    outcome := Built(Sample(DocumentsOf(selected, ids), RowsOf(selected, ids), kept,
                            |pack.documents|, pack.sourceRecords, |selected|, |kept|, stats, tally));
  }

  /** The builder, up to the verification of its own output. */
  method BuildPilot(pack: Pack, policy: Policy, hash: RankHash, repr: Stratum -> string) returns (outcome: Outcome, t: Tables)
    requires Injective(repr)
    ensures !Structured(pack.documents) ==> outcome == Failed(Unstructured)
    ensures Structured(pack.documents) ==> AreTables(t, RecordsOf(hash, pack.documents), policy, repr) && t.Keyed()
    ensures Structured(pack.documents) ==> outcome == BuildOf(pack, policy, t)
  {
    var ok, records, populations := ReadFrame(pack.documents, hash);
    if !ok {
      return Failed(Unstructured), Tables(map[], map[], map[]);
    }
    t := BuildTables(records, populations, policy, repr);
    outcome := BuildFrom(pack, policy, t);
  }
}
