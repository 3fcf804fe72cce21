/** Conservation of a projection pack, and exactly when what was built passes verification. */
module PackTheorem {
  import opened Ordering
  import opened Grouping
  import opened JsonPointer
  import opened PackTypes
  import opened PackBuilder
  import opened PackVerifier

  // --------------------------------------------------------------- shape of rows

  /** What normalisation establishes of one row. */
  ghost predicate Shaped(env: Environment, n: NormalRow) {
    var o := n.occurrence;
    && o.relation != "" && "" !in o.reasons && Identity("occ-", o.id) && o.id == OccurrenceId(env, o.pointer)
    && (n.document.Some? <==> NamesDocument(o.disposition))
    && o.documents == (if n.document.Some? then [n.document.value.0] else [])
    && (n.document.Some? ==> Identity("doc-", n.document.value.0) && n.document.value.1.searchable && n.document.value.1.relation == o.relation)
  }

  lemma NormaliseShapes(env: Environment, row: InputRow, n: NormalRow)
    requires Hexadecimal(env) && Normalise(env, row) == Normal(n)
    ensures Shaped(env, n) && n.occurrence.relation == row.relation
  {
    var p := PointerOf(env, row).value;
    assert n.occurrence.id[|"occ-"|..] == env.pointerSha(p);
    if n.document.Some? {
      assert n.document.value.0[|"doc-"|..] == env.project(row).value.group;
    }
  }

  ghost predicate AllShaped(env: Environment, normals: seq<NormalRow>) { forall n <- normals :: Shaped(env, n) }

  lemma NormalsShaped(env: Environment, rows: seq<InputRow>, normals: seq<NormalRow>)
    requires Hexadecimal(env) && Normalises(env, rows, normals)
    ensures AllShaped(env, normals)
  {
    forall i | 0 <= i < |normals| ensures Shaped(env, normals[i]) {
      NormaliseShapes(env, rows[i], normals[i]);
    }
  }

  // --------------------------------------------------------------- emitted streams

  lemma SortedKeysIncrease<V>(table: map<string, V>)
    ensures Increasing(SortedKeys(table))
  {
    var ids := SortedKeys(table);
    StringTotalOrder();
    SetToSortedAscends(StringLe, table.Keys);
    forall i | 0 < i < |ids| ensures StringLt(ids[i-1], ids[i]) {
      assert StringLe(ids[i-1], ids[i]) && ids[i-1] != ids[i];
    }
  }

  lemma EmittedIds(occurrences: OccurrenceTable, normals: seq<NormalRow>)
    requires IsOccurrenceTable(occurrences, normals)
    ensures OccurrenceIds(EmitOccurrences(occurrences)) == SortedKeys(occurrences)
    ensures Distinct(EmitOccurrences(occurrences))
  {
    var ids, out := SortedKeys(occurrences), EmitOccurrences(occurrences);
    forall i | 0 <= i < |ids| ensures out[i].id == ids[i] {}
  }

  lemma EmittedMembers(occurrences: OccurrenceTable, normals: seq<NormalRow>, o: PackOccurrence)
    requires IsOccurrenceTable(occurrences, normals)
    ensures o in EmitOccurrences(occurrences) <==> o in OccurrencesOf(normals)
  {
    var ids, out, all := SortedKeys(occurrences), EmitOccurrences(occurrences), OccurrencesOf(normals);
    if o in out {
      var i :| 0 <= i < |out| && out[i] == o;
      assert occurrences[ids[i]] in all;
    }
    if o in all {
      var i :| 0 <= i < |normals| && all[i] == o;
      assert normals[i].occurrence.id in occurrences;
      var k :| 0 <= k < |ids| && ids[k] == o.id;
      assert out[k] == o;
    }
  }

  lemma RowsDistinct(normals: seq<NormalRow>)
    requires Clean(normals)
    ensures Distinct(OccurrencesOf(normals))
  {
    var all := OccurrencesOf(normals);
    forall i, j | 0 <= i < j < |all| ensures all[i] != all[j] {
      assert normals[i].occurrence.id != normals[j].occurrence.id;
    }
  }

  lemma EmittedOccurrences(occurrences: OccurrenceTable, normals: seq<NormalRow>)
    requires IsOccurrenceTable(occurrences, normals) && Clean(normals)
    ensures multiset(EmitOccurrences(occurrences)) == multiset(OccurrencesOf(normals))
    ensures OccurrenceIds(EmitOccurrences(occurrences)) == SortedKeys(occurrences)
  {
    EmittedIds(occurrences, normals);
    RowsDistinct(normals);
    forall o ensures o in EmitOccurrences(occurrences) <==> o in OccurrencesOf(normals) {
      EmittedMembers(occurrences, normals, o);
    }
    DistinctSameMembers(EmitOccurrences(occurrences), OccurrencesOf(normals));
  }

  lemma {:induction false} MentionsAreBearers(env: Environment, normals: seq<NormalRow>, id: string)
    requires AllShaped(env, normals)
    ensures TallyOf(OccurrencesOf(normals), MentionKeys)[id] == Bearers(normals, id)
  {
    if normals != [] {
      var n := |normals| - 1;
      assert normals[n] in normals;
      MentionsAreBearers(env, normals[..n], id);
      assert OccurrencesOf(normals)[..n] == OccurrencesOf(normals[..n]);
    }
  }

  // ------------------------------------------------------------------ conservation

  function SumCounts(documents: seq<PackDocument>): int {
    if documents == [] then 0 else SumCounts(documents[..|documents|-1]) + documents[|documents|-1].count
  }

  function DocumentBearing(occurrences: seq<PackOccurrence>): nat {
    if occurrences == [] then 0
    else DocumentBearing(occurrences[..|occurrences|-1]) + if NamesDocument(occurrences[|occurrences|-1].disposition) then 1 else 0
  }

  function SumRecords(rows: seq<RelationRow>): nat {
    if rows == [] then 0 else SumRecords(rows[..|rows|-1]) + rows[|rows|-1].records
  }

  function At(m: map<Disposition, nat>, d: Disposition): nat { if d in m then m[d] else 0 }

  function SumDispositions(m: map<Disposition, nat>): nat {
    At(m, DirectSemanticDocument) + At(m, SemanticGroupOccurrence) + At(m, DerivedDocumentInput)
    + At(m, StructuredOnlyOccurrence) + At(m, Rejected)
  }

  lemma {:induction false} MentionTotal(env: Environment, occurrences: seq<PackOccurrence>)
    requires forall o <- occurrences :: OccurrenceOk(env, o)
    ensures |TallyOf(occurrences, MentionKeys)| == DocumentBearing(occurrences)
  {
    if occurrences != [] {
      var n := |occurrences| - 1;
      assert occurrences[n] in occurrences;
      MentionTotal(env, occurrences[..n]);
      assert |multiset(occurrences[n].documents)| == |occurrences[n].documents|;
    }
  }

  lemma NothingWithin(m: multiset<string>, ids: seq<string>)
    requires ids == [] && forall x <- m :: x in ids
    ensures m == multiset{}
  {}

  lemma {:induction false} CountsTotal(documents: seq<PackDocument>, mentions: multiset<string>)
    requires forall i, j :: 0 <= i < j < |documents| ==> documents[i].id != documents[j].id
    requires JoinsOk(documents, mentions)
    ensures SumCounts(documents) == |mentions|
  {
    if documents == [] {
      NothingWithin(mentions, DocumentIds(documents));
    } else {
      var n := |documents| - 1;
      var last := documents[n];
      assert last in documents;
      var rest := mentions[last.id := 0];
      assert forall d <- documents[..n] :: d in documents;
      forall id | id in rest ensures id in DocumentIds(documents[..n]) {
        assert id in DocumentIds(documents);
        var k :| 0 <= k < |documents| && DocumentIds(documents)[k] == id;
        assert DocumentIds(documents[..n])[k] == id;
      }
      forall d | d in documents[..n] ensures d.count == rest[d.id] {}
      CountsTotal(documents[..n], rest);
      RemoveKey(mentions, last.id);
    }
  }

  lemma RemoveKey(m: multiset<string>, id: string)
    ensures |m| == |m[id := 0]| + m[id]
  {
    assert m == m[id := 0] + multiset{}[id := m[id]];
  }

  lemma UniqueIds(documents: seq<PackDocument>)
    requires Increasing(DocumentIds(documents))
    ensures forall i, j :: 0 <= i < j < |documents| ==> documents[i].id != documents[j].id
  {
    forall i, j | 0 <= i < j < |documents| ensures documents[i].id != documents[j].id {
      IncreasingPair(DocumentIds(documents), i, j);
    }
  }

  lemma {:induction false} IncreasingPair(ids: seq<string>, i: nat, j: nat)
    requires Increasing(ids) && i < j < |ids|
    ensures StringLt(ids[i], ids[j]) && ids[i] != ids[j]
  {
    StringTotalOrder();
    assert StringLt(ids[j-1], ids[j]);
    if i < j - 1 { IncreasingPair(ids, i, j - 1); }
  }

  /** In a pack that reconciles, the documents' occurrence counts add up to the occurrences that
      bear a document. */
  lemma DocumentCountsConserve(env: Environment, pack: Pack)
    requires Reconciles(env, pack)
    ensures SumCounts(pack.documents) == DocumentBearing(pack.occurrences)
  {
    UniqueIds(pack.documents);
    CountsTotal(pack.documents, TallyOf(pack.occurrences, MentionKeys));
    MentionTotal(env, pack.occurrences);
  }

  function SumPairs(m: multiset<(string, Disposition)>, relation: string): nat {
    m[(relation, DirectSemanticDocument)] + m[(relation, SemanticGroupOccurrence)] + m[(relation, DerivedDocumentInput)]
    + m[(relation, StructuredOnlyOccurrence)] + m[(relation, Rejected)]
  }

  lemma AddPair(m: multiset<(string, Disposition)>, r: string, d: Disposition, relation: string)
    ensures SumPairs(m + multiset{(r, d)}, relation) == SumPairs(m, relation) + if r == relation then 1 else 0
  {}

  lemma {:induction false} PairTotal(occurrences: seq<PackOccurrence>, relation: string)
    ensures SumPairs(TallyOf(occurrences, RelationDispositionKey), relation) == TallyOf(occurrences, RelationKey)[relation]
  {
    if occurrences != [] {
      var n := |occurrences| - 1;
      PairTotal(occurrences[..n], relation);
      AddPair(TallyOf(occurrences[..n], RelationDispositionKey), occurrences[n].relation, occurrences[n].disposition, relation);
    }
  }

  lemma {:induction false} RecordsTotal(rows: seq<RelationRow>, inputs: multiset<string>)
    requires forall i, j :: 0 <= i < j < |rows| ==> rows[i].relation != rows[j].relation
    requires forall i :: 0 <= i < |rows| ==> rows[i].records == inputs[rows[i].relation]
    requires forall x <- inputs :: exists i :: 0 <= i < |rows| && rows[i].relation == x
    ensures SumRecords(rows) == |inputs|
  {
    if rows == [] {
      NothingWithin(inputs, []);
    } else {
      var n := |rows| - 1;
      RecordsTotal(rows[..n], inputs[rows[n].relation := 0]);
      RemoveKey(inputs, rows[n].relation);
    }
  }

  lemma NamedRows(rows: seq<RelationRow>, c: Counters)
    requires RelationsOk(rows, c)
    ensures SumRecords(rows) == |c.inputs|
    ensures forall row <- rows :: row.records == c.inputs[row.relation] && row.byDisposition == ByDisposition(c.byRelation, row.relation)
  {
    forall i | 0 <= i < |rows| ensures rows[i].records == c.inputs[rows[i].relation] {
      assert rows[i] in rows;
    }
    forall x | x in c.inputs ensures exists i :: 0 <= i < |rows| && rows[i].relation == x {
      assert x in RelationNames(rows);
      var row :| row in rows && row.relation == x;
      var i :| 0 <= i < |rows| && rows[i] == row;
    }
    RecordsTotal(rows, c.inputs);
  }

  lemma RowTotal(occurrences: seq<PackOccurrence>, row: RelationRow)
    requires row.records == TallyOf(occurrences, RelationKey)[row.relation]
    requires row.byDisposition == ByDisposition(TallyOf(occurrences, RelationDispositionKey), row.relation)
    ensures SumDispositions(row.byDisposition) == row.records
  {
    PairTotal(occurrences, row.relation);
    SumOfPairs(TallyOf(occurrences, RelationDispositionKey), row.relation);
  }

  lemma SumOfPairs(m: multiset<(string, Disposition)>, relation: string)
    ensures SumDispositions(ByDisposition(m, relation)) == SumPairs(m, relation)
  {}

  /** The per-relation totals add up to all occurrences, and each relation's dispositions to its total. */
  lemma RelationTotalsConserve(env: Environment, pack: Pack)
    requires Reconciles(env, pack)
    ensures SumRecords(pack.coverage.relations) == |pack.occurrences|
    ensures forall row <- pack.coverage.relations :: SumDispositions(row.byDisposition) == row.records
  {
    NamedRows(pack.coverage.relations, Count(pack.occurrences));
    InputsCount(pack.occurrences);
    forall row | row in pack.coverage.relations ensures SumDispositions(row.byDisposition) == row.records {
      RowTotal(pack.occurrences, row);
    }
  }

  // ------------------------------------------------------ what was built, verified

  /** What the verifier asks of a supplied pointer beyond what the builder asked. */
  predicate SuppliedOk(env: Environment, row: InputRow) {
    row.supplied.Given? ==>
      var p := row.supplied.pointer;
      && p.schema == POINTER_SCHEMA && p.profile == env.profile && Supports(p.supports)
      && p.locator.relation == JString(row.relation) && HexDigest(p.locator.file)
      && Ordinal(Reread(p.locator.group)) && Ordinal(Reread(p.locator.ordinal))
  }

  /** Rows whose pack verifies: every supplied pointer is complete, and no two rows name one place. */
  ghost predicate RowsVerify(env: Environment, rows: seq<InputRow>) {
    (forall row <- rows :: SuppliedOk(env, row)) && UniqueBy(PlaceOf, rows)
  }

  lemma RowVerifies(env: Environment, row: InputRow, n: NormalRow)
    requires Hexadecimal(env) && Normalise(env, row) == Normal(n)
    ensures OccurrenceOk(env, n.occurrence) <==> SuppliedOk(env, row)
    ensures LocatorOf(n.occurrence) == PlaceOf(row)
  {
    NormaliseShapes(env, row, n);
  }

  lemma EmittedDocumentsOk(env: Environment, documents: DocumentTable, normals: seq<NormalRow>)
    requires IsDocumentTable(documents, normals) && AllShaped(env, normals)
    ensures DocumentsOk(EmitDocuments(documents))
    ensures DocumentIds(EmitDocuments(documents)) == SortedKeys(documents)
  {
    var ids := SortedKeys(documents);
    assert DocumentIds(EmitDocuments(documents)) == ids;
    SortedKeysIncrease(documents);
    forall i | 0 <= i < |ids| ensures DocumentOk(EmitDocuments(documents)[i]) {
      var k := BearerFound(normals, ids[i]);
      assert normals[k] in normals;
    }
  }

  lemma EmittedJoins(env: Environment, documents: DocumentTable, normals: seq<NormalRow>, mentions: multiset<string>)
    requires IsDocumentTable(documents, normals) && AllShaped(env, normals)
    requires mentions == TallyOf(OccurrencesOf(normals), MentionKeys)
    ensures JoinsOk(EmitDocuments(documents), mentions)
  {
    var ids := SortedKeys(documents);
    EmittedDocumentsOk(env, documents, normals);
    forall id | id in mentions ensures id in DocumentIds(EmitDocuments(documents)) {
      MentionsAreBearers(env, normals, id);
    }
    forall d | d in EmitDocuments(documents) ensures d.count == mentions[d.id] {
      MentionsAreBearers(env, normals, d.id);
    }
  }

  lemma AllRowsOk(env: Environment, rows: seq<InputRow>, normals: seq<NormalRow>, out: seq<PackOccurrence>)
    requires Hexadecimal(env) && Normalises(env, rows, normals) && multiset(out) == multiset(OccurrencesOf(normals))
    ensures (forall o <- out :: OccurrenceOk(env, o)) <==> forall row <- rows :: SuppliedOk(env, row)
  {
    var all := OccurrencesOf(normals);
    SameMembers(out, all);
    forall i | 0 <= i < |rows| ensures all[i] in out && (OccurrenceOk(env, all[i]) <==> SuppliedOk(env, rows[i])) {
      assert all[i] in all;
      RowVerifies(env, rows[i], normals[i]);
    }
    if forall row <- rows :: SuppliedOk(env, row) {
      forall o | o in out ensures OccurrenceOk(env, o) {
        assert o in all;
        var i :| 0 <= i < |rows| && all[i] == o;
        assert rows[i] in rows;
      }
    } else {
      var row :| row in rows && !SuppliedOk(env, row);
      var i :| 0 <= i < |rows| && rows[i] == row;
      assert all[i] in out && !OccurrenceOk(env, all[i]);
    }
  }

  lemma LocatorsCarry(env: Environment, rows: seq<InputRow>, normals: seq<NormalRow>)
    requires Hexadecimal(env) && Normalises(env, rows, normals)
    ensures UniqueBy(LocatorOf, OccurrencesOf(normals)) <==> UniqueBy(PlaceOf, rows)
  {
    var all := OccurrencesOf(normals);
    forall i | 0 <= i < |rows| ensures LocatorOf(all[i]) == PlaceOf(rows[i]) {
      RowVerifies(env, rows[i], normals[i]);
    }
    if UniqueBy(LocatorOf, all) {
      forall i, j | 0 <= i < j < |rows| ensures PlaceOf(rows[i]) != PlaceOf(rows[j]) {
        assert LocatorOf(all[i]) != LocatorOf(all[j]);
      }
    }
    if UniqueBy(PlaceOf, rows) {
      forall i, j | 0 <= i < j < |all| ensures LocatorOf(all[i]) != LocatorOf(all[j]) {
        assert PlaceOf(rows[i]) != PlaceOf(rows[j]);
      }
    }
  }

  /** The emitted stream is accepted exactly when the rows are. */
  lemma EmittedStream(env: Environment, rows: seq<InputRow>, occurrences: OccurrenceTable, normals: seq<NormalRow>)
    requires Hexadecimal(env) && Normalises(env, rows, normals) && IsOccurrenceTable(occurrences, normals) && Clean(normals)
    ensures OccurrencesOk(env, EmitOccurrences(occurrences)) <==> RowsVerify(env, rows)
  {
    EmittedOccurrences(occurrences, normals);
    SortedKeysIncrease(occurrences);
    UniqueByPermutation(LocatorOf, EmitOccurrences(occurrences), OccurrencesOf(normals));
    LocatorsCarry(env, rows, normals);
    AllRowsOk(env, rows, normals, EmitOccurrences(occurrences));
  }

  lemma SameMembers<T(!new)>(a: seq<T>, b: seq<T>)
    requires multiset(a) == multiset(b)
    ensures forall x :: x in a <==> x in b
  {
    forall x ensures x in a <==> x in b {
      assert x in a <==> x in multiset(a);
      assert x in b <==> x in multiset(b);
    }
  }

  function One<K>(k: K): multiset<K> { multiset{k} }

  ghost predicate Once<K(!new)>(m: multiset<K>) { forall k :: m[k] <= 1 }

  lemma UniqueAppend<T, K(!new)>(f: T -> K, s: seq<T>, x: T)
    ensures UniqueBy(f, s + [x]) <==> UniqueBy(f, s) && forall i :: 0 <= i < |s| ==> f(s[i]) != f(x)
  {
    var t := s + [x];
    assert t[|s|] == x && forall i :: 0 <= i < |s| ==> t[i] == s[i];
    if UniqueBy(f, t) {
      forall i, j | 0 <= i < j < |s| ensures f(s[i]) != f(s[j]) { assert f(t[i]) != f(t[j]); }
      forall i | 0 <= i < |s| ensures f(s[i]) != f(x) { assert f(t[i]) != f(t[|s|]); }
    }
  }

  lemma OnceAppend<K(!new)>(m: multiset<K>, k: K)
    ensures Once(m + multiset{k}) <==> Once(m) && k !in m
  {
    if Once(m + multiset{k}) {
      forall x ensures m[x] <= 1 { assert (m + multiset{k})[x] <= 1; }
      assert (m + multiset{k})[k] <= 1;
    }
  }

  lemma {:induction false} KeyIn<T, K(!new)>(f: T -> K, s: seq<T>, k: K)
    ensures k in TallyOf(s, x => One(f(x))) <==> exists i :: 0 <= i < |s| && f(s[i]) == k
  {
    var g := x => One(f(x));
    if k in TallyOf(s, g) {
      var i := TallyMember(s, g, k);
    }
    if i :| 0 <= i < |s| && f(s[i]) == k { TallyIncludes(s, g, i, k); }
  }

  lemma {:induction false} UniqueIsOnce<T, K(!new)>(f: T -> K, s: seq<T>)
    ensures UniqueBy(f, s) <==> Once(TallyOf(s, x => One(f(x))))
  {
    if s != [] {
      var n := |s| - 1;
      var front, x := s[..n], s[n];
      assert s == front + [x];
      UniqueIsOnce(f, front);
      UniqueAppend(f, front, x);
      OnceAppend(TallyOf(front, y => One(f(y))), f(x));
      KeyIn(f, front, f(x));
    }
  }

  lemma UniqueByPermutation<T, K(!new)>(f: T -> K, a: seq<T>, b: seq<T>)
    requires multiset(a) == multiset(b)
    ensures UniqueBy(f, a) <==> UniqueBy(f, b)
  {
    UniqueIsOnce(f, a);
    UniqueIsOnce(f, b);
    TallyPermutation(a, b, x => One(f(x)));
  }

  lemma {:induction false} AllSearchable(documents: seq<PackDocument>)
    requires forall i :: 0 <= i < |documents| ==> documents[i].body.searchable
    ensures |TallyOf(documents, SearchableKey)| == |documents|
  {
    if documents != [] { AllSearchable(documents[..|documents|-1]); }
  }

  lemma EmittedSearchable(env: Environment, documents: DocumentTable, normals: seq<NormalRow>)
    requires IsDocumentTable(documents, normals) && AllShaped(env, normals)
    ensures |TallyOf(EmitDocuments(documents), SearchableKey)| == |EmitDocuments(documents)|
  {
    var ids := SortedKeys(documents);
    forall i | 0 <= i < |ids| ensures documents[ids[i]].0.searchable {
      var k := BearerFound(normals, ids[i]);
      assert normals[k] in normals;
    }
    AllSearchable(EmitDocuments(documents));
  }

  lemma EmittedRelations(c: Counters, declared: set<string>)
    ensures RelationsOk(RelationRows(c, Names(declared, c)), c)
  {
    var names := Names(declared, c);
    var rows := RelationRows(c, names);
    forall i, j | 0 <= i < j < |rows| ensures rows[i].relation != rows[j].relation {
      assert names[i] != names[j];
    }
    forall relation | relation in c.inputs ensures relation in RelationNames(rows) {
      RowsCover(c, names, relation);
    }
  }

  lemma EmittedCoverage(c: Counters, declared: set<string>, documents: seq<PackDocument>, occurrences: seq<PackOccurrence>)
    requires c == Count(occurrences) && |TallyOf(documents, SearchableKey)| == |documents|
    ensures CoverageOk(CoverageOf(c, Names(declared, c), documents, |occurrences|), documents, occurrences, c)
  {
    InputsCount(occurrences);
    EmittedRelations(c, declared);
  }

  lemma RowsCover(c: Counters, names: seq<string>, relation: string)
    ensures relation in RelationNames(RelationRows(c, names)) <==> relation in names
  {
    var rows := RelationRows(c, names);
    if relation in names {
      var i :| 0 <= i < |names| && names[i] == relation;
      assert rows[i] in rows;
    }
  }

  /** A built pack passes verification exactly when the rows, as they came in, verify: each supplied
      pointer names the pointer schema, the record profile, its own relation, a digest, two row
      numbers and a support, and no two rows name one place. */
  lemma BuiltVerifies(env: Environment, declared: set<string>, rows: seq<InputRow>, normals: seq<NormalRow>, pack: Pack)
    requires Hexadecimal(env) && Normalises(env, rows, normals) && Clean(normals) && IsPack(pack, normals, declared)
    ensures Reconciles(env, pack) <==> RowsVerify(env, rows)
    ensures |pack.occurrences| == |rows|
  {
    NormalsShaped(env, rows, normals);
    var documents: DocumentTable, occurrences: OccurrenceTable :|
      IsDocumentTable(documents, normals) && IsOccurrenceTable(occurrences, normals)
      && pack == PackOf(documents, occurrences, Count(OccurrencesOf(normals)), declared);
    EmittedDocumentsOk(env, documents, normals);
    EmittedStream(env, rows, occurrences, normals);
    EmittedOccurrences(occurrences, normals);
    TallyPermutation(pack.occurrences, OccurrencesOf(normals), MentionKeys);
    EmittedJoins(env, documents, normals, TallyOf(pack.occurrences, MentionKeys));
    CountPermutation(pack.occurrences, OccurrencesOf(normals));
    EmittedSearchable(env, documents, normals);
    EmittedCoverage(Count(pack.occurrences), declared, pack.documents, pack.occurrences);
  }
}
