/** The public path: rows read from Parquet files, located by their row groups, always verify. */
module PackSources {
  import opened Ordering
  import opened Grouping
  import opened RowLocation
  import opened JsonPointer
  import opened PackTypes
  import opened PackBuilder
  import opened PackVerifier
  import opened PackTheorem

  datatype StoredRow = StoredRow(event: string, typedEvent: string, support: string)

  /** One typed relation: its file digest, its row-group sizes and its rows in file order. */
  datatype Source = Source(relation: string, file: string, sizes: seq<nat>, rows: seq<StoredRow>)

  ghost predicate WellFormed(s: Source) { |s.rows| == FileRows(s.sizes) && IsSha256(s.file) }

  /** Relation names are unique and no file has rows its metadata does not announce. */
  ghost predicate SourcesOk(sources: seq<Source>) {
    && (forall s <- sources :: WellFormed(s))
    && forall i, j :: 0 <= i < j < |sources| ==> sources[i].relation != sources[j].relation
  }

  function RowAt(s: Source, i: nat): (row: InputRow)
    requires i < |s.rows| == FileRows(s.sizes)
    ensures row.relation == s.relation && row.supplied == Nothing
    ensures row.group.JInt? && row.group.number >= 0 && row.ordinal.JInt? && row.ordinal.number >= 0
    ensures var p := Place(row.group.number, row.ordinal.number); Exists(s.sizes, p) && FileRowOf(s.sizes, p) == i
  {
    LocateFinds(s.sizes, i);
    var p := Locate(s.sizes, i);
    InputRow(s.relation, s.rows[i].event, s.rows[i].typedEvent, s.rows[i].support, JString(s.file), JInt(p.group), JInt(p.ordinal),
             Nothing)
  }

  function RowsOf(s: Source): (r: seq<InputRow>)
    requires WellFormed(s)
    ensures |r| == |s.rows| && forall i :: 0 <= i < |r| ==> r[i] == RowAt(s, i)
  {
    seq(|s.rows|, i requires 0 <= i < |s.rows| => RowAt(s, i))
  }

  function AllRows(sources: seq<Source>): seq<InputRow>
    requires forall s <- sources :: WellFormed(s)
  {
    if sources == [] then [] else AllRows(sources[..|sources|-1]) + RowsOf(sources[|sources|-1])
  }

  function Relations(sources: seq<Source>): set<string> { set s | s in sources :: s.relation }

  lemma FileUnique(s: Source)
    requires WellFormed(s)
    ensures UniqueBy(PlaceOf, RowsOf(s))
  {
    var rows := RowsOf(s);
    forall i, j | 0 <= i < j < |rows| ensures PlaceOf(rows[i]) != PlaceOf(rows[j]) {
      assert FileRowOf(s.sizes, Place(rows[i].group.number, rows[i].ordinal.number)) == i;
      assert FileRowOf(s.sizes, Place(rows[j].group.number, rows[j].ordinal.number)) == j;
    }
  }

  lemma {:induction false} RowFrom(sources: seq<Source>, i: nat)
    requires (forall s <- sources :: WellFormed(s)) && i < |AllRows(sources)|
    ensures AllRows(sources)[i].supplied == Nothing
    ensures exists s :: s in sources && s.relation == AllRows(sources)[i].relation
  {
    var n := |sources| - 1;
    if i < |AllRows(sources[..n])| {
      RowFrom(sources[..n], i);
    } else {
      var rows := RowsOf(sources[n]);
      assert AllRows(sources)[i] == rows[i - |AllRows(sources[..n])|];
      assert sources[n] in sources;
    }
  }

  /** Rows of distinct relations, or of one file, never name the same place. */
  lemma {:induction false} PlacesUnique(sources: seq<Source>)
    requires SourcesOk(sources)
    ensures UniqueBy(PlaceOf, AllRows(sources))
  {
    if sources != [] {
      var n := |sources| - 1;
      PlacesUnique(sources[..n]);
      FileUnique(sources[n]);
      var front, last := AllRows(sources[..n]), RowsOf(sources[n]);
      forall i, j | 0 <= i < |front| && 0 <= j < |last| ensures PlaceOf(front[i]) != PlaceOf(last[j]) {
        RowFrom(sources[..n], i);
        assert last[j] == RowAt(sources[n], j);
      }
      UniqueConcat(PlaceOf, front, last);
    }
  }

  // ------------------------------------------------------------------- the replay

  lemma {:induction false} SameRelations(env: Environment, rows: seq<InputRow>, normals: seq<NormalRow>)
    requires Hexadecimal(env) && Normalises(env, rows, normals)
    ensures TallyOf(rows, RowRelation) == TallyOf(OccurrencesOf(normals), RelationKey)
  {
    if rows != [] {
      var n := |rows| - 1;
      SameRelations(env, rows[..n], normals[..n]);
      NormaliseShapes(env, rows[n], normals[n]);
      assert OccurrencesOf(normals)[..n] == OccurrencesOf(normals[..n]);
    }
  }

  lemma RowReplays(env: Environment, pack: Pack, rows: seq<InputRow>, normals: seq<NormalRow>, documents: DocumentTable,
                   occurrences: OccurrenceTable, i: nat)
    requires Normalises(env, rows, normals) && i < |rows|
    requires IsDocumentTable(documents, normals) && IsOccurrenceTable(occurrences, normals)
    requires pack.documents == EmitDocuments(documents) && pack.occurrences == EmitOccurrences(occurrences)
    ensures Replays(env, pack, rows[i])
  {
    var n := normals[i];
    var k :| 0 <= k < |SortedKeys(occurrences)| && SortedKeys(occurrences)[k] == n.occurrence.id;
    assert pack.occurrences[k] == n.occurrence;
    if n.document.Some? {
      var m :| 0 <= m < |SortedKeys(documents)| && SortedKeys(documents)[m] == n.document.value.0;
      assert pack.documents[m].id == n.document.value.0 && pack.documents[m].body == n.document.value.1;
      assert pack.documents[m] in pack.documents;
    }
  }

  lemma CoverageNames(c: Counters, declared: set<string>, documents: seq<PackDocument>, occurrences: nat)
    requires forall r <- c.inputs :: r in declared
    ensures RelationNames(CoverageOf(c, Names(declared, c), documents, occurrences).relations) == declared
  {
    forall x ensures x in RelationNames(RelationRows(c, Names(declared, c))) <==> x in declared {
      RowsCover(c, Names(declared, c), x);
    }
  }

  lemma InputsDeclared(sources: seq<Source>, r: string)
    requires (forall s <- sources :: WellFormed(s)) && r in TallyOf(AllRows(sources), RowRelation)
    ensures r in Relations(sources)
  {
    var i := TallyMember(AllRows(sources), RowRelation, r);
    RowFrom(sources, i);
  }

  /** Rows read from Parquet bring no pointer of their own and name their own places. */
  lemma ReadRowsVerify(env: Environment, sources: seq<Source>)
    requires SourcesOk(sources)
    ensures RowsVerify(env, AllRows(sources))
  {
    PlacesUnique(sources);
    forall i | 0 <= i < |AllRows(sources)| ensures SuppliedOk(env, AllRows(sources)[i]) {
      RowFrom(sources, i);
    }
  }

  /** Whatever is built from mounted Parquet relations passes the verifier that re-reads them. */
  lemma PublicBuildVerifies(env: Environment, sources: seq<Source>, normals: seq<NormalRow>, pack: Pack)
    requires Hexadecimal(env) && SourcesOk(sources) && Normalises(env, AllRows(sources), normals) && Clean(normals)
    requires IsPack(pack, normals, Relations(sources))
    ensures Reconciles(env, pack) && ReplayOk(env, pack, Relations(sources), AllRows(sources))
  {
    ReadRowsVerify(env, sources);
    BuiltVerifies(env, Relations(sources), AllRows(sources), normals, pack);
    PublicReplay(env, sources, normals, pack);
  }

  lemma PublicReplay(env: Environment, sources: seq<Source>, normals: seq<NormalRow>, pack: Pack)
    requires Hexadecimal(env) && SourcesOk(sources) && Normalises(env, AllRows(sources), normals) && Clean(normals)
    requires IsPack(pack, normals, Relations(sources))
    ensures ReplayOk(env, pack, Relations(sources), AllRows(sources))
  {
    var rows, declared := AllRows(sources), Relations(sources);
    var documents: DocumentTable, occurrences: OccurrenceTable :|
      IsDocumentTable(documents, normals) && IsOccurrenceTable(occurrences, normals)
      && pack == PackOf(documents, occurrences, Count(OccurrencesOf(normals)), declared);
    forall i | 0 <= i < |rows| ensures Replays(env, pack, rows[i]) {
      RowReplays(env, pack, rows, normals, documents, occurrences, i);
    }
    SameRelations(env, rows, normals);
    EmittedOccurrences(occurrences, normals);
    TallyPermutation(pack.occurrences, OccurrencesOf(normals), RelationKey);
    forall r | r in Count(OccurrencesOf(normals)).inputs ensures r in declared {
      InputsDeclared(sources, r);
    }
    CoverageNames(Count(OccurrencesOf(normals)), declared, pack.documents, |pack.occurrences|);
  }
}
