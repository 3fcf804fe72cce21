/** Building a projection pack: one upsert and one occurrence per input row, then sorted output. */
module PackBuilder {
  import opened Ordering
  import opened Wrappers
  import opened Grouping
  import opened PackTypes

  type DocumentTable = map<string, (Body, nat)>
  type OccurrenceTable = map<string, PackOccurrence>

  // ----------------------------------------------------------------- the specification

  /** Rows of one semantic group agree on the document, and no two rows share an occurrence. */
  ghost predicate Clean(rows: seq<NormalRow>) {
    && (forall i, j :: 0 <= i < j < |rows| ==> Agree(rows[i], rows[j]))
    && forall i, j :: 0 <= i < j < |rows| ==> rows[i].occurrence.id != rows[j].occurrence.id
  }

  predicate Agree(a: NormalRow, b: NormalRow) {
    a.document.Some? && b.document.Some? && a.document.value.0 == b.document.value.0 ==> a.document.value.1 == b.document.value.1
  }

  function OccurrencesOf(rows: seq<NormalRow>): seq<PackOccurrence> {
    seq(|rows|, i requires 0 <= i < |rows| => rows[i].occurrence)
  }

  /** How many rows bear the document. */
  function Bearers(rows: seq<NormalRow>, id: string): nat {
    if rows == [] then 0
    else
      var last := rows[|rows|-1].document;
      Bearers(rows[..|rows|-1], id) + if last.Some? && last.value.0 == id then 1 else 0
  }

  /** The document table after the rows: exactly the documents borne, each with its body and its bearers. */
  ghost predicate IsDocumentTable(documents: DocumentTable, rows: seq<NormalRow>) {
    && (forall id :: id in documents <==> Bearers(rows, id) > 0)
    && (forall id :: id in documents ==> documents[id].1 == Bearers(rows, id))
    && forall i :: 0 <= i < |rows| && rows[i].document.Some? ==>
         rows[i].document.value.0 in documents && documents[rows[i].document.value.0].0 == rows[i].document.value.1
  }

  ghost predicate IsOccurrenceTable(occurrences: OccurrenceTable, rows: seq<NormalRow>) {
    && (forall i :: 0 <= i < |rows| ==> rows[i].occurrence.id in occurrences && occurrences[rows[i].occurrence.id] == rows[i].occurrence)
    && (forall id :: id in occurrences ==> occurrences[id].id == id && occurrences[id] in OccurrencesOf(rows))
    && |occurrences| == |rows|
  }

  // -------------------------------------------------------------- the staging tables

  /** The staging database of one build. */
  class Staging {
    var documents: DocumentTable
    var occurrences: OccurrenceTable

    constructor ()
      ensures documents == map[] && occurrences == map[]
    {
      documents, occurrences := map[], map[];
    }

    /** INSERT ... ON CONFLICT DO UPDATE ... WHERE payload = excluded.payload, then a plain INSERT. */
    method Insert(row: NormalRow) returns (error: Option<BuildError>)
      modifies this
      ensures error == if Collides(old(documents), row.document) then Some(GroupCollision)
                       else if row.occurrence.id in old(occurrences) then Some(DuplicateOccurrence) else None
      ensures error == None ==> documents == Upserted(old(documents), row.document)
      ensures error == None ==> occurrences == old(occurrences)[row.occurrence.id := row.occurrence]
    {
      if row.document.Some? {
        var (id, body) := row.document.value;
        if id !in documents {
          documents := documents[id := (body, 1)];
        } else if documents[id].0 == body {
          documents := documents[id := (body, documents[id].1 + 1)];
        } else {
          return Some(GroupCollision);
        }
      }
      if row.occurrence.id in occurrences {
        return Some(DuplicateOccurrence);
      }
      occurrences := occurrences[row.occurrence.id := row.occurrence];
      error := None;
    }
  }

  /** The upsert changes no row: the stored payload differs. */
  predicate Collides(documents: DocumentTable, document: Option<(string, Body)>) {
    document.Some? && document.value.0 in documents && documents[document.value.0].0 != document.value.1
  }

  function Upserted(documents: DocumentTable, document: Option<(string, Body)>): DocumentTable {
    match document
    case None => documents
    case Some((id, body)) => documents[id := (body, if id in documents then documents[id].1 + 1 else 1)]
  }

  // ----------------------------------------------------------------------- steps

  lemma BearersAppend(rows: seq<NormalRow>, row: NormalRow, id: string)
    ensures Bearers(rows + [row], id)
         == Bearers(rows, id) + if row.document.Some? && row.document.value.0 == id then 1 else 0
  {
    assert (rows + [row])[..|rows|] == rows;
  }

  lemma {:induction false} BearerFound(rows: seq<NormalRow>, id: string) returns (i: nat)
    requires Bearers(rows, id) > 0
    ensures i < |rows| && rows[i].document.Some? && rows[i].document.value.0 == id
  {
    var n := |rows| - 1;
    if Bearers(rows[..n], id) > 0 {
      i := BearerFound(rows[..n], id);
    } else {
      i := n;
    }
  }

  lemma {:induction false} BearerCounted(rows: seq<NormalRow>, i: nat)
    requires i < |rows| && rows[i].document.Some?
    ensures Bearers(rows, rows[i].document.value.0) > 0
  {
    var n := |rows| - 1;
    if i < n { BearerCounted(rows[..n], i); }
  }

  lemma DocumentStep(documents: DocumentTable, rows: seq<NormalRow>, row: NormalRow)
    requires IsDocumentTable(documents, rows)
    requires !Collides(documents, row.document)
    ensures IsDocumentTable(Upserted(documents, row.document), rows + [row])
  {
    forall id ensures Bearers(rows + [row], id)
      == Bearers(rows, id) + if row.document.Some? && row.document.value.0 == id then 1 else 0
    {
      BearersAppend(rows, row, id);
    }
  }

  lemma OccurrenceStep(occurrences: OccurrenceTable, rows: seq<NormalRow>, row: NormalRow)
    requires IsOccurrenceTable(occurrences, rows) && row.occurrence.id !in occurrences
    ensures IsOccurrenceTable(occurrences[row.occurrence.id := row.occurrence], rows + [row])
  {
    assert OccurrencesOf(rows + [row]) == OccurrencesOf(rows) + [row.occurrence];
  }

  lemma CleanStep(documents: DocumentTable, occurrences: OccurrenceTable, rows: seq<NormalRow>, row: NormalRow)
    requires Clean(rows) && IsDocumentTable(documents, rows) && IsOccurrenceTable(occurrences, rows)
    requires !Collides(documents, row.document)
    requires row.occurrence.id !in occurrences
    ensures Clean(rows + [row])
  {
    forall i | 0 <= i < |rows| ensures Agree(rows[i], row) && rows[i].occurrence.id != row.occurrence.id {}
  }

  lemma CollisionIsUnclean(documents: DocumentTable, rows: seq<NormalRow>, k: nat)
    requires k < |rows| && IsDocumentTable(documents, rows[..k])
    requires Collides(documents, rows[k].document)
    ensures !Clean(rows)
  {
    var i := BearerFound(rows[..k], rows[k].document.value.0);
    assert rows[..k][i] == rows[i] && !Agree(rows[i], rows[k]);
  }

  lemma DuplicateIsUnclean(occurrences: OccurrenceTable, rows: seq<NormalRow>, k: nat)
    requires k < |rows| && IsOccurrenceTable(occurrences, rows[..k]) && rows[k].occurrence.id in occurrences
    ensures !Clean(rows)
  {
    var o := occurrences[rows[k].occurrence.id];
    var i :| 0 <= i < k && OccurrencesOf(rows[..k])[i] == o;
    assert rows[i].occurrence.id == rows[k].occurrence.id;
  }

  // ------------------------------------------------------------------ sorted output

  function EmitDocuments(documents: DocumentTable): seq<PackDocument> {
    var ids := SortedKeys(documents);
    seq(|ids|, i requires 0 <= i < |ids| => PackDocument(ids[i], documents[ids[i]].0, documents[ids[i]].1))
  }

  function EmitOccurrences(occurrences: OccurrenceTable): seq<PackOccurrence> {
    var ids := SortedKeys(occurrences);
    seq(|ids|, i requires 0 <= i < |ids| => occurrences[ids[i]])
  }

  function CoverageOf(c: Counters, names: seq<string>, documents: seq<PackDocument>, occurrences: nat): Coverage {
    Coverage(|c.inputs|, occurrences, c.byDisposition, |documents|, |documents|, TallyOf(documents, KindKey),
             RelationRows(c, names), c.reasons, occurrences, occurrences)
  }

  // -------------------------------------------------------------------- the build

  ghost predicate Normalises(env: Environment, rows: seq<InputRow>, normals: seq<NormalRow>) {
    |normals| == |rows| && forall i :: 0 <= i < |rows| ==> Normalise(env, rows[i]) == Normal(normals[i])
  }

  /** Declared relations are reported even when no row arrives. */
  function Names(declared: set<string>, c: Counters): seq<string> { SortedNames(declared + set r | r in c.inputs) }

  function PackOf(documents: DocumentTable, occurrences: OccurrenceTable, c: Counters, declared: set<string>): Pack {
    Pack(EmitDocuments(documents), EmitOccurrences(occurrences),
         CoverageOf(c, Names(declared, c), EmitDocuments(documents), |EmitOccurrences(occurrences)|))
  }

  datatype BuildResult = Built(pack: Pack) | Failed(error: BuildError)

  method CountOne(c: Counters, o: PackOccurrence, ghost occurrences: seq<PackOccurrence>) returns (c': Counters)
    requires c == Count(occurrences)
    ensures c' == Count(occurrences + [o])
  {
    TallyAppend(occurrences, o, RelationKey);
    TallyAppend(occurrences, o, RelationDispositionKey);
    TallyAppend(occurrences, o, DispositionKey);
    TallyAppend(occurrences, o, ReasonKeys);
    var reasons := c.reasons;
    for i := 0 to |o.reasons|
      invariant reasons == c.reasons + Reasons(o.disposition, o.reasons[..i])
    {
      PrefixStep(o.reasons, i);
      reasons := reasons + multiset{(o.disposition, o.reasons[i])};
    }
    TakeAll(o.reasons);
    c' := Counters(c.inputs + multiset{o.relation}, c.byRelation + multiset{(o.relation, o.disposition)},
                   c.byDisposition + multiset{o.disposition}, reasons);
  }

  /** What the row loop keeps. */
  ghost predicate Staged(env: Environment, rows: seq<InputRow>, normals: seq<NormalRow>, documents: DocumentTable,
                         occurrences: OccurrenceTable, c: Counters) {
    && Normalises(env, rows, normals) && Clean(normals)
    && IsDocumentTable(documents, normals) && IsOccurrenceTable(occurrences, normals) && c == Count(OccurrencesOf(normals))
  }

  lemma StagedStep(env: Environment, rows: seq<InputRow>, i: nat, normals: seq<NormalRow>, documents: DocumentTable,
                   occurrences: OccurrenceTable, c: Counters, row: NormalRow, c': Counters)
    requires i < |rows| && Staged(env, rows[..i], normals, documents, occurrences, c) && Normalise(env, rows[i]) == Normal(row)
    requires !Collides(documents, row.document) && row.occurrence.id !in occurrences
    requires c' == Count(OccurrencesOf(normals) + [row.occurrence])
    ensures Staged(env, rows[..i+1], normals + [row], Upserted(documents, row.document), occurrences[row.occurrence.id := row.occurrence], c')
  {
    DocumentStep(documents, normals, row);
    OccurrenceStep(occurrences, normals, row);
    CleanStep(documents, occurrences, normals, row);
    OccurrencesAppend(normals, row);
    NormalisesStep(env, rows, i, normals, row);
  }

  lemma NormalisesStep(env: Environment, rows: seq<InputRow>, i: nat, normals: seq<NormalRow>, row: NormalRow)
    requires i < |rows| && Normalises(env, rows[..i], normals) && Normalise(env, rows[i]) == Normal(row)
    ensures Normalises(env, rows[..i+1], normals + [row])
  {}

  /** The row loop: normalise, upsert, count. */
  method StageRows(env: Environment, rows: seq<InputRow>)
    returns (error: Option<BuildError>, db: Staging, counters: Counters, ghost normals: seq<NormalRow>)
    ensures fresh(db)
    ensures error == None ==> Staged(env, rows, normals, db.documents, db.occurrences, counters)
    ensures error != None ==> forall ns :: Normalises(env, rows, ns) ==> !Clean(ns)
    ensures error != Some(ClosureFailure)
  {
    db := new Staging();
    counters, error, normals := Counters(multiset{}, multiset{}, multiset{}, multiset{}), None, [];
    for i := 0 to |rows|
      invariant error == None && fresh(db)
      invariant Staged(env, rows[..i], normals, db.documents, db.occurrences, counters)
    {
      var n := Normalise(env, rows[i]);
      if n.Invalid? {
        error := Some(n.error);
        return;
      }
      ghost var documents, occurrences, before := db.documents, db.occurrences, counters;
      error := db.Insert(n.row);
      if error.Some? {
        InsertFails(env, rows, i, normals, n.row, documents, occurrences);
        return;
      }
      counters := CountOne(counters, n.row.occurrence, OccurrencesOf(normals));
      StagedStep(env, rows, i, normals, documents, occurrences, before, n.row, counters);
      normals := normals + [n.row];
    }
    TakeAll(rows);
  }

  lemma OccurrencesAppend(rows: seq<NormalRow>, row: NormalRow)
    ensures OccurrencesOf(rows + [row]) == OccurrencesOf(rows) + [row.occurrence]
  {}

  lemma InsertFails(env: Environment, rows: seq<InputRow>, k: nat, normals: seq<NormalRow>, row: NormalRow,
                    documents: DocumentTable, occurrences: OccurrenceTable)
    requires k < |rows| && Normalises(env, rows[..k], normals) && Normalise(env, rows[k]) == Normal(row)
    requires IsDocumentTable(documents, normals) && IsOccurrenceTable(occurrences, normals)
    requires Collides(documents, row.document) || row.occurrence.id in occurrences
    ensures forall ns :: Normalises(env, rows, ns) ==> !Clean(ns)
  {
    forall ns | Normalises(env, rows, ns) ensures !Clean(ns) {
      assert ns[..k] == normals && ns[k] == row;
      if Collides(documents, row.document) {
        CollisionIsUnclean(documents, ns, k);
      } else {
        DuplicateIsUnclean(occurrences, ns, k);
      }
    }
  }

  lemma {:induction false} InputsCount(occurrences: seq<PackOccurrence>)
    ensures |TallyOf(occurrences, RelationKey)| == |occurrences|
  {
    if occurrences != [] { InputsCount(occurrences[..|occurrences|-1]); }
  }

  /** The build succeeds exactly on rows that normalise and are clean; its own closure check never fails. */
  method BuildPack(env: Environment, declared: set<string>, rows: seq<InputRow>) returns (r: BuildResult, ghost normals: seq<NormalRow>)
    ensures r.Built? <==> exists ns :: Normalises(env, rows, ns) && Clean(ns)
    ensures r.Built? ==> Normalises(env, rows, normals) && Clean(normals) && IsPack(r.pack, normals, declared)
    ensures r != Failed(ClosureFailure)
  {
    var error, db, counters;
    error, db, counters, normals := StageRows(env, rows);
    if error.Some? {
      return Failed(error.value), normals;
    }
    var inputs := |counters.inputs|;
    InputsCount(OccurrencesOf(normals));
    if |EmitOccurrences(db.occurrences)| != inputs {
      assert false; // the source raises a closure failure here
    }
    r := Built(PackOf(db.documents, db.occurrences, counters, declared));
  }

  ghost predicate IsPack(pack: Pack, normals: seq<NormalRow>, declared: set<string>) {
    exists documents: DocumentTable, occurrences: OccurrenceTable ::
      IsDocumentTable(documents, normals) && IsOccurrenceTable(occurrences, normals)
      && pack == PackOf(documents, occurrences, Count(OccurrencesOf(normals)), declared)
  }
}
