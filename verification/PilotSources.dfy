/** Every pack that the pack builder writes is a reconciled pack for the pilot. */
module PilotSources {
  import opened Ordering
  import opened Grouping
  import opened PackTypes
  import opened PackBuilder
  import opened PackVerifier
  import opened PackTheorem
  import PilotFrame
  import PilotBuilder
  import PilotVerifier
  import PilotClosure
  import PilotTheorem
  import Apportionment

  /** A document as the pilot reads it; `facets` gives its facet names. */
  function PilotDocument(facets: Body -> seq<string>, d: PackDocument): PilotFrame.Document {
    PilotFrame.Document(d.id, [d.body.relation], facets(d.body), d.count, d.body.content)
  }

  function PilotOccurrence(o: PackOccurrence): PilotFrame.Occurrence {
    PilotFrame.Occurrence(o.id, o.relation, o.documents, o.content)
  }

  function PilotDocuments(facets: Body -> seq<string>, documents: seq<PackDocument>): seq<PilotFrame.Document> {
    seq(|documents|, i requires 0 <= i < |documents| => PilotDocument(facets, documents[i]))
  }

  function PilotOccurrences(occurrences: seq<PackOccurrence>): seq<PilotFrame.Occurrence> {
    seq(|occurrences|, i requires 0 <= i < |occurrences| => PilotOccurrence(occurrences[i]))
  }

  function PilotPack(facets: Body -> seq<string>, pack: Pack): PilotFrame.Pack {
    PilotFrame.Pack(PilotDocuments(facets, pack.documents), PilotOccurrences(pack.occurrences), pack.coverage.records)
  }

  // ------------------------------------------------------------------- sorted streams

  lemma IncreasingAscends(ids: seq<string>)
    requires Increasing(ids) && forall i :: 0 <= i < |ids| ==> ids[i] != ""
    ensures PilotVerifier.Ascends(ids)
  {
    forall i | 0 <= i < |ids| ensures PilotVerifier.AboveAt(ids, i) {
      PilotClosure.StringLtFacts(ids[i], ids[i], "");
    }
  }

  lemma DocumentsAscend(facets: Body -> seq<string>, documents: seq<PackDocument>)
    requires DocumentsOk(documents)
    ensures PilotVerifier.Ascends(PilotVerifier.DocumentIds(PilotDocuments(facets, documents)))
  {
    forall i | 0 <= i < |documents| ensures documents[i].id != "" {
      assert DocumentOk(documents[i]);
    }
    assert PilotVerifier.DocumentIds(PilotDocuments(facets, documents)) == DocumentIds(documents);
    IncreasingAscends(DocumentIds(documents));
  }

  lemma OccurrencesAscend(env: Environment, normals: seq<NormalRow>, occurrences: seq<PackOccurrence>)
    requires AllShaped(env, normals) && Increasing(OccurrenceIds(occurrences))
    requires forall o <- occurrences :: o in OccurrencesOf(normals)
    ensures PilotVerifier.Ascends(PilotVerifier.OccurrenceIds(PilotOccurrences(occurrences)))
  {
    forall i | 0 <= i < |occurrences| ensures occurrences[i].id != "" {
      assert occurrences[i] in occurrences;
      var k :| 0 <= k < |normals| && OccurrencesOf(normals)[k] == occurrences[i];
      assert normals[k] in normals;
    }
    assert PilotVerifier.OccurrenceIds(PilotOccurrences(occurrences)) == OccurrenceIds(occurrences);
    IncreasingAscends(OccurrenceIds(occurrences));
  }

  lemma {:induction false} SameMentions(occurrences: seq<PackOccurrence>)
    ensures PilotBuilder.Mentions(PilotOccurrences(occurrences)) == TallyOf(occurrences, MentionKeys)
  {
    if occurrences != [] {
      var n := |occurrences| - 1;
      SameMentions(occurrences[..n]);
      PilotBuilder.MentionsAppend(PilotOccurrences(occurrences[..n]), PilotOccurrence(occurrences[n]));
      assert PilotOccurrences(occurrences) == PilotOccurrences(occurrences[..n]) + [PilotOccurrence(occurrences[n])];
    }
  }

  // ------------------------------------------------------------------ one row at a time

  lemma DocumentStructured(env: Environment, facets: Body -> seq<string>, table: DocumentTable, normals: seq<NormalRow>, d: PackDocument)
    requires AllShaped(env, normals) && IsDocumentTable(table, normals) && d in EmitDocuments(table) && "" !in facets(d.body)
    ensures PilotFrame.Structure(PilotDocument(facets, d)).Some?
  {
    var i :| 0 <= i < |SortedKeys(table)| && EmitDocuments(table)[i] == d;
    var k := BearerFound(normals, d.id);
    assert normals[k] in normals;
  }

  lemma OccurrenceBinds(env: Environment, facets: Body -> seq<string>, table: DocumentTable, normals: seq<NormalRow>, o: PackOccurrence)
    requires AllShaped(env, normals) && IsDocumentTable(table, normals) && o in OccurrencesOf(normals)
    ensures PilotClosure.BindsOne(PilotDocuments(facets, EmitDocuments(table)), PilotOccurrence(o))
  {
    var k :| 0 <= k < |normals| && OccurrencesOf(normals)[k] == o;
    var n, documents := normals[k], EmitDocuments(table);
    assert n in normals;
    if n.document.Some? {
      var i :| 0 <= i < |SortedKeys(table)| && SortedKeys(table)[i] == n.document.value.0;
      assert PilotDocuments(facets, documents)[i] == PilotDocument(facets, documents[i]);
      assert documents[i].body.relation == o.relation;
    }
  }

  /** A pack built from rows satisfies what the pilot asks of one, whether or not it verifies. */
  lemma BuiltPackReconciled(env: Environment, facets: Body -> seq<string>, declared: set<string>, rows: seq<InputRow>,
                            normals: seq<NormalRow>, pack: Pack)
    requires Hexadecimal(env) && Normalises(env, rows, normals) && Clean(normals) && IsPack(pack, normals, declared)
    requires forall b :: "" !in facets(b)
    ensures PilotClosure.Reconciled(PilotPack(facets, pack))
  {
    NormalsShaped(env, rows, normals);
    var table: DocumentTable, occurrences: OccurrenceTable :|
      IsDocumentTable(table, normals) && IsOccurrenceTable(occurrences, normals)
      && pack == PackOf(table, occurrences, Count(OccurrencesOf(normals)), declared);
    EmittedDocumentsOk(env, table, normals);
    EmittedOccurrences(occurrences, normals);
    SortedKeysIncrease(occurrences);
    SameMembers(pack.occurrences, OccurrencesOf(normals));
    TablesReconciled(env, facets, table, normals, pack);
  }

  lemma TablesReconciled(env: Environment, facets: Body -> seq<string>, table: DocumentTable, normals: seq<NormalRow>, pack: Pack)
    requires AllShaped(env, normals) && IsDocumentTable(table, normals) && pack.documents == EmitDocuments(table)
    requires DocumentsOk(pack.documents) && Increasing(OccurrenceIds(pack.occurrences))
    requires multiset(pack.occurrences) == multiset(OccurrencesOf(normals)) && forall o <- pack.occurrences :: o in OccurrencesOf(normals)
    requires forall b :: "" !in facets(b)
    ensures PilotClosure.Reconciled(PilotPack(facets, pack))
  {
    var p := PilotPack(facets, pack);
    DocumentsAscend(facets, pack.documents);
    OccurrencesAscend(env, normals, pack.occurrences);
    SameMentions(pack.occurrences);
    TallyPermutation(pack.occurrences, OccurrencesOf(normals), MentionKeys);
    EmittedJoins(env, table, normals, TallyOf(pack.occurrences, MentionKeys));
    forall i | 0 <= i < |pack.documents|
      ensures PilotFrame.Structure(p.documents[i]).Some? && p.documents[i].count == PilotBuilder.Mentions(p.occurrences)[p.documents[i].id]
    {
      assert pack.documents[i] in pack.documents;
      DocumentStructured(env, facets, table, normals, pack.documents[i]);
    }
    forall i | 0 <= i < |pack.occurrences| ensures PilotClosure.BindsOne(p.documents, p.occurrences[i]) {
      assert pack.occurrences[i] in pack.occurrences;
      OccurrenceBinds(env, facets, table, normals, pack.occurrences[i]);
    }
  }

  /** From rows to an accepted pilot: the sample of a built pack is built without a closure error and
      passes the replaying verifier. */
  lemma BuiltPackSampled(env: Environment, facets: Body -> seq<string>, declared: set<string>, rows: seq<InputRow>,
                         normals: seq<NormalRow>, pack: Pack, policy: PilotFrame.Policy, hash: PilotFrame.RankHash,
                         repr: Apportionment.Stratum -> string, t: PilotBuilder.Tables, p: PilotFrame.Pack)
    requires Hexadecimal(env) && Normalises(env, rows, normals) && Clean(normals) && IsPack(pack, normals, declared)
    requires (forall b :: "" !in facets(b)) && Injective(repr) && p == PilotPack(facets, pack)
    requires PilotFrame.Structured(p.documents)
    requires PilotBuilder.AreTables(t, PilotFrame.RecordsOf(hash, p.documents), policy, repr)
    ensures t.Keyed() && PilotBuilder.BuildOf(p, policy, t) == PilotBuilder.Built(PilotTheorem.SampleFor(p, policy, t))
    ensures PilotVerifier.Accepts(PilotTheorem.SampleFor(p, policy, t), p, policy, t)
  {
    BuiltPackReconciled(env, facets, declared, rows, normals, pack);
    PilotTheorem.BuildPassesReplay(p, policy, hash, repr, t, t);
  }
}
