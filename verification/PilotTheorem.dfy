/** Pilot build and replay agree: on a reconciled projection pack the builder meets no closure
    error, keeps exactly the occurrences of the selected documents, and passes the verifier. */
module PilotTheorem {
  import opened Ordering
  import opened Apportionment
  import opened PilotFrame
  import opened PilotBuilder
  import opened PilotVerifier
  import opened PilotSelection
  import opened PilotClosure

  lemma RecordsUnique(hash: RankHash, documents: seq<Document>)
    requires Structured(documents) && Ascends(DocumentIds(documents))
    ensures UniqueRecords(RecordsOf(hash, documents))
  {
    var records := RecordsOf(hash, documents);
    forall a, b | a in records && b in records && a.document.id == b.document.id ensures a == b {
      var i :| 0 <= i < |records| && records[i] == a;
      var j :| 0 <= j < |records| && records[j] == b;
      assert documents[i] in documents && documents[j] in documents;
      UniqueDocuments(documents, documents[i], documents[j]);
    }
  }

  /** The selection of a frame is one of the pack's documents under their own identities. */
  lemma SelectionFromPack(pack: Pack, policy: Policy, hash: RankHash, t: Tables)
    requires Structured(pack.documents) && Frame(t, RecordsOf(hash, pack.documents))
    ensures Selects(pack.documents, t.quotas.Keys, SelectedOf(t, policy))
  {
    var records, selected := RecordsOf(hash, pack.documents), SelectedOf(t, policy);
    forall id | id in selected ensures FromPack(pack.documents, t.quotas.Keys, id, selected[id]) {
      var r := SelectedRecord(t, policy, records, id);
      RecordFromPack(pack.documents, hash, r);
      assert HasPlace(t, r);
    }
  }

  lemma RecordFromPack(documents: seq<Document>, hash: RankHash, r: Record)
    requires Structured(documents) && r in RecordsOf(hash, documents)
    ensures r.document in documents && r.document.count >= 1 && r.document.relations == [r.relation]
  {
    var records := RecordsOf(hash, documents);
    var i :| 0 <= i < |records| && records[i] == r;
    assert documents[i] in documents && Structure(documents[i]).Some?;
  }

  /** The sample that the builder assembles. */
  ghost function SampleFor(pack: Pack, policy: Policy, t: Tables): Sample
    requires t.Keyed()
  {
    var selected := SelectedOf(t, policy);
    var kept := Retained(pack.occurrences, selected.Keys);
    Sample(DocumentsOf(selected, SortedKeys(selected)), RowsOf(selected, SortedKeys(selected)), kept,
           |pack.documents|, pack.sourceRecords, |selected|, |kept|, Stats(t, policy), RelationTally(kept))
  }

  lemma ChoiceMatches(t: Tables, policy: Policy, r: Record)
    requires t.Keyed() && HasPlace(t, r)
    ensures RowMatches(ChoiceOf(t, policy, r).row, ChoiceOf(t, policy, r).row, t, policy)
  {}

  lemma SelectedRowMatches(pack: Pack, policy: Policy, hash: RankHash, t: Tables, id: string)
    requires Structured(pack.documents) && Frame(t, RecordsOf(hash, pack.documents)) && id in SelectedOf(t, policy)
    ensures RowMatches(SelectedOf(t, policy)[id].row, SelectedOf(t, policy)[id].row, t, policy)
  {
    var r := SelectedRecord(t, policy, RecordsOf(hash, pack.documents), id);
    ChoiceMatches(t, policy, r);
  }

  lemma ReplayHolds(pack: Pack, policy: Policy, hash: RankHash, t: Tables)
    requires Structured(pack.documents) && Frame(t, RecordsOf(hash, pack.documents))
    ensures Replays(SampleFor(pack, policy, t), policy, t)
  {
    var s, selected := SampleFor(pack, policy, t), SelectedOf(t, policy);
    SelectionFromPack(pack, policy, hash, t);
    forall id | id in selected ensures RowMatches(selected[id].row, selected[id].row, t, policy) {
      SelectedRowMatches(pack, policy, hash, t, id);
    }
    EmittedReplays(pack.documents, policy, t, selected, s);
  }

  lemma EmittedReplays(documents: seq<Document>, policy: Policy, t: Tables, selected: map<string, Chosen>, s: Sample)
    requires t.Keyed() && Selects(documents, t.quotas.Keys, selected) && selected == SelectedOf(t, policy)
    requires forall id :: id in selected ==> RowMatches(selected[id].row, selected[id].row, t, policy)
    requires s.selection == RowsOf(selected, SortedKeys(selected))
    ensures Replays(s, policy, t)
  {
    var ids := SortedKeys(selected);
    EmittedIds(documents, t.quotas.Keys, selected);
    forall row | row in s.selection ensures row.id in selected && RowMatches(row, selected[row.id].row, t, policy) {
      var i :| 0 <= i < |ids| && s.selection[i] == row;
      assert RowIds(s.selection)[i] == row.id == ids[i];
    }
  }

  /** Building a reconciled pack never meets a closure error. */
  lemma BuildSucceeds(pack: Pack, policy: Policy, t: Tables)
    requires Reconciled(pack) && t.Keyed() && Selects(pack.documents, t.quotas.Keys, SelectedOf(t, policy))
    ensures BuildOf(pack, policy, t) == Built(SampleFor(pack, policy, t))
  {
    RetentionSucceeds(pack.documents, pack.occurrences, t.quotas.Keys, SelectedOf(t, policy));
    ClosureHolds(pack.documents, pack.occurrences, t.quotas.Keys, SelectedOf(t, policy));
  }

  lemma SampleAccepted(pack: Pack, policy: Policy, hash: RankHash, t: Tables)
    requires Reconciled(pack) && Frame(t, RecordsOf(hash, pack.documents))
    ensures Accepts(SampleFor(pack, policy, t), pack, policy, t)
  {
    var s, selected := SampleFor(pack, policy, t), SelectedOf(t, policy);
    SelectionFromPack(pack, policy, hash, t);
    EmittedConsistent(pack, t.quotas.Keys, selected, s);
    EmittedMatches(pack, t.quotas.Keys, selected, s);
    ReplayHolds(pack, policy, hash, t);
  }

  /** Build and replay agree. */
  lemma BuildPassesReplay(pack: Pack, policy: Policy, hash: RankHash, repr: Stratum -> string, t: Tables, t': Tables)
    requires Reconciled(pack) && Injective(repr)
    requires AreTables(t, RecordsOf(hash, pack.documents), policy, repr)
    requires AreTables(t', RecordsOf(hash, pack.documents), policy, repr)
    ensures t.Keyed() && t' == t
    ensures BuildOf(pack, policy, t) == Built(SampleFor(pack, policy, t))
    ensures Accepts(SampleFor(pack, policy, t), pack, policy, t')
  {
    var records := RecordsOf(hash, pack.documents);
    TablesUnique(t, t', records, policy, repr);
    TablesFrame(t, records, policy, repr);
    SelectionFromPack(pack, policy, hash, t);
    BuildSucceeds(pack, policy, t);
    SampleAccepted(pack, policy, hash, t);
  }
}
