/** What acceptance of a pilot says: the sample is the replayed one, up to what the verifier does not
    look at. */
module PilotAcceptance {
  import opened Ordering
  import opened Grouping
  import opened Apportionment
  import opened PilotFrame
  import opened PilotBuilder
  import opened PilotVerifier
  import opened PilotSelection
  import opened PilotClosure
  import opened PilotTheorem
  import opened PilotWeights

  // ---------------------------------------------------------------- what is compared

  /** Occurrences that name a document. */
  function Bearing(occurrences: seq<Occurrence>): seq<Occurrence> {
    if occurrences == [] then []
    else
      var n := |occurrences| - 1;
      Bearing(occurrences[..n]) + if occurrences[n].documents != [] then [occurrences[n]] else []
  }

  /** A selection row may name any relation, and its reason then is that relation's. */
  predicate RowAlike(row: SelectionRow, expected: SelectionRow, t: Tables, policy: Policy) {
    row == expected.(relation := row.relation, census := NamedCensus(t, policy, row.relation))
  }

  ghost predicate RowsAlike(rows: seq<SelectionRow>, expected: seq<SelectionRow>, t: Tables, policy: Policy) {
    |rows| == |expected| && forall i :: 0 <= i < |rows| ==> RowAlike(rows[i], expected[i], t, policy)
  }

  /** Document-less occurrences of the pack may be there or not. */
  ghost predicate OccurrencesAlike(occurrences: seq<Occurrence>, expected: seq<Occurrence>, pack: Pack) {
    && Bearing(occurrences) == expected && Ascends(OccurrenceIds(occurrences))
    && forall o <- occurrences :: o in pack.occurrences
  }

  ghost predicate CountsAlike(s: Sample, pack: Pack) {
    && s.selectedDocuments == |s.documents| && s.selectedOccurrences == |s.occurrences|
    && s.sourceDocuments == |pack.documents| && s.sourceOccurrences == pack.sourceRecords
  }

  /** The sample is the expected one up to relation names, document-less occurrences and the statistics. */
  ghost predicate Alike(s: Sample, expected: Sample, pack: Pack, policy: Policy, t: Tables) {
    && s.documents == expected.documents && RowsAlike(s.selection, expected.selection, t, policy)
    && OccurrencesAlike(s.occurrences, expected.occurrences, pack) && CountsAlike(s, pack)
  }

  // ------------------------------------------------------------------- ordered streams

  /** A strictly ascending stream is determined by its members. */
  lemma StrictDetermined(a: seq<string>, b: seq<string>)
    requires Ascends(a) && Ascends(b) && forall x :: x in a <==> x in b
    ensures a == b
  {
    AscendsSorted(a);
    AscendsSorted(b);
    StringTotalOrder();
    DistinctSameMembers(a, b);
    SortedUnique(StringLe, a, b);
  }

  lemma AscendsSorted(ids: seq<string>)
    requires Ascends(ids)
    ensures SortedBy(StringLe, ids) && Distinct(ids)
  {
    AscendsStrict(ids);
    StringTotalOrder();
    forall i, j | 0 <= i < j < |ids| ensures StringLe(ids[i], ids[j]) && ids[i] != ids[j] {
      StringLtFacts(ids[i], ids[j], "");
    }
  }

  lemma OccurrencesDetermined(a: seq<Occurrence>, b: seq<Occurrence>)
    requires Ascends(OccurrenceIds(a)) && Ascends(OccurrenceIds(b)) && forall o :: o in a <==> o in b
    ensures a == b
  {
    forall id ensures id in OccurrenceIds(a) <==> id in OccurrenceIds(b) {
      IdCarried(a, b, id);
      IdCarried(b, a, id);
    }
    StrictDetermined(OccurrenceIds(a), OccurrenceIds(b));
    forall i | 0 <= i < |a| ensures a[i] == b[i] {
      assert OccurrenceIds(a)[i] == OccurrenceIds(b)[i];
      assert a[i] in b && b[i] in b;
      UniqueOccurrences(b, a[i], b[i]);
    }
    assert |OccurrenceIds(a)| == |OccurrenceIds(b)|;
  }

  lemma IdCarried(a: seq<Occurrence>, b: seq<Occurrence>, id: string)
    requires forall o <- a :: o in b
    ensures id in OccurrenceIds(a) ==> id in OccurrenceIds(b)
  {
    if id in OccurrenceIds(a) {
      var i :| 0 <= i < |a| && OccurrenceIds(a)[i] == id;
      OccurrenceIdIn(b, a[i]);
    }
  }

  // ----------------------------------------------------------------- bearing occurrences

  lemma {:induction false} BearingMembers(occurrences: seq<Occurrence>)
    ensures forall o :: o in Bearing(occurrences) <==> o in occurrences && o.documents != []
    ensures (forall o <- occurrences :: o.documents != []) <==> Bearing(occurrences) == occurrences
    ensures |Bearing(occurrences)| <= |occurrences|
  {
    if occurrences != [] {
      var n := |occurrences| - 1;
      BearingMembers(occurrences[..n]);
      assert occurrences == occurrences[..n] + [occurrences[n]];
    }
  }

  lemma {:induction false} BearingMentions(occurrences: seq<Occurrence>)
    ensures Mentions(Bearing(occurrences)) == Mentions(occurrences)
  {
    if occurrences != [] {
      var n := |occurrences| - 1;
      BearingMentions(occurrences[..n]);
      if occurrences[n].documents != [] {
        MentionsAppend(Bearing(occurrences[..n]), occurrences[n]);
      } else {
        assert Bearing(occurrences) == Bearing(occurrences[..n]);
      }
    }
  }

  lemma {:induction false} BearingIsRetained(occurrences: seq<Occurrence>, ids: set<string>)
    requires forall o, d :: o in occurrences && d in o.documents ==> d in ids
    ensures Bearing(occurrences) == Retained(occurrences, ids)
  {
    if occurrences != [] {
      var n := |occurrences| - 1;
      assert occurrences == occurrences[..n] + [occurrences[n]];
      BearingIsRetained(occurrences[..n], ids);
      assert occurrences[n].documents != [] ==> occurrences[n].documents[0] in ids;
    }
  }

  lemma BearingAscends(occurrences: seq<Occurrence>)
    requires Ascends(OccurrenceIds(occurrences))
    ensures Ascends(OccurrenceIds(Bearing(occurrences)))
  {
    var ids := set o, d | o in occurrences && d in o.documents :: d;
    BearingIsRetained(occurrences, ids);
    AscendsStrict(OccurrenceIds(occurrences));
    RetainedStrict(occurrences, ids);
    StrictAscends(OccurrenceIds(Bearing(occurrences)));
  }

  // ---------------------------------------------------------- acceptance implies likeness

  lemma SelectedIds(s: Sample, pack: Pack, policy: Policy, t: Tables)
    requires t.Keyed() && Consistent(s) && Replays(s, policy, t)
    requires Counted(pack.documents, pack.occurrences) && Selects(pack.documents, t.quotas.Keys, SelectedOf(t, policy))
    ensures DocumentIds(s.documents) == RowIds(s.selection) == SortedKeys(SelectedOf(t, policy))
  {
    var selected := SelectedOf(t, policy);
    SortedIdsAscend(pack.documents, t.quotas.Keys, selected);
    forall id ensures id in RowIds(s.selection) <==> id in selected {
      if id in RowIds(s.selection) {
        var i :| 0 <= i < |s.selection| && RowIds(s.selection)[i] == id;
        assert s.selection[i] in s.selection;
      }
    }
    StrictDetermined(DocumentIds(s.documents), SortedKeys(selected));
  }

  lemma DocumentForced(s: Sample, pack: Pack, relations: set<string>, id: string, c: Chosen, e: Document)
    requires Ascends(DocumentIds(pack.documents)) && FromPack(pack.documents, relations, id, c)
    requires DocumentsMatch(s, pack) && e in s.documents && e.id == id
    ensures e == c.document
  {}

  lemma DocumentsForced(s: Sample, pack: Pack, t: Tables, selected: map<string, Chosen>)
    requires Ascends(DocumentIds(pack.documents)) && Selects(pack.documents, t.quotas.Keys, selected)
    requires DocumentsMatch(s, pack) && DocumentIds(s.documents) == SortedKeys(selected)
    ensures s.documents == DocumentsOf(selected, SortedKeys(selected))
  {
    var ids := SortedKeys(selected);
    var documents := DocumentsOf(selected, ids);
    assert |s.documents| == |DocumentIds(s.documents)| == |ids| == |documents|;
    forall i | 0 <= i < |ids| ensures s.documents[i] == documents[i] {
      assert DocumentIds(s.documents)[i] == ids[i];
      DocumentForced(s, pack, t.quotas.Keys, ids[i], selected[ids[i]], s.documents[i]);
    }
  }

  /** A selected entry as the builder makes it: under its identity, its row matching itself and
      naming the document's relation. */
  ghost predicate Proper(c: Chosen, id: string, t: Tables, policy: Policy) {
    c.document.id == id == c.row.id && RowMatches(c.row, c.row, t, policy) && c.document.relations == [c.row.relation]
  }

  lemma RowForced(row: SelectionRow, c: Chosen, id: string, t: Tables, policy: Policy)
    requires row.id == id && Proper(c, id, t, policy) && RowMatches(row, c.row, t, policy)
    ensures RowAlike(row, c.row, t, policy)
  {}

  lemma RowNamed(row: SelectionRow, c: Chosen, id: string, t: Tables, policy: Policy)
    requires Proper(c, id, t, policy) && RowAlike(row, c.row, t, policy)
    ensures c.document.id == id == row.id && (row == c.row <==> c.document.relations == [row.relation])
  {}

  ghost predicate AllProper(selected: map<string, Chosen>, t: Tables, policy: Policy) {
    forall id :: id in selected ==> Proper(selected[id], id, t, policy)
  }

  lemma SelectedProper(pack: Pack, policy: Policy, hash: RankHash, t: Tables)
    requires Structured(pack.documents) && Frame(t, RecordsOf(hash, pack.documents))
    ensures AllProper(SelectedOf(t, policy), t, policy)
  {
    forall id | id in SelectedOf(t, policy) ensures Proper(SelectedOf(t, policy)[id], id, t, policy) {
      var r := SelectedRecord(t, policy, RecordsOf(hash, pack.documents), id);
      RecordFromPack(pack.documents, hash, r);
      ChoiceMatches(t, policy, r);
    }
  }

  lemma RowIsAlike(s: Sample, policy: Policy, t: Tables, selected: map<string, Chosen>, ids: seq<string>, i: nat)
    requires t.Keyed() && selected == SelectedOf(t, policy) && AllProper(selected, t, policy)
    requires Replays(s, policy, t) && RowIds(s.selection) == ids && i < |ids|
    ensures i < |s.selection| && ids[i] in selected && RowAlike(s.selection[i], selected[ids[i]].row, t, policy)
  {
    assert |s.selection| == |RowIds(s.selection)|;
    assert RowIds(s.selection)[i] == ids[i] && s.selection[i] in s.selection;
    RowForced(s.selection[i], selected[ids[i]], ids[i], t, policy);
  }

  lemma RowsForced(s: Sample, policy: Policy, t: Tables, selected: map<string, Chosen>, rows: seq<SelectionRow>)
    requires t.Keyed() && selected == SelectedOf(t, policy) && AllProper(selected, t, policy)
    requires Replays(s, policy, t) && RowIds(s.selection) == SortedKeys(selected)
    requires rows == RowsOf(selected, SortedKeys(selected))
    ensures RowsAlike(s.selection, rows, t, policy)
  {
    var ids := SortedKeys(selected);
    assert |s.selection| == |RowIds(s.selection)| == |ids| == |rows|;
    forall i | 0 <= i < |ids| ensures RowAlike(s.selection[i], rows[i], t, policy) {
      RowIsAlike(s, policy, t, selected, ids, i);
      assert rows[i] == selected[ids[i]].row;
    }
  }

  lemma {:induction false} MentionedIn(occurrences: seq<Occurrence>, o: Occurrence, id: string)
    requires o in occurrences && id in o.documents
    ensures id in Mentions(occurrences)
  {
    var n := |occurrences| - 1;
    if occurrences[n] == o {
      assert id in multiset(o.documents);
    } else {
      assert occurrences == occurrences[..n] + [occurrences[n]];
      MentionedIn(occurrences[..n], o, id);
    }
  }

  lemma FromThePack(s: Sample, pack: Pack, o: Occurrence)
    requires OccurrencesMatch(s, pack) && o in s.occurrences
    ensures o in pack.occurrences
  {
    var i :| 0 <= i < |pack.occurrences| && OccurrenceIds(pack.occurrences)[i] == o.id;
    assert pack.occurrences[i] in pack.occurrences;
  }

  lemma BearingIsKept(s: Sample, pack: Pack, ids: set<string>, o: Occurrence)
    requires OccurrencesMatch(s, pack) && ids == (set d | d in DocumentIds(s.documents))
    requires CountsAgree(s.documents, Mentions(s.occurrences))
    ensures o in Bearing(s.occurrences) <==> o in Retained(pack.occurrences, ids)
  {
    BearingMembers(s.occurrences);
    RetainedMembers(pack.occurrences, ids);
    if o in Bearing(s.occurrences) {
      FromThePack(s, pack, o);
      MentionedIn(s.occurrences, o, o.documents[0]);
    }
    if o in Retained(pack.occurrences, ids) {
      var i :| 0 <= i < |s.occurrences| && OccurrenceIds(s.occurrences)[i] == o.id;
      assert s.occurrences[i] in s.occurrences;
    }
  }

  lemma RetainedAscends(occurrences: seq<Occurrence>, ids: set<string>)
    requires Ascends(OccurrenceIds(occurrences))
    ensures Ascends(OccurrenceIds(Retained(occurrences, ids)))
  {
    AscendsStrict(OccurrenceIds(occurrences));
    RetainedStrict(occurrences, ids);
    StrictAscends(OccurrenceIds(Retained(occurrences, ids)));
  }

  lemma OccurrencesForced(s: Sample, pack: Pack, ids: set<string>, kept: seq<Occurrence>)
    requires Consistent(s) && OccurrencesMatch(s, pack) && ids == (set d | d in DocumentIds(s.documents))
    requires Ascends(OccurrenceIds(pack.occurrences)) && kept == Retained(pack.occurrences, ids)
    ensures OccurrencesAlike(s.occurrences, kept, pack)
  {
    forall o | o in s.occurrences ensures o in pack.occurrences { FromThePack(s, pack, o); }
    forall o ensures o in Bearing(s.occurrences) <==> o in kept {
      BearingIsKept(s, pack, ids, o);
    }
    BearingAscends(s.occurrences);
    RetainedAscends(pack.occurrences, ids);
    OccurrencesDetermined(Bearing(s.occurrences), kept);
  }

  /** What a sample that is consistent and replays is known by: its selected identities. */
  ghost predicate Holds(s: Sample, selected: map<string, Chosen>) {
    DocumentIds(s.documents) == RowIds(s.selection) == SortedKeys(selected)
  }

  lemma OccurrencesPart(s: Sample, pack: Pack, selected: map<string, Chosen>, kept: seq<Occurrence>)
    requires Consistent(s) && OccurrencesMatch(s, pack) && Holds(s, selected)
    requires Ascends(OccurrenceIds(pack.occurrences)) && kept == Retained(pack.occurrences, selected.Keys)
    ensures OccurrencesAlike(s.occurrences, kept, pack)
  {
    assert (set d | d in DocumentIds(s.documents)) == selected.Keys;
    OccurrencesForced(s, pack, selected.Keys, kept);
  }

  lemma DocumentsPart(s: Sample, pack: Pack, policy: Policy, t: Tables, x: Sample)
    requires t.Keyed() && Accepts(s, pack, policy, t) && Counted(pack.documents, pack.occurrences)
    requires x == SampleFor(pack, policy, t) && Selects(pack.documents, t.quotas.Keys, SelectedOf(t, policy))
    ensures Holds(s, SelectedOf(t, policy)) && s.documents == x.documents
  {
    SelectedIds(s, pack, policy, t);
    DocumentsForced(s, pack, t, SelectedOf(t, policy));
  }

  lemma AcceptedIsAlike(s: Sample, pack: Pack, policy: Policy, hash: RankHash, t: Tables, x: Sample)
    requires Reconciled(pack) && Frame(t, RecordsOf(hash, pack.documents)) && Accepts(s, pack, policy, t)
    requires x == SampleFor(pack, policy, t)
    ensures Alike(s, x, pack, policy, t)
  {
    SelectionFromPack(pack, policy, hash, t);
    DocumentsPart(s, pack, policy, t, x);
    SelectedProper(pack, policy, hash, t);
    RowsForced(s, policy, t, SelectedOf(t, policy), x.selection);
    OccurrencesPart(s, pack, SelectedOf(t, policy), x.occurrences);
  }

  // ---------------------------------------------------------- likeness implies acceptance

  lemma AlikeConsistent(s: Sample, x: Sample, pack: Pack, policy: Policy, t: Tables)
    requires Consistent(x) && Alike(s, x, pack, policy, t)
    ensures Consistent(s)
  {
    BearingMentions(s.occurrences);
    assert RowIds(s.selection) == RowIds(x.selection);
  }

  lemma AlikeMatches(s: Sample, x: Sample, pack: Pack, policy: Policy, t: Tables)
    requires DocumentsMatch(x, pack) && OccurrencesMatch(x, pack) && Alike(s, x, pack, policy, t)
    requires Ascends(OccurrenceIds(pack.occurrences))
    ensures DocumentsMatch(s, pack) && OccurrencesMatch(s, pack)
  {
    BearingMembers(s.occurrences);
    forall id | id in OccurrenceIds(x.occurrences) ensures id in OccurrenceIds(s.occurrences) {
      IdCarried(x.occurrences, s.occurrences, id);
    }
    forall o, e | o in pack.occurrences && e in s.occurrences && o.id == e.id ensures o == e {
      UniqueOccurrences(pack.occurrences, o, e);
    }
    forall e | e in s.occurrences ensures e.id in OccurrenceIds(pack.occurrences) {
      OccurrenceIdIn(pack.occurrences, e);
    }
  }

  lemma AlikeReplays(s: Sample, x: Sample, pack: Pack, policy: Policy, t: Tables)
    requires t.Keyed() && Replays(x, policy, t) && RowsAlike(s.selection, x.selection, t, policy)
    ensures Replays(s, policy, t)
  {
    assert RowIds(s.selection) == RowIds(x.selection);
    forall row | row in s.selection
      ensures row.id in SelectedOf(t, policy) && RowMatches(row, SelectedOf(t, policy)[row.id].row, t, policy)
    {
      var i :| 0 <= i < |s.selection| && s.selection[i] == row;
      assert x.selection[i] in x.selection && RowAlike(row, x.selection[i], t, policy);
    }
  }

  lemma AlikeIsAccepted(s: Sample, pack: Pack, policy: Policy, hash: RankHash, t: Tables, x: Sample)
    requires Reconciled(pack) && Frame(t, RecordsOf(hash, pack.documents)) && x == SampleFor(pack, policy, t)
    requires Alike(s, x, pack, policy, t)
    ensures Accepts(s, pack, policy, t)
  {
    SampleAccepted(pack, policy, hash, t);
    AlikeConsistent(s, x, pack, policy, t);
    AlikeMatches(s, x, pack, policy, t);
    AlikeReplays(s, x, pack, policy, t);
  }

  /** The verifier accepts exactly the samples that are like the builder's. */
  lemma AcceptsExactly(s: Sample, pack: Pack, policy: Policy, hash: RankHash, t: Tables)
    requires Reconciled(pack) && Frame(t, RecordsOf(hash, pack.documents))
    ensures Accepts(s, pack, policy, t) <==> Alike(s, SampleFor(pack, policy, t), pack, policy, t)
  {
    var x := SampleFor(pack, policy, t);
    if Accepts(s, pack, policy, t) { AcceptedIsAlike(s, pack, policy, hash, t, x); }
    if Alike(s, x, pack, policy, t) { AlikeIsAccepted(s, pack, policy, hash, t, x); }
  }

  // ------------------------------------------------------- when it is the builder's sample

  /** Each selection row names the relation of its document. */
  ghost predicate NamesItsRelation(s: Sample) {
    forall row, d :: row in s.selection && d in s.documents && row.id == d.id ==> d.relations == [row.relation]
  }

  ghost predicate NoStray(s: Sample) { forall o <- s.occurrences :: o.documents != [] }

  /** Rows and documents at one place belong together. */
  ghost predicate Paired(s: Sample, rows: seq<SelectionRow>, ids: seq<string>) {
    && |s.documents| == |s.selection| == |rows| == |ids| && Distinct(ids)
    && (forall i :: 0 <= i < |ids| ==> s.documents[i].id == ids[i] == s.selection[i].id)
    && forall i :: 0 <= i < |ids| ==> (s.selection[i] == rows[i] <==> s.documents[i].relations == [s.selection[i].relation])
  }

  lemma PairedNamed(s: Sample, rows: seq<SelectionRow>, ids: seq<string>)
    requires Paired(s, rows, ids)
    ensures s.selection == rows <==> NamesItsRelation(s)
  {
    if NamesItsRelation(s) {
      forall i | 0 <= i < |ids| ensures s.selection[i] == rows[i] {
        assert s.selection[i] in s.selection && s.documents[i] in s.documents;
      }
    }
    if s.selection == rows {
      forall row, d | row in s.selection && d in s.documents && row.id == d.id ensures d.relations == [row.relation] {
        var i :| 0 <= i < |ids| && s.selection[i] == row;
        var j :| 0 <= j < |ids| && s.documents[j] == d;
        assert i == j;
      }
    }
  }

  lemma RowsNamed(s: Sample, policy: Policy, t: Tables, selected: map<string, Chosen>, rows: seq<SelectionRow>)
    requires AllProper(selected, t, policy)
    requires rows == RowsOf(selected, SortedKeys(selected)) && RowsAlike(s.selection, rows, t, policy)
    requires s.documents == DocumentsOf(selected, SortedKeys(selected))
    ensures s.selection == rows <==> NamesItsRelation(s)
  {
    var ids := SortedKeys(selected);
    forall i | 0 <= i < |ids|
      ensures s.selection[i] == rows[i] <==> s.documents[i].relations == [s.selection[i].relation]
      ensures s.documents[i].id == ids[i] == s.selection[i].id
    {
      RowNamed(s.selection[i], selected[ids[i]], ids[i], t, policy);
    }
    PairedNamed(s, rows, ids);
  }

  /** An accepted sample is the replayed one exactly when its rows name the relations of their
      documents and it holds no document-less occurrence. */
  lemma AcceptedIsReplayed(s: Sample, pack: Pack, policy: Policy, hash: RankHash, t: Tables)
    requires Reconciled(pack) && Frame(t, RecordsOf(hash, pack.documents)) && Accepts(s, pack, policy, t)
    ensures var x := SampleFor(pack, policy, t);
      s.documents == x.documents && (s.selection == x.selection && s.occurrences == x.occurrences <==> NamesItsRelation(s) && NoStray(s))
  {
    AcceptsExactly(s, pack, policy, hash, t);
    SelectedProper(pack, policy, hash, t);
    RowsNamed(s, policy, t, SelectedOf(t, policy), SampleFor(pack, policy, t).selection);
    BearingMembers(s.occurrences);
  }

  /** The by-relation statistics of the coverage are not compared at all. */
  lemma StatisticsUnchecked(s: Sample, pack: Pack, policy: Policy, t: Tables, byRelation: map<string, RelationStat>, tally: multiset<string>)
    requires t.Keyed() && Accepts(s, pack, policy, t)
    ensures Accepts(s.(byRelation := byRelation, occurrencesByRelation := tally), pack, policy, t)
  {
    var s' := s.(byRelation := byRelation, occurrencesByRelation := tally);
    assert DocumentIds(s'.documents) == DocumentIds(s.documents) && RowIds(s'.selection) == RowIds(s.selection);
  }

  // ------------------------------------------------------------------- two that differ

  /** The sample with one row under another relation, and with that relation's reason. */
  function Relabelled(s: Sample, i: nat, policy: Policy, t: Tables, relation: string): Sample
    requires i < |s.selection|
  {
    s.(selection := s.selection[i := s.selection[i].(relation := relation, census := NamedCensus(t, policy, relation))])
  }

  lemma RelabelledAlike(s: Sample, x: Sample, i: nat, pack: Pack, policy: Policy, t: Tables, relation: string)
    requires Alike(x, x, pack, policy, t) && i < |x.selection| && s == Relabelled(x, i, policy, t, relation)
    ensures Alike(s, x, pack, policy, t)
  {
    assert RowAlike(x.selection[i], x.selection[i], t, policy);
    forall k | 0 <= k < |s.selection| ensures RowAlike(s.selection[k], x.selection[k], t, policy) {}
  }

  /** A row of the builder's sample may be relabelled, and the sample is still accepted. */
  lemma RelabelledAccepted(s: Sample, x: Sample, i: nat, pack: Pack, policy: Policy, hash: RankHash, t: Tables, relation: string)
    requires Reconciled(pack) && Frame(t, RecordsOf(hash, pack.documents)) && x == SampleFor(pack, policy, t)
    requires i < |x.selection| && s == Relabelled(x, i, policy, t, relation)
    ensures Accepts(s, pack, policy, t) && (relation != x.selection[i].relation ==> s.selection != x.selection)
  {
    SampleAccepted(pack, policy, hash, t);
    AcceptedIsAlike(x, pack, policy, hash, t, x);
    RelabelledAlike(s, x, i, pack, policy, t, relation);
    AlikeIsAccepted(s, pack, policy, hash, t, x);
    assert s.selection[i].relation == relation;
  }

  lemma {:induction false} WeighedRow(rows: seq<SelectionRow>, relation: string) returns (i: nat)
    requires RelationWeight(rows, relation) != 0.0
    ensures i < |rows| && rows[i].relation == relation
  {
    var n := |rows| - 1;
    if rows[n].relation == relation {
      i := n;
    } else {
      i := WeighedRow(rows[..n], relation);
    }
  }

  /** Wherever the sampling weights account for a relation, one of its rows can be mislabelled. */
  lemma MislabelledAccepted(pack: Pack, policy: Policy, hash: RankHash, repr: Stratum -> string, t: Tables, relation: string, other: string,
                            x: Sample)
    returns (s: Sample)
    requires t.Keyed() && Reconciled(pack) && AreTables(t, RecordsOf(hash, pack.documents), policy, repr)
    requires relation in t.quotas && other != relation && x == SampleFor(pack, policy, t)
    requires Census(policy, t.populations[relation]) || |t.populations[relation]| <= policy.sampleLimit
    ensures Accepts(s, pack, policy, t) && s.selection != x.selection
  {
    TablesFrame(t, RecordsOf(hash, pack.documents), policy, repr);
    WeightsSumToPopulation(pack, policy, hash, repr, t, relation);
    Populated(RecordsOf(hash, pack.documents), policy, repr, t, relation);
    var i := WeighedRow(x.selection, relation);
    s := Relabelled(x, i, policy, t, other);
    RelabelledAccepted(s, x, i, pack, policy, hash, t, other);
  }

  lemma Populated(records: seq<Record>, policy: Policy, repr: Stratum -> string, t: Tables, relation: string)
    requires AreTables(t, records, policy, repr) && relation in t.quotas
    ensures Select(records, RelationOf, relation) != []
  {
    KeySetMembers(records, RelationOf);
  }

  const ONE_PACK := Pack([Document("document", ["relation"], [], 1, "")], [Occurrence("occurrence", "relation", ["document"], "")], 1)

  lemma OnePackReconciled()
    ensures Reconciled(ONE_PACK)
  {
    StringLtFacts("document", "", "");
    StringLtFacts("occurrence", "", "");
    var o := ONE_PACK.occurrences[0];
    assert Mentions(ONE_PACK.occurrences) == Mentions([]) + multiset(o.documents);
    assert ONE_PACK.documents[0] in ONE_PACK.documents;
  }

  const CENSUS := Policy(1, 1)

  /** A census of one document, its selection row under a relation that the pack does not have. */
  lemma OneMislabelled(hash: RankHash, repr: Stratum -> string, t: Tables, x: Sample) returns (s: Sample)
    requires t.Keyed() && x == SampleFor(ONE_PACK, CENSUS, t) && AreTables(t, RecordsOf(hash, ONE_PACK.documents), CENSUS, repr)
    ensures Accepts(s, ONE_PACK, CENSUS, t) && s.selection != x.selection
  {
    OnePackReconciled();
    OneTables(RecordsOf(hash, ONE_PACK.documents), repr, t, "relation");
    s := MislabelledAccepted(ONE_PACK, CENSUS, hash, repr, t, "relation", "elsewhere", x);
  }

  lemma OneTables(records: seq<Record>, repr: Stratum -> string, t: Tables, relation: string)
    requires t.Keyed() && AreTables(t, records, CENSUS, repr) && |records| == 1 && records[0].relation == relation
    ensures relation in t.quotas && Census(CENSUS, t.populations[relation])
  {
    KeySetMembers(records, RelationOf);
    assert RelationOf(records[0]) in KeySet(records, RelationOf);
    PopulationEntry(t.populations, records, relation);
    PopulationTotal(records, relation);
    assert |Select(records, RelationOf, relation)| <= 1;
  }

  const STRAY_PACK := Pack([], [Occurrence("occurrence", "relation", [], "")], 1)

  /** A document-less occurrence of the pack, which the builder never keeps. */
  lemma StrayAccepted(hash: RankHash, repr: Stratum -> string, policy: Policy, t: Tables)
    requires AreTables(t, RecordsOf(hash, STRAY_PACK.documents), policy, repr) && t.Keyed()
    ensures Reconciled(STRAY_PACK) && SampleFor(STRAY_PACK, policy, t).occurrences == []
    ensures var x := SampleFor(STRAY_PACK, policy, t);
      Accepts(x.(occurrences := STRAY_PACK.occurrences, selectedOccurrences := 1), STRAY_PACK, policy, t)
  {
    StringLtFacts("occurrence", "", "");
    assert Mentions(STRAY_PACK.occurrences) == Mentions([]) + multiset([]);
    var records, x := RecordsOf(hash, STRAY_PACK.documents), SampleFor(STRAY_PACK, policy, t);
    TablesFrame(t, records, policy, repr);
    SampleAccepted(STRAY_PACK, policy, hash, t);
    AcceptedIsAlike(x, STRAY_PACK, policy, hash, t, x);
    var s := x.(occurrences := STRAY_PACK.occurrences, selectedOccurrences := 1);
    assert Bearing(s.occurrences) == Bearing([]);
    AcceptsExactly(s, STRAY_PACK, policy, hash, t);
  }
}
