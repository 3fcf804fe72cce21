/** Whole-group occurrence closure over any selection of a reconciled pack's documents. */
module PilotClosure {
  import opened Ordering
  import opened Wrappers
  import opened PilotFrame
  import opened PilotBuilder
  import opened PilotVerifier

  // ------------------------------------------------------------- reconciled packs

  /** An occurrence names at most one document, and that document binds its relation. */
  ghost predicate BindsOne(documents: seq<Document>, o: Occurrence) {
    && |o.documents| <= 1
    && forall id <- o.documents :: exists d :: d in documents && d.id == id && d.relations == [o.relation]
  }

  /** Unique sorted rows, one document per occurrence, and counts that are what they say. */
  ghost predicate Counted(documents: seq<Document>, occurrences: seq<Occurrence>) {
    && Ascends(DocumentIds(documents)) && Ascends(OccurrenceIds(occurrences))
    && (forall o <- occurrences :: BindsOne(documents, o))
    && forall d <- documents :: d.count == Mentions(occurrences)[d.id]
  }

  /** What a verified projection pack of base documents satisfies. */
  ghost predicate Reconciled(pack: Pack) { Structured(pack.documents) && Counted(pack.documents, pack.occurrences) }

  // ---------------------------------------------------------- an arbitrary selection

  /** A selected entry holds one of the documents under its own identity. */
  ghost predicate FromPack(documents: seq<Document>, relations: set<string>, id: string, c: Chosen) {
    && c.document in documents && c.document.id == id == c.row.id && c.document.count >= 1
    && forall relation :: c.document.relations == [relation] ==> relation in relations
  }

  ghost predicate Selects(documents: seq<Document>, relations: set<string>, selected: map<string, Chosen>) {
    forall id :: id in selected ==> FromPack(documents, relations, id, selected[id])
  }

  // ------------------------------------------------------------- ascending identities

  ghost predicate Strict(ids: seq<string>) {
    "" !in ids && forall i, j :: 0 <= i < j < |ids| ==> StringLt(ids[i], ids[j])
  }

  lemma StringLtFacts(a: string, b: string, c: string)
    ensures StringLt(a, b) ==> a != b
    ensures StringLt(a, b) && StringLt(b, c) ==> StringLt(a, c)
    ensures StringLt("", a) <==> a != ""
    ensures StringLe(a, b) && a != b ==> StringLt(a, b)
  {
    StringTotalOrder();
    assert StringLe("", a);
    if StringLt(a, b) && StringLt(b, c) {
      assert StringLe(a, b) && StringLe(b, c);
    }
  }

  lemma {:induction false} AscendsStrict(ids: seq<string>)
    requires Ascends(ids)
    ensures Strict(ids)
  {
    if ids != [] {
      var n := |ids| - 1;
      forall i | 0 <= i < n ensures AboveAt(ids[..n], i) {
        assert AboveAt(ids, i);
      }
      AscendsStrict(ids[..n]);
      assert AboveAt(ids, n);
      StringLtFacts(ids[n], ids[n], ids[n]);
      if n > 0 { StringLtFacts("", ids[n-1], ids[n]); }
      assert ids[n] != "" by {
        StringLtFacts("", if n == 0 then "" else ids[n-1], ids[n]);
      }
      forall i | 0 <= i < n ensures StringLt(ids[i], ids[n]) {
        if i < n - 1 {
          assert StringLt(ids[..n][i], ids[..n][n-1]);
          StringLtFacts(ids[i], ids[n-1], ids[n]);
        }
      }
      assert ids == ids[..n] + [ids[n]];
    }
  }

  lemma StrictAscends(ids: seq<string>)
    requires Strict(ids)
    ensures Ascends(ids)
  {
    forall i | 0 <= i < |ids| ensures AboveAt(ids, i) {
      assert ids[i] in ids;
      StringLtFacts(ids[i], ids[i], ids[i]);
    }
  }

  lemma UniqueDocuments(documents: seq<Document>, a: Document, b: Document)
    requires Ascends(DocumentIds(documents)) && a in documents && b in documents && a.id == b.id
    ensures a == b
  {
    var ids := DocumentIds(documents);
    AscendsStrict(ids);
    var i :| 0 <= i < |documents| && documents[i] == a;
    var j :| 0 <= j < |documents| && documents[j] == b;
    if i != j { StringLtFacts(ids[if i < j then i else j], ids[if i < j then j else i], ""); }
  }

  lemma UniqueOccurrences(occurrences: seq<Occurrence>, a: Occurrence, b: Occurrence)
    requires Ascends(OccurrenceIds(occurrences)) && a in occurrences && b in occurrences && a.id == b.id
    ensures a == b
  {
    var ids := OccurrenceIds(occurrences);
    AscendsStrict(ids);
    var i :| 0 <= i < |occurrences| && occurrences[i] == a;
    var j :| 0 <= j < |occurrences| && occurrences[j] == b;
    if i != j { StringLtFacts(ids[if i < j then i else j], ids[if i < j then j else i], ""); }
  }

  // -------------------------------------------------------------- whole retention

  lemma {:induction false} RetainedMembers(occurrences: seq<Occurrence>, ids: set<string>)
    ensures forall o :: o in Retained(occurrences, ids) <==> o in occurrences && Touches(o, ids)
  {
    if occurrences != [] {
      var n := |occurrences| - 1;
      RetainedMembers(occurrences[..n], ids);
      assert occurrences == occurrences[..n] + [occurrences[n]];
    }
  }

  lemma StrictAppend(ids: seq<string>, id: string)
    requires Strict(ids) && id != "" && forall i :: 0 <= i < |ids| ==> StringLt(ids[i], id)
    ensures Strict(ids + [id])
  {}

  lemma {:induction false} RetainedStrict(occurrences: seq<Occurrence>, ids: set<string>)
    requires Strict(OccurrenceIds(occurrences))
    ensures Strict(OccurrenceIds(Retained(occurrences, ids)))
  {
    if occurrences != [] {
      var n := |occurrences| - 1;
      var all := OccurrenceIds(occurrences);
      assert OccurrenceIds(occurrences[..n]) == all[..n];
      RetainedStrict(occurrences[..n], ids);
      RetainedMembers(occurrences[..n], ids);
      var front := Retained(occurrences[..n], ids);
      assert all[n] in all && |front| == |OccurrenceIds(front)|;
      forall i | 0 <= i < |front| ensures StringLt(front[i].id, occurrences[n].id) {
        assert front[i] in front;
        var k :| 0 <= k < n && occurrences[..n][k] == front[i];
        assert StringLt(all[k], all[n]);
      }
      if Touches(occurrences[n], ids) {
        StrictAppend(OccurrenceIds(front), occurrences[n].id);
        assert OccurrenceIds(front + [occurrences[n]]) == OccurrenceIds(front) + [occurrences[n].id];
      } else {
        assert Retained(occurrences, ids) == front;
      }
    }
  }

  lemma NotMentioned(o: Occurrence, ids: set<string>, id: string)
    requires id in ids && !Touches(o, ids)
    ensures multiset(o.documents)[id] == 0
  {
    assert id !in o.documents;
  }

  lemma {:induction false} RetainedMentions(occurrences: seq<Occurrence>, ids: set<string>, id: string)
    requires id in ids
    ensures Mentions(Retained(occurrences, ids))[id] == Mentions(occurrences)[id]
  {
    if occurrences != [] {
      var n := |occurrences| - 1;
      var front := Retained(occurrences[..n], ids);
      RetainedMentions(occurrences[..n], ids, id);
      if Touches(occurrences[n], ids) {
        assert Retained(occurrences, ids) == front + [occurrences[n]];
        MentionsAppend(front, occurrences[n]);
      } else {
        assert Retained(occurrences, ids) == front;
        NotMentioned(occurrences[n], ids, id);
      }
    }
  }

  lemma {:induction false} MentionedBy(occurrences: seq<Occurrence>, id: string) returns (o: Occurrence)
    requires id in Mentions(occurrences)
    ensures o in occurrences && id in o.documents
  {
    var n := |occurrences| - 1;
    if id in Mentions(occurrences[..n]) {
      o := MentionedBy(occurrences[..n], id);
    } else {
      o := occurrences[n];
      assert id in multiset(o.documents);
    }
  }

  lemma {:induction false} NoFault(occurrences: seq<Occurrence>, ids: set<string>, relations: set<string>)
    requires forall o <- occurrences :: |o.documents| <= 1 && (Touches(o, ids) ==> o.relation in relations)
    ensures FirstFault(occurrences, ids, relations) == None
  {
    if occurrences != [] {
      var n := |occurrences| - 1;
      assert occurrences[n] in occurrences;
      NoFault(occurrences[..n], ids, relations);
    }
  }

  lemma TouchedIsWhole(documents: seq<Document>, relations: set<string>, selected: map<string, Chosen>, o: Occurrence)
    requires Ascends(DocumentIds(documents)) && BindsOne(documents, o) && Selects(documents, relations, selected)
    requires Touches(o, selected.Keys)
    ensures o.relation in relations && exists id :: id in selected && o.documents == [id]
  {
    var id :| id in o.documents && id in selected.Keys;
    assert FromPack(documents, relations, id, selected[id]);
    var d :| d in documents && d.id == id && d.relations == [o.relation];
    UniqueDocuments(documents, d, selected[id].document);
    assert o.documents == [id];
  }

  /** Retaining whole groups meets neither a mixed occurrence nor an unknown relation. */
  lemma RetentionSucceeds(documents: seq<Document>, occurrences: seq<Occurrence>, relations: set<string>, selected: map<string, Chosen>)
    requires Counted(documents, occurrences) && Selects(documents, relations, selected)
    ensures FirstFault(occurrences, selected.Keys, relations) == None
  {
    forall o | o in occurrences
      ensures |o.documents| <= 1 && (Touches(o, selected.Keys) ==> o.relation in relations)
    {
      assert BindsOne(documents, o);
      if Touches(o, selected.Keys) { TouchedIsWhole(documents, relations, selected, o); }
    }
    NoFault(occurrences, selected.Keys, relations);
  }

  /** The kept occurrences close every selected document's declared count. */
  lemma ClosureHolds(documents: seq<Document>, occurrences: seq<Occurrence>, relations: set<string>, selected: map<string, Chosen>)
    requires Counted(documents, occurrences) && Selects(documents, relations, selected)
    ensures Closed(selected, Mentions(Retained(occurrences, selected.Keys)))
  {
    forall id | id in selected
      ensures Mentions(Retained(occurrences, selected.Keys))[id] == selected[id].document.count
    {
      assert FromPack(documents, relations, id, selected[id]);
      RetainedMentions(occurrences, selected.Keys, id);
    }
  }

  /** Every occurrence of every selected document is kept, and no other. */
  lemma RetainsExactly(documents: seq<Document>, occurrences: seq<Occurrence>, relations: set<string>, selected: map<string, Chosen>, o: Occurrence)
    requires Counted(documents, occurrences) && Selects(documents, relations, selected) && o in occurrences
    ensures o in Retained(occurrences, selected.Keys) <==> exists id :: id in selected && o.documents == [id]
  {
    RetainedMembers(occurrences, selected.Keys);
    if Touches(o, selected.Keys) {
      TouchedIsWhole(documents, relations, selected, o);
    }
  }

  // -------------------------------------------------- what the verifier then sees

  lemma EmittedIds(documents: seq<Document>, relations: set<string>, selected: map<string, Chosen>)
    requires Selects(documents, relations, selected)
    ensures DocumentIds(DocumentsOf(selected, SortedKeys(selected))) == SortedKeys(selected)
    ensures RowIds(RowsOf(selected, SortedKeys(selected))) == SortedKeys(selected)
  {
    var ids := SortedKeys(selected);
    forall i | 0 <= i < |ids| ensures selected[ids[i]].document.id == ids[i] == selected[ids[i]].row.id {
      assert FromPack(documents, relations, ids[i], selected[ids[i]]);
    }
  }

  lemma SortedIdsAscend(documents: seq<Document>, relations: set<string>, selected: map<string, Chosen>)
    requires Ascends(DocumentIds(documents)) && Selects(documents, relations, selected)
    ensures Ascends(SortedKeys(selected))
  {
    var ids := SortedKeys(selected);
    StringTotalOrder();
    SetToSortedAscends(StringLe, selected.Keys);
    forall i, j | 0 <= i < j < |ids| ensures StringLt(ids[i], ids[j]) {
      StringLtFacts(ids[i], ids[j], "");
    }
    forall i | 0 <= i < |ids| ensures ids[i] != "" {
      assert FromPack(documents, relations, ids[i], selected[ids[i]]);
      NonEmptyId(documents, selected[ids[i]].document);
    }
    StrictAscends(ids);
  }

  lemma NonEmptyId(documents: seq<Document>, d: Document)
    requires Ascends(DocumentIds(documents)) && d in documents
    ensures d.id != ""
  {
    var ids := DocumentIds(documents);
    AscendsStrict(ids);
    var i :| 0 <= i < |documents| && documents[i] == d;
    assert ids[i] in ids;
  }

  lemma CountsAgreeWith(documents: seq<Document>, occurrences: seq<Occurrence>, relations: set<string>, selected: map<string, Chosen>)
    requires Counted(documents, occurrences) && Selects(documents, relations, selected)
    ensures CountsAgree(DocumentsOf(selected, SortedKeys(selected)), Mentions(Retained(occurrences, selected.Keys)))
  {
    var ids, kept := SortedKeys(selected), Retained(occurrences, selected.Keys);
    ClosureHolds(documents, occurrences, relations, selected);
    EmittedIds(documents, relations, selected);
    forall i | 0 <= i < |ids| ensures ids[i] in Mentions(kept) && Mentions(kept)[ids[i]] == selected[ids[i]].document.count {
      assert FromPack(documents, relations, ids[i], selected[ids[i]]);
    }
    forall id | id in Mentions(kept) ensures id in ids {
      var o := MentionedBy(kept, id);
      RetainedMembers(occurrences, selected.Keys);
      assert BindsOne(documents, o);
      TouchedIsWhole(documents, relations, selected, o);
    }
  }

  lemma EmittedConsistent(pack: Pack, relations: set<string>, selected: map<string, Chosen>, s: Sample)
    requires Counted(pack.documents, pack.occurrences) && Selects(pack.documents, relations, selected)
    requires s.documents == DocumentsOf(selected, SortedKeys(selected)) && s.selection == RowsOf(selected, SortedKeys(selected))
    requires s.occurrences == Retained(pack.occurrences, selected.Keys)
    requires s.selectedDocuments == |selected| && s.selectedOccurrences == |s.occurrences|
    ensures Consistent(s)
  {
    EmittedIds(pack.documents, relations, selected);
    SortedIdsAscend(pack.documents, relations, selected);
    AscendsStrict(OccurrenceIds(pack.occurrences));
    RetainedStrict(pack.occurrences, selected.Keys);
    StrictAscends(OccurrenceIds(s.occurrences));
    CountsAgreeWith(pack.documents, pack.occurrences, relations, selected);
  }

  lemma EmittedMatches(pack: Pack, relations: set<string>, selected: map<string, Chosen>, s: Sample)
    requires Counted(pack.documents, pack.occurrences) && Selects(pack.documents, relations, selected)
    requires s.documents == DocumentsOf(selected, SortedKeys(selected))
    requires s.occurrences == Retained(pack.occurrences, selected.Keys)
    ensures DocumentsMatch(s, pack) && OccurrencesMatch(s, pack)
  {
    var ids := SortedKeys(selected);
    forall e | e in s.documents ensures e in pack.documents && e.id in DocumentIds(pack.documents) {
      var i :| 0 <= i < |ids| && s.documents[i] == e;
      assert FromPack(pack.documents, relations, ids[i], selected[ids[i]]);
      DocumentIdIn(pack.documents, e);
    }
    forall d, e | d in pack.documents && e in s.documents && d.id == e.id ensures d == e {
      UniqueDocuments(pack.documents, d, e);
    }
    EmittedOccurrencesMatch(pack, relations, selected, s);
  }

  lemma DocumentIdIn(documents: seq<Document>, d: Document)
    requires d in documents
    ensures d.id in DocumentIds(documents)
  {
    var i :| 0 <= i < |documents| && documents[i] == d;
    assert DocumentIds(documents)[i] == d.id;
  }

  lemma OccurrenceIdIn(occurrences: seq<Occurrence>, o: Occurrence)
    requires o in occurrences
    ensures o.id in OccurrenceIds(occurrences)
  {
    var i :| 0 <= i < |occurrences| && occurrences[i] == o;
    assert OccurrenceIds(occurrences)[i] == o.id;
  }

  lemma EmittedOccurrencesMatch(pack: Pack, relations: set<string>, selected: map<string, Chosen>, s: Sample)
    requires Counted(pack.documents, pack.occurrences) && Selects(pack.documents, relations, selected)
    requires s.documents == DocumentsOf(selected, SortedKeys(selected))
    requires s.occurrences == Retained(pack.occurrences, selected.Keys)
    ensures OccurrencesMatch(s, pack)
  {
    EmittedIds(pack.documents, relations, selected);
    var ids := set d | d in DocumentIds(s.documents);
    assert ids == selected.Keys;
    RetainedMembers(pack.occurrences, selected.Keys);
    forall o | o in pack.occurrences && Touches(o, ids) ensures o.id in OccurrenceIds(s.occurrences) {
      OccurrenceIdIn(s.occurrences, o);
    }
    forall o, e | o in pack.occurrences && e in s.occurrences && o.id == e.id ensures o == e {
      UniqueOccurrences(pack.occurrences, o, e);
    }
    forall e | e in s.occurrences ensures e.id in OccurrenceIds(pack.occurrences) {
      OccurrenceIdIn(pack.occurrences, e);
    }
  }
}
