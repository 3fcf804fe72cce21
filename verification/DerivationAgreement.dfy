/** Whatever the writer writes, the verifier accepts: agreement at the level of groups. */
module DerivationAgreement {
  import opened Ordering
  import opened Wrappers
  import opened MembershipDigest
  import opened DerivationTypes
  import opened DerivationPack
  import opened DerivationVerifier
  import opened Families

  // --------------------------------------------------------------- document ids

  lemma SameIdSameKey(h: Hashes, context: Context, g: Group, g': Group)
    requires NoCollisions(h)
    requires MakeDocument(h, context, g).documentId == MakeDocument(h, context, g').documentId
    ensures g.key == g'.key
  {
    var a, b := MakeDocument(h, context, g), MakeDocument(h, context, g');
    assert a.documentId[5..] == b.documentId[5..];
    var x := Identity(context, g.key.Kind(), a.groupSha, g.aggregate, a.inputSet);
    var y := Identity(context, g'.key.Kind(), b.groupSha, g'.aggregate, b.inputSet);
    assert a.documentId[5..] == h.identity(x) && b.documentId[5..] == h.identity(y);
    assert x == y;
  }

  lemma WrittenIdsUnique(h: Hashes, context: Context, groups: seq<Group>)
    requires NoCollisions(h) && DistinctKeys(groups)
    ensures UniqueIds(DocumentsOf(h, context, groups))
  {
    var ds := DocumentsOf(h, context, groups);
    forall i, j | 0 <= i < j < |ds| ensures ds[i].documentId != ds[j].documentId {
      if ds[i].documentId == ds[j].documentId { SameIdSameKey(h, context, groups[i], groups[j]); }
    }
  }

  lemma MadeDocumentOk(h: Hashes, context: Context, g: Group)
    ensures DocumentOk(h, context, MakeDocument(h, context, g))
  {}

  lemma WrittenDocumentsOk(h: Hashes, context: Context, groups: seq<Group>)
    requires NoCollisions(h) && DistinctKeys(groups)
    ensures DocumentsOk(h, context, DocumentsOf(h, context, groups))
  {
    WrittenIdsUnique(h, context, groups);
    forall g { MadeDocumentOk(h, context, g); }
  }

  // ------------------------------------------------------------ recorded members

  lemma {:induction false} MembersOfConcat(a: seq<MembershipRow>, b: seq<MembershipRow>, id: string)
    ensures MembersOf(a + b, id) == MembersOf(a, id) + MembersOf(b, id)
  {
    if b == [] {
      assert a + b == a;
    } else {
      var n := |b| - 1;
      MembersOfConcat(a, b[..n], id);
      assert (a + b)[..|a + b| - 1] == a + b[..n];
    }
  }

  lemma {:induction false} MembersOfMade(h: Hashes, documentId: string, members: seq<Member>, policy: string,
                                         entityId: Option<string>, id: string)
    ensures MembersOf(MakeMemberships(h, documentId, members, policy, entityId), id)
         == if documentId == id then members else []
  {
    if members != [] {
      var n := |members| - 1;
      MembersOfMade(h, documentId, members[..n], policy, entityId, id);
      var rows := MakeMemberships(h, documentId, members, policy, entityId);
      assert rows[..n] == MakeMemberships(h, documentId, members[..n], policy, entityId);
      assert members == members[..n] + [members[n]];
    }
  }

  function IdOf(h: Hashes, context: Context, g: Group): string { MakeDocument(h, context, g).documentId }

  lemma GroupRowsMembers(h: Hashes, context: Context, g: Group, id: string)
    ensures MembersOf(GroupRows(h, context, g), id) == if IdOf(h, context, g) == id then Sort(MemberLe, g.members) else []
  {
    MembersOfMade(h, IdOf(h, context, g), Sort(MemberLe, g.members), context.policy, EntityOf(g), id);
  }

  function Flatten(pieces: seq<seq<MembershipRow>>): seq<MembershipRow> {
    if pieces == [] then [] else Flatten(pieces[..|pieces|-1]) + pieces[|pieces|-1]
  }

  /** Only one piece names the document: its members are what is recorded. */
  lemma {:induction false} OnlyPiece(pieces: seq<seq<MembershipRow>>, i: nat, id: string)
    requires i < |pieces| && forall j :: 0 <= j < |pieces| && j != i ==> MembersOf(pieces[j], id) == []
    ensures MembersOf(Flatten(pieces), id) == MembersOf(pieces[i], id)
  {
    var n := |pieces| - 1;
    MembersOfConcat(Flatten(pieces[..n]), pieces[n], id);
    if i < n {
      OnlyPiece(pieces[..n], i, id);
    } else {
      NoPiece(pieces[..n], id);
    }
  }

  lemma {:induction false} NoPiece(pieces: seq<seq<MembershipRow>>, id: string)
    requires forall j :: 0 <= j < |pieces| ==> MembersOf(pieces[j], id) == []
    ensures MembersOf(Flatten(pieces), id) == []
  {
    if pieces != [] {
      NoPiece(pieces[..|pieces|-1], id);
      MembersOfConcat(Flatten(pieces[..|pieces|-1]), pieces[|pieces|-1], id);
    }
  }

  function Pieces(h: Hashes, context: Context, groups: seq<Group>): seq<seq<MembershipRow>> {
    seq(|groups|, i requires 0 <= i < |groups| => GroupRows(h, context, groups[i]))
  }

  lemma {:induction false} RowsAreFlattened(h: Hashes, context: Context, groups: seq<Group>)
    ensures RowsOf(h, context, groups) == Flatten(Pieces(h, context, groups))
  {
    if groups != [] {
      var n := |groups| - 1;
      RowsAreFlattened(h, context, groups[..n]);
      assert Pieces(h, context, groups)[..n] == Pieces(h, context, groups[..n]);
    }
  }

  lemma IdsDiffer(h: Hashes, context: Context, groups: seq<Group>, i: nat)
    requires NoCollisions(h) && DistinctKeys(groups) && i < |groups|
    ensures forall j :: 0 <= j < |groups| && j != i ==> IdOf(h, context, groups[j]) != IdOf(h, context, groups[i])
  {
    forall j | 0 <= j < |groups| && j != i ensures IdOf(h, context, groups[j]) != IdOf(h, context, groups[i]) {
      OtherId(h, context, groups[j], groups[i]);
    }
  }

  /** The members recorded for a group's document are its members, sorted. */
  lemma RecordedMembers(h: Hashes, context: Context, groups: seq<Group>, i: nat)
    requires NoCollisions(h) && DistinctKeys(groups) && i < |groups|
    ensures MembersOf(RowsOf(h, context, groups), IdOf(h, context, groups[i])) == Sort(MemberLe, groups[i].members)
  {
    var pieces, id := Pieces(h, context, groups), IdOf(h, context, groups[i]);
    IdsDiffer(h, context, groups, i);
    forall j | 0 <= j < |groups| ensures MembersOf(pieces[j], id) == if j == i then Sort(MemberLe, groups[i].members) else [] {
      GroupRowsMembers(h, context, groups[j], id);
    }
    RowsAreFlattened(h, context, groups);
    OnlyPiece(pieces, i, id);
  }

  lemma OtherId(h: Hashes, context: Context, g: Group, g': Group)
    requires NoCollisions(h) && g.key != g'.key
    ensures IdOf(h, context, g) != IdOf(h, context, g')
  {
    if IdOf(h, context, g) == IdOf(h, context, g') { SameIdSameKey(h, context, g, g'); }
  }

  lemma OccurrencesOfSorted(members: seq<Member>)
    ensures Occurrences(Sort(MemberLe, members)) == Occurrences(members)
  {
    SortMembers(MemberLe, members);
  }

  lemma MemberSetMatches(h: Hashes, context: Context, g: Group)
    requires HasDigest(h, g)
    ensures MemberSetOk(h, MakeDocument(h, context, g), Sort(MemberLe, g.members))
  {
    DistinctSort(MemberLe, g.members);
    SortMembers(MemberLe, g.members);
    OccurrencesOfSorted(g.members);
    SetDigestPermutation(h.members, Sort(MemberLe, g.members), g.members);
  }

  lemma WrittenMemberSetsOk(h: Hashes, context: Context, groups: seq<Group>)
    requires NoCollisions(h) && DistinctKeys(groups) && Digestible(h, groups)
    ensures MemberSetsOk(h, DocumentsOf(h, context, groups), RowsOf(h, context, groups))
  {
    DigestibleAt(h, groups);
    var ds := DocumentsOf(h, context, groups);
    forall i | 0 <= i < |ds| ensures MemberSetOk(h, ds[i], MembersOf(RowsOf(h, context, groups), ds[i].documentId)) {
      assert groups[i] in groups;
      RecordedMembers(h, context, groups, i);
      MemberSetMatches(h, context, groups[i]);
    }
  }

  // -------------------------------------------------------------- membership rows

  predicate Named(g: Group) { g.key.EntityKey? ==> g.key.entityId != "" }

  lemma MadeRowShape(h: Hashes, context: Context, g: Group, i: nat)
    requires i < |GroupRows(h, context, g)|
    ensures var r, d := GroupRows(h, context, g)[i], MakeDocument(h, context, g);
      r.documentId == d.documentId && (RowShapeOk(h, context.policy, d.kind, r) <==> Named(g))
  {}

  lemma {:induction false} WrittenRowsOk(h: Hashes, context: Context, groups: seq<Group>, documents: seq<Document>)
    requires forall g <- groups :: Named(g) && MakeDocument(h, context, g) in documents
    ensures RowsOk(h, context.policy, documents, RowsOf(h, context, groups))
  {
    if groups != [] {
      var n := |groups| - 1;
      assert groups[n] in groups;
      WrittenRowsOk(h, context, groups[..n], documents);
      var g := groups[n];
      var rows := GroupRows(h, context, g);
      forall i | 0 <= i < |rows| ensures RowOk(h, context.policy, documents, rows[i]) {
        MadeRowShape(h, context, g, i);
      }
    }
  }

  lemma {:induction false} InFlattened(pieces: seq<seq<MembershipRow>>, i: nat, r: MembershipRow)
    requires i < |pieces| && r in pieces[i]
    ensures r in Flatten(pieces)
  {
    var n := |pieces| - 1;
    if i < n { InFlattened(pieces[..n], i, r); }
  }

  lemma WrittenRow(h: Hashes, context: Context, groups: seq<Group>, i: nat, r: MembershipRow)
    requires i < |groups| && r in GroupRows(h, context, groups[i])
    ensures r in RowsOf(h, context, groups)
  {
    RowsAreFlattened(h, context, groups);
    InFlattened(Pieces(h, context, groups), i, r);
  }

  lemma UnnamedRow(h: Hashes, context: Context, documents: seq<Document>, g: Group)
    requires !Named(g) && g.members != [] && UniqueIds(documents) && MakeDocument(h, context, g) in documents
    ensures GroupRows(h, context, g) != [] && !RowOk(h, context.policy, documents, GroupRows(h, context, g)[0])
  {
    MadeRowShape(h, context, g, 0);
    var r := GroupRows(h, context, g)[0];
    forall d | d in documents && d.documentId == r.documentId ensures !RowShapeOk(h, context.policy, d.kind, r) {
      assert d == MakeDocument(h, context, g);
    }
  }

  /** An unnamed entity with a member leaves a row the verifier refuses. */
  lemma UnnamedRowRefused(h: Hashes, context: Context, groups: seq<Group>, documents: seq<Document>, i: nat)
    requires i < |groups| && !Named(groups[i]) && groups[i].members != []
    requires UniqueIds(documents) && MakeDocument(h, context, groups[i]) in documents
    ensures !RowsOk(h, context.policy, documents, RowsOf(h, context, groups))
  {
    UnnamedRow(h, context, documents, groups[i]);
    WrittenRow(h, context, groups, i, GroupRows(h, context, groups[i])[0]);
  }

  // ---------------------------------------------------------------------- counts

  function MembersOfKind(groups: seq<Group>, kind: Kind): nat {
    if groups == [] then 0
    else MembersOfKind(groups[..|groups|-1], kind)
         + if groups[|groups|-1].key.Kind() == kind then |groups[|groups|-1].members| else 0
  }

  function GroupsOfKind(groups: seq<Group>, kind: Kind): nat {
    if groups == [] then 0
    else GroupsOfKind(groups[..|groups|-1], kind) + if groups[|groups|-1].key.Kind() == kind then 1 else 0
  }

  lemma {:induction false} KindCountsWritten(h: Hashes, context: Context, groups: seq<Group>, kind: Kind)
    ensures KindCounts(DocumentsOf(h, context, groups))[kind] == GroupsOfKind(groups, kind)
  {
    if groups != [] {
      var n := |groups| - 1;
      KindCountsWritten(h, context, groups[..n], kind);
      assert DocumentsOf(h, context, groups)[..n] == DocumentsOf(h, context, groups[..n]);
    }
  }

  lemma {:induction false} KindRows(documents: seq<Document>, groups: seq<Group>, rows: seq<MembershipRow>, kind: Kind)
    requires |documents| == |groups|
    requires forall i :: 0 <= i < |groups| ==> documents[i].kind == groups[i].key.Kind()
    requires forall i :: 0 <= i < |groups| ==> |MembersOf(rows, documents[i].documentId)| == |groups[i].members|
    ensures RowsOfKind(documents, rows, kind) == MembersOfKind(groups, kind)
  {
    if groups != [] {
      KindRows(documents[..|groups|-1], groups[..|groups|-1], rows, kind);
    }
  }

  lemma RowsOfKindWritten(h: Hashes, context: Context, groups: seq<Group>, kind: Kind)
    requires NoCollisions(h) && DistinctKeys(groups)
    ensures RowsOfKind(DocumentsOf(h, context, groups), RowsOf(h, context, groups), kind) == MembersOfKind(groups, kind)
  {
    var ds, rows := DocumentsOf(h, context, groups), RowsOf(h, context, groups);
    forall i | 0 <= i < |groups| ensures |MembersOf(rows, ds[i].documentId)| == |groups[i].members| {
      RecordedMembers(h, context, groups, i);
    }
    KindRows(ds, groups, rows, kind);
  }

  lemma {:induction false} RowsWritten(h: Hashes, context: Context, groups: seq<Group>)
    ensures |RowsOf(h, context, groups)|
         == MembersOfKind(groups, MetricWindow) + MembersOfKind(groups, NetworkWindow)
          + MembersOfKind(groups, StateTransition) + MembersOfKind(groups, EntitySummary)
  {
    if groups != [] { RowsWritten(h, context, groups[..|groups|-1]); }
  }

  lemma {:induction false} KindConcat(a: seq<Group>, b: seq<Group>, kind: Kind)
    ensures MembersOfKind(a + b, kind) == MembersOfKind(a, kind) + MembersOfKind(b, kind)
    ensures GroupsOfKind(a + b, kind) == GroupsOfKind(a, kind) + GroupsOfKind(b, kind)
  {
    if b == [] {
      assert a + b == a;
    } else {
      KindConcat(a, b[..|b|-1], kind);
      assert (a + b)[..|a + b| - 1] == a + b[..|b|-1];
    }
  }

  function MemberTotal(groups: seq<Group>): int { TotalOf(groups, MemberCount) }

  lemma {:induction false} OneKind(groups: seq<Group>, kind: Kind, other: Kind)
    requires forall g <- groups :: g.key.Kind() == kind
    ensures MembersOfKind(groups, other) == if other == kind then MemberTotal(groups) else 0
    ensures GroupsOfKind(groups, other) == if other == kind then |groups| else 0
  {
    if groups != [] {
      var n := |groups| - 1;
      assert groups[n] in groups && groups == groups[..n] + [groups[n]];
      OneKind(groups[..n], kind, other);
      TotalOfAppend(groups[..n], groups[n], MemberCount);
    }
  }
}
