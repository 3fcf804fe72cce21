/** The independent verifier of a derivation pack, and its agreement with the writer. */
module DerivationVerifier {
  import opened Ordering
  import opened MembershipDigest
  import opened DerivationTypes
  import opened DerivationPack

  datatype Verdict = Accepted | Corrupt(stage: Stage)
  datatype Stage = InDocuments | InMemberships | InMemberSets | InCounts

  // ---------------------------------------------------- what the verifier checks

  ghost predicate DocumentOk(h: Hashes, context: Context, d: Document) {
    d.documentSha == DocumentShaOf(h, d) && d.context == context && d.documentId == DocumentIdOf(h, d)
  }

  ghost predicate UniqueIds(documents: seq<Document>) {
    forall i, j :: 0 <= i < j < |documents| ==> documents[i].documentId != documents[j].documentId
  }

  ghost predicate DocumentsOk(h: Hashes, context: Context, documents: seq<Document>) {
    UniqueIds(documents) && forall d <- documents :: DocumentOk(h, context, d)
  }

  predicate RowShapeOk(h: Hashes, policy: string, kind: Kind, r: MembershipRow) {
    && r.policy == policy
    && (if kind == EntitySummary then r.entityId.Some? && r.entityId.value != "" else r.entityId.None?)
    && r.membershipSha == MembershipShaOf(h, r)
    && r.membershipId == MembershipIdOf(h, r)
  }

  ghost predicate RowOk(h: Hashes, policy: string, documents: seq<Document>, r: MembershipRow) {
    exists d :: d in documents && d.documentId == r.documentId && RowShapeOk(h, policy, d.kind, r)
  }

  ghost predicate RowsOk(h: Hashes, policy: string, documents: seq<Document>, rows: seq<MembershipRow>) {
    forall r <- rows :: RowOk(h, policy, documents, r)
  }

  /** The members recorded for one document, in file order. */
  function MembersOf(rows: seq<MembershipRow>, documentId: string): seq<Member> {
    if rows == [] then []
    else
      var r := rows[|rows|-1];
      MembersOf(rows[..|rows|-1], documentId)
      + if r.documentId == documentId then [Member(r.occurrenceId, r.role)] else []
  }

  ghost predicate MemberSetOk(h: Hashes, d: Document, members: seq<Member>) {
    && Distinct(members) && AllFit(h.members, members)
    && d.inputCount == |members|
    && d.inputSet == SetDigest(h.members, members)
    && d.occurrenceCount == |Occurrences(members)|
  }

  ghost predicate MemberSetsOk(h: Hashes, documents: seq<Document>, rows: seq<MembershipRow>) {
    forall d <- documents :: MemberSetOk(h, d, MembersOf(rows, d.documentId))
  }

  /** How many rows belong to documents of that kind. */
  function RowsOfKind(documents: seq<Document>, rows: seq<MembershipRow>, kind: Kind): nat {
    if documents == [] then 0
    else
      var d := documents[|documents|-1];
      RowsOfKind(documents[..|documents|-1], rows, kind)
      + if d.kind == kind then |MembersOf(rows, d.documentId)| else 0
  }

  const KINDS := {MetricWindow, NetworkWindow, StateTransition, EntitySummary}

  predicate FamilyOk(p: Pack, kind: Kind) {
    && kind in p.coverage.families
    && var f := p.coverage.families[kind];
      && f.documents == KindCounts(p.documents)[kind]
      && f.memberships == RowsOfKind(p.documents, p.memberships, kind)
      && f.included + f.excluded == p.manifest.baseCount
      && (kind == MetricWindow || kind == NetworkWindow ==> f.eligible + f.ineligible == f.included)
  }

  predicate CountsOk(p: Pack) {
    && p.manifest.documentCount == |p.documents| == p.coverage.documentCount
    && p.manifest.membershipCount == |p.memberships| == p.coverage.membershipCount
    && |p.coverage.relationCounts| == p.manifest.baseCount
    && forall kind <- KINDS :: FamilyOk(p, kind)
  }

  ghost predicate PackOk(h: Hashes, policy: string, p: Pack) {
    && p.manifest.context.policy == policy
    && DocumentsOk(h, p.manifest.context, p.documents)
    && RowsOk(h, policy, p.documents, p.memberships)
    && MemberSetsOk(h, p.documents, p.memberships)
    && CountsOk(p)
  }

  // -------------------------------------------------------------- the verifier

  /** documents: dict[str, dict], filled while streaming documents.jsonl. */
  ghost predicate Indexes(byId: map<string, Document>, documents: seq<Document>) {
    && (forall d <- documents :: d.documentId in byId && byId[d.documentId] == d)
    && forall id :: id in byId ==> byId[id] in documents && byId[id].documentId == id
  }

  method VerifyDocuments(h: Hashes, context: Context, documents: seq<Document>)
    returns (ok: bool, byId: map<string, Document>)
    ensures ok <==> DocumentsOk(h, context, documents)
    ensures ok ==> Indexes(byId, documents)
  {
    byId := map[];
    for i := 0 to |documents|
      invariant DocumentsOk(h, context, documents[..i]) && Indexes(byId, documents[..i])
    {
      var d := documents[i];
      assert documents[..i+1] == documents[..i] + [d];
      if d.documentId in byId {
        assert byId[d.documentId] in documents[..i];
        return false, byId;
      }
      if d.documentSha != DocumentShaOf(h, d) || d.context != context || d.documentId != DocumentIdOf(h, d) {
        assert d in documents && !DocumentOk(h, context, d);
        return false, byId;
      }
      byId := byId[d.documentId := d];
    }
    assert documents[..|documents|] == documents;
    ok := true;
  }

  method VerifyMemberships(h: Hashes, policy: string, documents: seq<Document>, byId: map<string, Document>,
                           rows: seq<MembershipRow>)
    returns (ok: bool, members: map<string, seq<Member>>)
    requires Indexes(byId, documents)
    ensures ok <==> RowsOk(h, policy, documents, rows)
    ensures ok ==> forall id :: MembersOf(rows, id) == if id in members then members[id] else []
  {
    members := map[];
    for i := 0 to |rows|
      invariant RowsOk(h, policy, documents, rows[..i])
      invariant forall id :: MembersOf(rows[..i], id) == if id in members then members[id] else []
    {
      var r := rows[i];
      assert rows[..i+1] == rows[..i] + [r] && rows[..i+1][..i] == rows[..i];
      if r.documentId !in byId || !RowShapeOk(h, policy, byId[r.documentId].kind, r) {
        assert r in rows;
        assert !RowOk(h, policy, documents, r);
        return false, members;
      }
      assert RowOk(h, policy, documents, r);
      var known := if r.documentId in members then members[r.documentId] else [];
      members := members[r.documentId := known + [Member(r.occurrenceId, r.role)]];
    }
    assert rows[..|rows|] == rows;
    ok := true;
  }

  method VerifyMemberSet(h: Hashes, d: Document, members: seq<Member>) returns (ok: bool)
    ensures ok <==> MemberSetOk(h, d, members)
  {
    if d.inputCount != |members| || d.occurrenceCount != |Occurrences(members)| {
      return false;
    }
    var digest := MembershipSetDigest(h.members, members);
    ok := digest.Digest? && digest.sha256 == d.inputSet;
  }

  method VerifyMemberSets(h: Hashes, documents: seq<Document>, rows: seq<MembershipRow>, members: map<string, seq<Member>>)
    returns (ok: bool)
    requires forall id :: MembersOf(rows, id) == if id in members then members[id] else []
    ensures ok <==> MemberSetsOk(h, documents, rows)
  {
    for i := 0 to |documents|
      invariant forall j :: 0 <= j < i ==> MemberSetOk(h, documents[j], MembersOf(rows, documents[j].documentId))
    {
      var d := documents[i];
      var found := VerifyMemberSet(h, d, if d.documentId in members then members[d.documentId] else []);
      if !found {
        assert d in documents;
        return false;
      }
    }
    ok := true;
  }

  method VerifyDerivationPack(h: Hashes, policy: string, p: Pack) returns (v: Verdict)
    ensures v.Accepted? <==> PackOk(h, policy, p)
  {
    if p.manifest.context.policy != policy {
      return Corrupt(InDocuments);
    }
    var ok, byId := VerifyDocuments(h, p.manifest.context, p.documents);
    if !ok { return Corrupt(InDocuments); }
    var members;
    ok, members := VerifyMemberships(h, policy, p.documents, byId, p.memberships);
    if !ok { return Corrupt(InMemberships); }
    ok := VerifyMemberSets(h, p.documents, p.memberships, members);
    if !ok { return Corrupt(InMemberSets); }
    return if CountsOk(p) then Accepted else Corrupt(InCounts);
  }
}
