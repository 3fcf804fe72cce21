/** Derived documents, their membership rows, the pack writer and the independent verifier. */
module DerivationPack {
  import opened Ordering
  import opened Wrappers
  import opened MembershipDigest
  import opened DerivationTypes

  /** The component references every row repeats. */
  datatype Context = Context(snapshot: string, basePack: string, policy: string)

  datatype Identity = Identity(context: Context, kind: Kind, groupSha: string, aggregate: Aggregate, inputSet: string)

  datatype Document = Document(
    documentId: string, documentSha: string, context: Context, kind: Kind, groupSha: string,
    aggregate: Aggregate, inputCount: nat, inputSet: string, occurrenceCount: nat)

  datatype MembershipRow = MembershipRow(
    membershipId: string, membershipSha: string, documentId: string, occurrenceId: string, role: string,
    policy: string, entityId: Option<string>)

  datatype MembershipIdentity = MembershipIdentity(
    documentId: string, occurrenceId: string, role: string, policy: string, entityId: Option<string>)

  /** SHA-256 over canonical JSON, per kind of material. */
  datatype Hashes = Hashes(
    group: (GroupKey, string) -> string,
    identity: Identity -> string,
    document: Document -> string,
    membership: MembershipIdentity -> string,
    row: MembershipRow -> string,
    members: Codec)

  /** No two group keys, and no two document identities, share a digest. */
  ghost predicate NoCollisions(h: Hashes) {
    && (forall k, k', p :: h.group(k, p) == h.group(k', p) ==> k == k')
    && Injective(h.identity)
  }

  datatype Manifest = Manifest(context: Context, documentCount: nat, membershipCount: nat, baseCount: nat)

  /** included/excluded are the applicable and not applicable records of a window or transition
      family, and the records with and without participants of the entity family. */
  datatype FamilyCoverage = FamilyCoverage(
    documents: int, memberships: int, included: int, excluded: int, eligible: int, ineligible: int)

  datatype Coverage = Coverage(
    documentCount: nat, membershipCount: nat, relationCounts: multiset<string>, families: map<Kind, FamilyCoverage>)

  datatype Pack = Pack(
    manifest: Manifest, documents: seq<Document>, memberships: seq<MembershipRow>, coverage: Coverage)

  // ---------------------------------------------------------------- making rows

  function Occurrences(members: seq<Member>): set<string> { set m | m in members :: m.occurrenceId }

  function DocumentIdOf(h: Hashes, d: Document): string {
    "ddoc-" + h.identity(Identity(d.context, d.kind, d.groupSha, d.aggregate, d.inputSet))
  }

  function DocumentShaOf(h: Hashes, d: Document): string { h.document(d.(documentSha := "")) }

  function MakeDocument(h: Hashes, context: Context, g: Group): Document {
    var blank := Document("", "", context, g.key.Kind(), h.group(g.key, context.policy), g.aggregate,
                          |g.members|, SetDigest(h.members, g.members), |Occurrences(g.members)|);
    var named := blank.(documentId := DocumentIdOf(h, blank));
    named.(documentSha := DocumentShaOf(h, named))
  }

  function MembershipIdOf(h: Hashes, r: MembershipRow): string {
    "dmem-" + h.membership(MembershipIdentity(r.documentId, r.occurrenceId, r.role, r.policy, r.entityId))
  }

  function MembershipShaOf(h: Hashes, r: MembershipRow): string { h.row(r.(membershipSha := "")) }

  function MakeMembership(h: Hashes, documentId: string, m: Member, policy: string, entityId: Option<string>): MembershipRow {
    var blank := MembershipRow("", "", documentId, m.occurrenceId, m.role, policy, entityId);
    var named := blank.(membershipId := MembershipIdOf(h, blank));
    named.(membershipSha := MembershipShaOf(h, named))
  }

  function MakeMemberships(h: Hashes, documentId: string, members: seq<Member>, policy: string, entityId: Option<string>)
    : seq<MembershipRow>
  {
    seq(|members|, i requires 0 <= i < |members| => MakeMembership(h, documentId, members[i], policy, entityId))
  }

  function EntityOf(g: Group): Option<string> {
    if g.key.EntityKey? then Some(g.key.entityId) else None
  }

  // --------------------------------------------------------------------- writer

  /** Streams documents and memberships and keeps the running counts of the manifest. */
  class OutputWriter {
    var documents: seq<Document>
    var memberships: seq<MembershipRow>
    var documentCount: nat
    var membershipCount: nat
    var byKind: multiset<Kind>

    ghost predicate Valid()
      reads this
    {
      && documentCount == |documents| && membershipCount == |memberships|
      && byKind == KindCounts(documents)
    }

    constructor ()
      ensures Valid() && documents == [] && memberships == []
    {
      documents, memberships, documentCount, membershipCount, byKind := [], [], 0, 0, multiset{};
    }

    method Add(h: Hashes, document: Document, members: seq<Member>, policy: string, entityId: Option<string>)
      requires Valid()
      modifies this
      ensures Valid()
      ensures documents == old(documents) + [document]
      ensures memberships == old(memberships)
                           + MakeMemberships(h, document.documentId, Sort(MemberLe, members), policy, entityId)
    {
      documents := documents + [document];
      documentCount := documentCount + 1;
      byKind := byKind + multiset{document.kind};
      var sorted := Sort(MemberLe, members);
      ghost var due := MakeMemberships(h, document.documentId, sorted, policy, entityId);
      for i := 0 to |sorted|
        invariant documents == old(documents) + [document] && documentCount == old(documentCount) + 1
        invariant byKind == old(byKind) + multiset{document.kind} && membershipCount == |memberships|
        invariant memberships == old(memberships) + due[..i]
      {
        TakeStep(due, i);
        ConcatAssociative(old(memberships), due[..i], [due[i]]);
        memberships := memberships + [MakeMembership(h, document.documentId, sorted[i], policy, entityId)];
        membershipCount := membershipCount + 1;
      }
      KindCountsAppend(old(documents), document);
    }
  }

  function KindCounts(documents: seq<Document>): multiset<Kind> {
    if documents == [] then multiset{}
    else KindCounts(documents[..|documents|-1]) + multiset{documents[|documents|-1].kind}
  }

  lemma ConcatAssociative<T>(a: seq<T>, b: seq<T>, c: seq<T>)
    ensures (a + b) + c == a + (b + c)
  {}

  lemma TakeStep<T>(s: seq<T>, i: nat)
    requires i < |s|
    ensures s[..i+1] == s[..i] + [s[i]]
  {}

  lemma KindCountsAppend(documents: seq<Document>, d: Document)
    ensures KindCounts(documents + [d]) == KindCounts(documents) + multiset{d.kind}
  {
    assert (documents + [d])[..|documents|] == documents;
  }

  // --------------------------------------------- what a sequence of groups writes

  function DocumentsOf(h: Hashes, context: Context, groups: seq<Group>): seq<Document> {
    seq(|groups|, i requires 0 <= i < |groups| => MakeDocument(h, context, groups[i]))
  }

  function GroupRows(h: Hashes, context: Context, g: Group): seq<MembershipRow> {
    MakeMemberships(h, MakeDocument(h, context, g).documentId, Sort(MemberLe, g.members), context.policy, EntityOf(g))
  }

  function RowsOf(h: Hashes, context: Context, groups: seq<Group>): seq<MembershipRow> {
    if groups == [] then []
    else RowsOf(h, context, groups[..|groups|-1]) + GroupRows(h, context, groups[|groups|-1])
  }

  /** The digest of the members exists: no repeated tuple, no oversized encoding. */
  ghost predicate HasDigest(h: Hashes, g: Group) { Distinct(g.members) && AllFit(h.members, g.members) }

  ghost predicate Digestible(h: Hashes, groups: seq<Group>) {
    groups == [] || (Digestible(h, groups[..|groups|-1]) && HasDigest(h, groups[|groups|-1]))
  }

  lemma {:induction false} DigestibleAt(h: Hashes, groups: seq<Group>)
    ensures Digestible(h, groups) <==> forall g <- groups :: HasDigest(h, g)
  {
    if groups != [] {
      DigestibleAt(h, groups[..|groups|-1]);
      assert groups == groups[..|groups|-1] + [groups[|groups|-1]];
    }
  }

  lemma WriteStep(h: Hashes, context: Context, groups: seq<Group>, i: nat)
    requires i < |groups|
    ensures DocumentsOf(h, context, groups[..i+1])
         == DocumentsOf(h, context, groups[..i]) + [MakeDocument(h, context, groups[i])]
    ensures RowsOf(h, context, groups[..i+1]) == RowsOf(h, context, groups[..i]) + GroupRows(h, context, groups[i])
    ensures Digestible(h, groups[..i+1]) <==> Digestible(h, groups[..i]) && HasDigest(h, groups[i])
  {
    assert groups[..i+1][..i] == groups[..i];
  }

  method WriteGroup(h: Hashes, context: Context, g: Group, writer: OutputWriter) returns (ok: bool)
    requires writer.Valid()
    modifies writer
    ensures writer.Valid()
    ensures ok <==> HasDigest(h, g)
    ensures ok ==> writer.documents == old(writer.documents) + [MakeDocument(h, context, g)]
    ensures ok ==> writer.memberships == old(writer.memberships) + GroupRows(h, context, g)
  {
    var digest := MembershipSetDigest(h.members, g.members);
    if !digest.Digest? {
      return false;
    }
    writer.Add(h, MakeDocument(h, context, g), g.members, context.policy, EntityOf(g));
    return true;
  }

  /** Emit every group; false when a membership digest is refused. */
  method WriteGroups(h: Hashes, context: Context, groups: seq<Group>, writer: OutputWriter) returns (ok: bool)
    requires writer.Valid()
    modifies writer
    ensures writer.Valid()
    ensures ok <==> Digestible(h, groups)
    ensures ok ==> writer.documents == old(writer.documents) + DocumentsOf(h, context, groups)
    ensures ok ==> writer.memberships == old(writer.memberships) + RowsOf(h, context, groups)
  {
    for i := 0 to |groups|
      invariant writer.Valid()
      invariant Digestible(h, groups[..i])
      invariant writer.documents == old(writer.documents) + DocumentsOf(h, context, groups[..i])
      invariant writer.memberships == old(writer.memberships) + RowsOf(h, context, groups[..i])
    {
      WriteStep(h, context, groups, i);
      ConcatAssociative(old(writer.documents), DocumentsOf(h, context, groups[..i]), [MakeDocument(h, context, groups[i])]);
      ConcatAssociative(old(writer.memberships), RowsOf(h, context, groups[..i]), GroupRows(h, context, groups[i]));
      ok := WriteGroup(h, context, groups[i], writer);
      if !ok {
        DigestibleAt(h, groups);
        return;
      }
    }
    assert groups[..|groups|] == groups;
    ok := true;
  }
}
