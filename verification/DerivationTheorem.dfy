/** The agreement theorem of the derivation overlay: what a caller must supply for a build to pass
    its own verification. */
module DerivationTheorem {
  import opened Ordering
  import opened MembershipDigest
  import opened DerivationTypes
  import opened Families
  import opened DerivationPack
  import opened DerivationVerifier
  import opened DerivationAgreement
  import opened DerivationBuilder
  import Windows
  import TransitionFamily
  import EntityFamily

  /** What the four families guarantee about their groups. */
  ghost predicate WellDerived(d: Derivation) {
    && FamilyShape(d.metric.groups, MetricWindow, d.metric.eligible)
    && FamilyShape(d.network.groups, NetworkWindow, d.network.eligible)
    && FamilyShape(d.state.groups, StateTransition, 2 * |d.state.groups|)
    && FamilyShape(d.entity, EntitySummary, MemberTotal(d.entity))
  }

  lemma MetricShape(t: Tables, a: Adapters, c: Encoders)
    requires InjectiveEncoders(c)
    ensures FamilyShape(Derive(t, a, c).metric.groups, MetricWindow, Derive(t, a, c).metric.eligible)
  {
    Windows.MetricFamilyFacts(a, c.group, RowsFor(t, {METRIC_RELATION}));
  }

  lemma NetworkShape(t: Tables, a: Adapters, c: Encoders)
    requires InjectiveEncoders(c)
    ensures FamilyShape(Derive(t, a, c).network.groups, NetworkWindow, Derive(t, a, c).network.eligible)
  {
    Windows.NetworkFamilyFacts(a, c.group, RowsFor(t, NETWORK_RELATIONS));
  }

  lemma StateShape(t: Tables, a: Adapters, c: Encoders)
    requires InjectiveEncoders(c) && OneTypedRowPerEvent(t)
    ensures FamilyShape(Derive(t, a, c).state.groups, StateTransition, 2 * |Derive(t, a, c).state.groups|)
  {
    RowsUnique(t, STATE_RELATIONS);
    TransitionFamily.StateFamilyFacts(a, c.series, RowsFor(t, STATE_RELATIONS));
  }

  lemma EntityShape(t: Tables, a: Adapters, c: Encoders)
    requires InjectiveEncoders(c)
    ensures FamilyShape(Derive(t, a, c).entity, EntitySummary, MemberTotal(Derive(t, a, c).entity))
    ensures forall g <- Derive(t, a, c).entity :: g.members != []
  {
    EntityFamily.EntityFamilyFacts(JoinedEntities(t), JoinedLinks(t));
  }

  lemma KindsConcat(a: seq<Group>, b: seq<Group>)
    requires DistinctKeys(a) && DistinctKeys(b)
    requires forall g, g' :: g in a && g' in b ==> g.key.Kind() != g'.key.Kind()
    ensures DistinctKeys(a + b)
  {
    forall i, j | 0 <= i < |a| && 0 <= j < |b| ensures GroupKeyOf(a[i]) != GroupKeyOf(b[j]) {
      assert a[i] in a && b[j] in b;
    }
    UniqueConcat(GroupKeyOf, a, b);
  }

  lemma AllKeysDistinct(d: Derivation)
    requires WellDerived(d)
    ensures DistinctKeys(AllGroups(d))
  {
    var m, n, s, e := d.metric.groups, d.network.groups, d.state.groups, d.entity;
    KindsConcat(m, n);
    KindsConcat(m + n, s);
    KindsConcat(m + n + s, e);
  }

  /** Per kind, the concatenated groups count exactly their own family. */
  lemma KindTotals(d: Derivation, kind: Kind)
    requires WellDerived(d)
    ensures var own := match kind
        case MetricWindow => d.metric.groups
        case NetworkWindow => d.network.groups
        case StateTransition => d.state.groups
        case EntitySummary => d.entity;
      && GroupsOfKind(AllGroups(d), kind) == |own|
      && MembersOfKind(AllGroups(d), kind) == MemberTotal(own)
  {
    var m, n, s, e := d.metric.groups, d.network.groups, d.state.groups, d.entity;
    KindConcat(m, n, kind);
    KindConcat(m + n, s, kind);
    KindConcat(m + n + s, e, kind);
    OneKind(m, MetricWindow, kind);
    OneKind(n, NetworkWindow, kind);
    OneKind(s, StateTransition, kind);
    OneKind(e, EntitySummary, kind);
  }

  lemma FamilyCounts(h: Hashes, context: Context, t: Tables, d: Derivation, kind: Kind)
    requires NoCollisions(h) && WellDerived(d)
    ensures FamilyOk(PackOf(h, context, t, d), kind)
  {
    var groups := AllGroups(d);
    AllKeysDistinct(d);
    KindCountsWritten(h, context, groups, kind);
    RowsOfKindWritten(h, context, groups, kind);
    DeclaredCounts(t, d, kind);
  }

  /** What the coverage report declares for a family is what the families counted. */
  lemma DeclaredCounts(t: Tables, d: Derivation, kind: Kind)
    requires WellDerived(d)
    ensures kind in FamiliesOf(t, d)
    ensures var f := FamiliesOf(t, d)[kind];
      && f.documents == GroupsOfKind(AllGroups(d), kind) && f.memberships == MembersOfKind(AllGroups(d), kind)
      && f.included + f.excluded == |t.occurrences|
      && (kind == MetricWindow || kind == NetworkWindow ==> f.eligible + f.ineligible == f.included)
  {
    KindTotals(d, kind);
  }

  lemma CountsMatch(h: Hashes, context: Context, t: Tables, d: Derivation)
    requires NoCollisions(h) && WellDerived(d)
    ensures CountsOk(PackOf(h, context, t, d))
  {
    forall kind { FamilyCounts(h, context, t, d, kind); }
    RelationCountsTotal(t.occurrences);
  }

  lemma WrittenPackParts(h: Hashes, context: Context, t: Tables, d: Derivation)
    requires NoCollisions(h) && WellDerived(d) && Digestible(h, AllGroups(d))
    ensures var p, groups := PackOf(h, context, t, d), AllGroups(d);
      && DocumentsOk(h, context, p.documents) && MemberSetsOk(h, p.documents, p.memberships) && CountsOk(p)
      && forall i :: 0 <= i < |groups| ==> MakeDocument(h, context, groups[i]) in p.documents
  {
    var groups := AllGroups(d);
    AllKeysDistinct(d);
    WrittenDocumentsOk(h, context, groups);
    WrittenMemberSetsOk(h, context, groups);
    CountsMatch(h, context, t, d);
    var ds := DocumentsOf(h, context, groups);
    forall i | 0 <= i < |groups| ensures MakeDocument(h, context, groups[i]) in ds {
      assert ds[i] == MakeDocument(h, context, groups[i]);
    }
  }

  /** With collision-free digests the verifier accepts the written pack exactly when every
      entity document names its entity. */
  lemma GroupsAgreement(h: Hashes, context: Context, t: Tables, d: Derivation)
    requires NoCollisions(h) && WellDerived(d) && Digestible(h, AllGroups(d))
    requires forall g <- d.entity :: g.members != []
    ensures PackOk(h, context.policy, PackOf(h, context, t, d))
      <==> forall i :: 0 <= i < |AllGroups(d)| ==> Named(AllGroups(d)[i])
  {
    var p, groups := PackOf(h, context, t, d), AllGroups(d);
    WrittenPackParts(h, context, t, d);
    if i :| 0 <= i < |groups| && !Named(groups[i]) {
      assert groups[i] in d.entity by { OnlyEntitiesUnnamed(d, i); }
      UnnamedRowRefused(h, context, groups, p.documents, i);
    } else {
      WrittenRowsOk(h, context, groups, p.documents);
    }
  }

  lemma OnlyEntitiesUnnamed(d: Derivation, i: nat)
    requires WellDerived(d) && i < |AllGroups(d)| && !Named(AllGroups(d)[i])
    ensures AllGroups(d)[i] in d.entity
  {}

  // ----------------------------------------------------- the condition on the input

  lemma ParticipantsJoin(t: Tables, id: string)
    requires Admissible(t)
    ensures (exists r :: r in JoinedEntities(t) && r.entityId == id) <==> (exists p :: p in t.participants && p.entityId == id)
  {
    DistinctKeepsAll(t.participants);
    JoinKeepsAll(t, DistinctParticipants(t.participants), id);
  }

  lemma {:induction false} DistinctKeepsAll(ps: seq<Participant>)
    ensures forall p :: p in DistinctParticipants(ps) <==> p in ps
  {
    if ps != [] {
      DistinctKeepsAll(ps[..|ps|-1]);
      assert ps == ps[..|ps|-1] + [ps[|ps|-1]];
    }
  }

  lemma {:induction false} JoinKeepsAll(t: Tables, ps: seq<Participant>, id: string)
    requires forall p <- ps :: p in t.participants
    requires Admissible(t)
    ensures (exists r :: r in EntityRows(t, ps) && r.entityId == id) <==> (exists p :: p in ps && p.entityId == id)
  {
    if ps != [] {
      var n := |ps| - 1;
      var p := ps[n];
      assert ps == ps[..n] + [p];
      JoinKeepsAll(t, ps[..n], id);
      var o := OccurrenceOf(t.occurrences, p.eventId).value;
      MatchesOf(p, o, t.entities);
      var last := EntityMatches(p, o, t.entities);
      assert EntityRows(t, ps) == EntityRows(t, ps[..n]) + last;
      assert last[0] in EntityRows(t, ps);
    }
  }

  lemma {:induction false} MatchesOf(p: Participant, o: BaseOccurrence, entities: seq<Entity>)
    ensures forall r <- EntityMatches(p, o, entities) :: r.entityId == p.entityId
    ensures (exists e :: e in entities && e.entityId == p.entityId) ==> EntityMatches(p, o, entities) != []
  {
    if entities != [] {
      MatchesOf(p, o, entities[..|entities|-1]);
      assert entities == entities[..|entities|-1] + [entities[|entities|-1]];
    }
  }

  /** The main result: whenever the tables are admissible and every member list has a digest, the
      build succeeds (its own verification included) exactly when no participant row carries an
      empty entity id. */
  lemma BuilderVerifierAgreement(h: Hashes, context: Context, c: Encoders, a: Adapters, t: Tables)
    requires NoCollisions(h) && InjectiveEncoders(c) && OneTypedRowPerEvent(t)
    requires Admissible(t) && Digestible(h, AllGroups(Derive(t, a, c)))
    ensures PackOk(h, context.policy, PackOf(h, context, t, Derive(t, a, c)))
      <==> forall p <- t.participants :: p.entityId != ""
  {
    var d := Derive(t, a, c);
    MetricShape(t, a, c);
    NetworkShape(t, a, c);
    StateShape(t, a, c);
    EntityShape(t, a, c);
    GroupsAgreement(h, context, t, d);
    ParticipantsJoin(t, "");
    EntityFamily.EntityPresent(JoinedEntities(t), JoinedLinks(t), "");
    UnnamedIffPresent(d);
  }

  lemma UnnamedIffPresent(d: Derivation)
    requires WellDerived(d)
    ensures (forall i :: 0 <= i < |AllGroups(d)| ==> Named(AllGroups(d)[i])) <==> !EntityFamily.HasDocument(d.entity, "")
  {
    var front := d.metric.groups + d.network.groups + d.state.groups;
    if i :| 0 <= i < |d.entity| && d.entity[i].key == EntityKey("") {
      assert AllGroups(d)[|front| + i] == d.entity[i];
    }
    if i :| 0 <= i < |AllGroups(d)| && !Named(AllGroups(d)[i]) {
      OnlyEntitiesUnnamed(d, i);
      var j :| 0 <= j < |d.entity| && d.entity[j] == AllGroups(d)[i];
      assert d.entity[j].key == EntityKey("");
    }
  }

  // -------------------------------------------------- when every member list has a digest

  ghost predicate UniqueOccurrences(t: Tables) {
    forall i, j :: 0 <= i < j < |t.occurrences| ==> t.occurrences[i].occurrenceId != t.occurrences[j].occurrenceId
  }

  ghost predicate UniqueEntities(t: Tables) {
    forall i, j :: 0 <= i < j < |t.entities| ==> t.entities[i].entityId != t.entities[j].entityId
  }

  lemma {:induction false} FoundAt(occurrences: seq<BaseOccurrence>, eventId: string) returns (i: nat)
    requires OccurrenceOf(occurrences, eventId).Some?
    ensures i < |occurrences| && occurrences[i] == OccurrenceOf(occurrences, eventId).value
    ensures occurrences[i].eventId == eventId
  {
    if occurrences[0].eventId == eventId {
      i := 0;
    } else {
      i := FoundAt(occurrences[1..], eventId);
      i := i + 1;
    }
  }

  /** Different events have different occurrence ids. */
  lemma OccurrencesApart(t: Tables, e: string, e': string)
    requires UniqueOccurrences(t) && e != e'
    requires OccurrenceOf(t.occurrences, e).Some? && OccurrenceOf(t.occurrences, e').Some?
    ensures OccurrenceOf(t.occurrences, e).value.occurrenceId != OccurrenceOf(t.occurrences, e').value.occurrenceId
  {
    var i := FoundAt(t.occurrences, e);
    var j := FoundAt(t.occurrences, e');
    assert i != j;
  }

  lemma {:induction false} AdmittedOccurrence(t: Tables, events: seq<TypedEvent>, relations: set<string>)
    ensures forall r <- AdmittedRows(t, events, relations) ::
      var o := OccurrenceOf(t.occurrences, r.eventId); o.Some? && o.value.occurrenceId == r.occurrenceId
  {
    if events != [] { AdmittedOccurrence(t, events[..|events|-1], relations); }
  }

  lemma RowOccurrencesUnique(t: Tables, relations: set<string>)
    requires OneTypedRowPerEvent(t) && UniqueOccurrences(t)
    ensures UniqueBy(Windows.OccurrenceId, RowsFor(t, relations))
  {
    var rows := AdmittedRows(t, t.typedEvents, relations);
    AdmittedUnique(t, t.typedEvents, relations);
    AdmittedOccurrence(t, t.typedEvents, relations);
    forall i, j | 0 <= i < j < |rows| ensures Windows.OccurrenceId(rows[i]) != Windows.OccurrenceId(rows[j]) {
      assert TransitionFamily.EventOf(rows[i]) != TransitionFamily.EventOf(rows[j]);
      assert rows[i] in rows && rows[j] in rows;
      OccurrencesApart(t, rows[i].eventId, rows[j].eventId);
    }
    UniqueBySort(AdmittedLe, Windows.OccurrenceId, rows);
  }

  lemma {:induction false} NoMatch(p: Participant, o: BaseOccurrence, entities: seq<Entity>)
    requires forall i :: 0 <= i < |entities| ==> entities[i].entityId != p.entityId
    ensures EntityMatches(p, o, entities) == []
  {
    if entities != [] { NoMatch(p, o, entities[..|entities|-1]); }
  }

  lemma {:induction false} AtMostOneMatch(p: Participant, o: BaseOccurrence, entities: seq<Entity>)
    requires forall i, j :: 0 <= i < j < |entities| ==> entities[i].entityId != entities[j].entityId
    ensures |EntityMatches(p, o, entities)| <= 1
    ensures forall r <- EntityMatches(p, o, entities) ::
      r.entityId == p.entityId && r.occurrenceId == o.occurrenceId && r.role == p.role
  {
    if entities != [] {
      var n := |entities| - 1;
      if entities[n].entityId == p.entityId {
        NoMatch(p, o, entities[..n]);
      } else {
        AtMostOneMatch(p, o, entities[..n]);
      }
    }
  }

  /** Where a joined row comes from. */
  ghost predicate RowOf(t: Tables, ps: seq<Participant>, r: EntityFamily.EntityRow) {
    exists i :: 0 <= i < |ps| && ps[i].entityId == r.entityId && ps[i].role == r.role
      && OccurrenceOf(t.occurrences, ps[i].eventId).Some?
      && OccurrenceOf(t.occurrences, ps[i].eventId).value.occurrenceId == r.occurrenceId
  }

  lemma {:induction false} JoinUnique(t: Tables, ps: seq<Participant>)
    requires UniqueOccurrences(t) && UniqueEntities(t) && Distinct(ps)
    ensures UniqueBy(EntityFamily.Identity, EntityRows(t, ps))
    ensures forall r <- EntityRows(t, ps) :: RowOf(t, ps, r)
  {
    if ps != [] {
      var n := |ps| - 1;
      var p, o := ps[n], OccurrenceOf(t.occurrences, ps[n].eventId);
      var front := EntityRows(t, ps[..n]);
      JoinUnique(t, ps[..n]);
      forall r <- front ensures RowOf(t, ps, r) {
        var i :| 0 <= i < |ps[..n]| && ps[..n][i].entityId == r.entityId && ps[..n][i].role == r.role
          && OccurrenceOf(t.occurrences, ps[..n][i].eventId).Some?
          && OccurrenceOf(t.occurrences, ps[..n][i].eventId).value.occurrenceId == r.occurrenceId;
        assert ps[i] == ps[..n][i];
      }
      if o.Some? {
        AtMostOneMatch(p, o.value, t.entities);
        var last := EntityMatches(p, o.value, t.entities);
        forall r, r' | r in front && r' in last ensures EntityFamily.Identity(r) != EntityFamily.Identity(r') {
          RowsApart(t, ps, r, r');
        }
        assert forall r' <- last :: RowOf(t, ps, r');
      }
    }
  }

  lemma RowsApart(t: Tables, ps: seq<Participant>, r: EntityFamily.EntityRow, r': EntityFamily.EntityRow)
    requires UniqueOccurrences(t) && Distinct(ps) && ps != [] && RowOf(t, ps[..|ps|-1], r)
    requires var p := ps[|ps|-1];
      && r'.entityId == p.entityId && r'.role == p.role && OccurrenceOf(t.occurrences, p.eventId).Some?
      && OccurrenceOf(t.occurrences, p.eventId).value.occurrenceId == r'.occurrenceId
    ensures EntityFamily.Identity(r) != EntityFamily.Identity(r')
  {
    var n := |ps| - 1;
    var i :| 0 <= i < n && ps[..n][i].entityId == r.entityId && ps[..n][i].role == r.role
      && OccurrenceOf(t.occurrences, ps[..n][i].eventId).Some?
      && OccurrenceOf(t.occurrences, ps[..n][i].eventId).value.occurrenceId == r.occurrenceId;
    assert ps[i] != ps[n];
    if ps[i].eventId != ps[n].eventId { OccurrencesApart(t, ps[i].eventId, ps[n].eventId); }
  }

  lemma {:induction false} DistinctParticipantsDistinct(ps: seq<Participant>)
    ensures Distinct(DistinctParticipants(ps))
  {
    if ps != [] { DistinctParticipantsDistinct(ps[..|ps|-1]); }
  }

  /** One typed row per event, unique occurrence and entity ids and encodings below 2**64 bytes
      are enough for every membership digest to exist. */
  lemma DigestsExist(h: Hashes, c: Encoders, a: Adapters, t: Tables)
    requires InjectiveEncoders(c) && OneTypedRowPerEvent(t) && UniqueOccurrences(t) && UniqueEntities(t)
    requires forall m: Member :: Fits(h.members.encode(m))
    ensures Digestible(h, AllGroups(Derive(t, a, c)))
  {
    var d := Derive(t, a, c);
    RowOccurrencesUnique(t, {METRIC_RELATION});
    Windows.MetricMembersDistinct(a, c.group, RowsFor(t, {METRIC_RELATION}));
    RowOccurrencesUnique(t, NETWORK_RELATIONS);
    Windows.NetworkMembersDistinct(a, c.group, RowsFor(t, NETWORK_RELATIONS));
    RowsUnique(t, STATE_RELATIONS);
    TransitionFamily.StateFamilyFacts(a, c.series, RowsFor(t, STATE_RELATIONS));
    DistinctParticipantsDistinct(t.participants);
    JoinUnique(t, DistinctParticipants(t.participants));
    EntityFamily.EntityMembersDistinct(JoinedEntities(t), JoinedLinks(t));
    DigestibleAt(h, AllGroups(d));
  }

  // ------------------------------------------------------------- an input that is refused

  /** One event in which an entity without an identity takes part. */
  const NAMELESS := Tables([BaseOccurrence("event", "occurrence", "relation")], [],
                           [Participant("event", "", "actor")], [Entity("", "user")], [])

  lemma NamelessAdmissible(t: Tables)
    requires t == NAMELESS
    ensures OneTypedRowPerEvent(t) && Admissible(t) && UniqueOccurrences(t) && UniqueEntities(t)
    ensures exists p :: p in t.participants && p.entityId == ""
  {
    assert t.entities[0] in t.entities && t.participants[0] in t.participants;
  }

  /** The nameless entity passes every referential check, and the verifier refuses the written pack. */
  lemma NamelessRefused(h: Hashes, context: Context, c: Encoders, a: Adapters, t: Tables)
    requires NoCollisions(h) && InjectiveEncoders(c) && (forall m: Member :: Fits(h.members.encode(m))) && t == NAMELESS
    ensures OneTypedRowPerEvent(t) && Admissible(t) && Digestible(h, AllGroups(Derive(t, a, c)))
    ensures !PackOk(h, context.policy, PackOf(h, context, t, Derive(t, a, c)))
  {
    NamelessAdmissible(t);
    DigestsExist(h, c, a, t);
    BuilderVerifierAgreement(h, context, c, a, t);
  }
}
