/** The derivation build: table checks, the four families, the written pack and its verification. */
module DerivationBuilder {
  import opened Ordering
  import opened Wrappers
  import opened Grouping
  import opened DerivationTypes
  import opened Families
  import opened DerivationPack
  import opened DerivationVerifier
  import opened DerivationAgreement
  import Windows
  import TransitionFamily
  import EntityFamily
  import EntityLinks

  // -------------------------------------------------------------- table checks

  datatype BuildResult = Built(pack: Pack) | Failed(reason: Failure)
  datatype Failure =
    | DuplicateBaseEvent | UnresolvedTypedEvent | DanglingParticipant | DanglingEntity | DanglingRelationship
    | MembersRefused | PackRefused

  function OccurrenceOf(occurrences: seq<BaseOccurrence>, eventId: string): Option<BaseOccurrence> {
    if occurrences == [] then None
    else if occurrences[0].eventId == eventId then Some(occurrences[0])
    else OccurrenceOf(occurrences[1..], eventId)
  }

  predicate UniqueBase(t: Tables) {
    forall i, j :: 0 <= i < j < |t.occurrences| ==> t.occurrences[i].eventId != t.occurrences[j].eventId
  }

  predicate TypedResolves(t: Tables) {
    forall e <- t.typedEvents ::
      var o := OccurrenceOf(t.occurrences, e.eventId);
      o.Some? && o.value.relation == e.relation
  }

  predicate ParticipantsResolve(t: Tables) {
    forall p <- t.participants :: OccurrenceOf(t.occurrences, p.eventId).Some?
  }

  predicate EntitiesResolve(t: Tables) {
    forall p <- t.participants :: exists e :: e in t.entities && e.entityId == p.entityId
  }

  predicate RelationshipsResolve(t: Tables) {
    forall r <- t.relationships ::
      && (exists e :: e in t.entities && e.entityId == r.sourceId)
      && (exists e :: e in t.entities && e.entityId == r.targetId)
      && OccurrenceOf(t.occurrences, r.eventId).Some?
  }

  predicate Admissible(t: Tables) {
    UniqueBase(t) && TypedResolves(t) && ParticipantsResolve(t) && EntitiesResolve(t) && RelationshipsResolve(t)
  }

  /** A snapshot stores each event once, so each event has one typed row. */
  ghost predicate OneTypedRowPerEvent(t: Tables) {
    forall i, j :: 0 <= i < j < |t.typedEvents| ==> t.typedEvents[i].eventId != t.typedEvents[j].eventId
  }

  // --------------------------------------------------------------------- views

  /** event_scopes: the distinct non-empty (role, entity id) pairs of an event. */
  function ScopeOf(t: Tables, eventId: string): Scope {
    set p | p in t.participants && p.eventId == eventId && p.role != "" && p.entityId != "" :: (p.role, p.entityId)
  }

  /** admitted_typed restricted to some relations. */
  function AdmittedRows(t: Tables, events: seq<TypedEvent>, relations: set<string>): seq<Admitted> {
    if events == [] then []
    else
      var e := events[|events|-1];
      var o := OccurrenceOf(t.occurrences, e.eventId);
      AdmittedRows(t, events[..|events|-1], relations)
      + if e.relation in relations && o.Some?
        then [Admitted(e.eventId, o.value.occurrenceId, e.relation, e.payload, ScopeOf(t, e.eventId))] else []
  }

  /** ORDER BY relation_name, event_id, occurrence_id. */
  predicate AdmittedLe(a: Admitted, b: Admitted) {
    if a.relation != b.relation then StringLe(a.relation, b.relation)
    else if a.eventId != b.eventId then StringLe(a.eventId, b.eventId)
    else StringLe(a.occurrenceId, b.occurrenceId)
  }

  function RowsFor(t: Tables, relations: set<string>): seq<Admitted> {
    Sort(AdmittedLe, AdmittedRows(t, t.typedEvents, relations))
  }

  /** SELECT DISTINCT over the participants. */
  function DistinctParticipants(ps: seq<Participant>): seq<Participant> {
    if ps == [] then []
    else
      var p := ps[|ps|-1];
      var front := DistinctParticipants(ps[..|ps|-1]);
      if p in front then front else front + [p]
  }

  function EntityMatches(p: Participant, o: BaseOccurrence, entities: seq<Entity>): seq<EntityFamily.EntityRow> {
    if entities == [] then []
    else
      var e := entities[|entities|-1];
      EntityMatches(p, o, entities[..|entities|-1])
      + if e.entityId == p.entityId
        then [EntityFamily.EntityRow(p.entityId, e.kind, o.occurrenceId, o.relation, p.role)] else []
  }

  /** Participants joined with their entity and their base occurrence. */
  function EntityRows(t: Tables, ps: seq<Participant>): seq<EntityFamily.EntityRow> {
    if ps == [] then []
    else
      var p := ps[|ps|-1];
      var o := OccurrenceOf(t.occurrences, p.eventId);
      EntityRows(t, ps[..|ps|-1]) + if o.Some? then EntityMatches(p, o.value, t.entities) else []
  }

  function JoinedEntities(t: Tables): seq<EntityFamily.EntityRow> {
    EntityRows(t, DistinctParticipants(t.participants))
  }

  function EntityIdOf(e: Entity): string { e.entityId }

  function LinkRowOf(r: Relationship, source: Entity, target: Entity): EntityLinks.LinkRow {
    EntityLinks.LinkRow(r.sourceId, r.targetId, r.kind, source.kind, target.kind)
  }

  function LinksFrom(r: Relationship, source: Entity, targets: seq<Entity>): seq<EntityLinks.LinkRow> {
    seq(|targets|, i requires 0 <= i < |targets| => LinkRowOf(r, source, targets[i]))
  }

  function LinkMatches(r: Relationship, sources: seq<Entity>, targets: seq<Entity>): seq<EntityLinks.LinkRow> {
    if sources == [] then []
    else LinkMatches(r, sources[..|sources|-1], targets) + LinksFrom(r, sources[|sources|-1], targets)
  }

  /** Relationships joined with both of their entities. */
  function LinkRows(t: Tables, rs: seq<Relationship>): seq<EntityLinks.LinkRow> {
    if rs == [] then []
    else
      var r := rs[|rs|-1];
      LinkRows(t, rs[..|rs|-1])
      + LinkMatches(r, Select(t.entities, EntityIdOf, r.sourceId), Select(t.entities, EntityIdOf, r.targetId))
  }

  function JoinedLinks(t: Tables): seq<EntityLinks.LinkRow> { LinkRows(t, t.relationships) }

  function Uninvolved(t: Tables, occurrences: seq<BaseOccurrence>): nat {
    if occurrences == [] then 0
    else
      var o := occurrences[|occurrences|-1];
      Uninvolved(t, occurrences[..|occurrences|-1])
      + if exists p :: p in t.participants && p.eventId == o.eventId then 0 else 1
  }

  function RelationCounts(occurrences: seq<BaseOccurrence>): multiset<string> {
    if occurrences == [] then multiset{}
    else RelationCounts(occurrences[..|occurrences|-1]) + multiset{occurrences[|occurrences|-1].relation}
  }

  lemma {:induction false} RelationCountsTotal(occurrences: seq<BaseOccurrence>)
    ensures |RelationCounts(occurrences)| == |occurrences|
  {
    if occurrences != [] { RelationCountsTotal(occurrences[..|occurrences|-1]); }
  }

  // ------------------------------------------------------------ the derived groups

  /** How the canonical encoder orders group keys and series keys. */
  datatype Encoders = Encoders(group: GroupKey -> string, series: SeriesKey -> string)

  ghost predicate InjectiveEncoders(c: Encoders) { Injective(c.group) && Injective(c.series) }

  datatype Derivation = Derivation(
    metric: Family, network: Family, state: TransitionFamily.States, entity: seq<Group>)

  ghost function Derive(t: Tables, a: Adapters, c: Encoders): Derivation
    requires InjectiveEncoders(c)
  {
    Derivation(
      Windows.MetricFamily(a, c.group, RowsFor(t, {METRIC_RELATION})),
      Windows.NetworkFamily(a, c.group, RowsFor(t, NETWORK_RELATIONS)),
      TransitionFamily.StateFamily(a, c.series, RowsFor(t, STATE_RELATIONS)),
      EntityFamily.EntityFamilyOf(JoinedEntities(t), JoinedLinks(t)))
  }

  function AllGroups(d: Derivation): seq<Group> {
    d.metric.groups + d.network.groups + d.state.groups + d.entity
  }

  function WindowCoverage(f: Family, baseCount: int): FamilyCoverage {
    FamilyCoverage(|f.groups|, f.eligible, f.applicable, baseCount - f.applicable, f.eligible, f.applicable - f.eligible)
  }

  function StateCoverage(f: TransitionFamily.States, baseCount: int): FamilyCoverage {
    FamilyCoverage(|f.groups|, 2 * |f.groups|, f.applicable, baseCount - f.applicable, f.eligible, f.applicable - f.eligible)
  }

  function EntityCoverage(groups: seq<Group>, uninvolved: int, baseCount: int): FamilyCoverage {
    FamilyCoverage(|groups|, MemberTotal(groups), baseCount - uninvolved, uninvolved, 0, 0)
  }

  function FamiliesOf(t: Tables, d: Derivation): map<Kind, FamilyCoverage> {
    map[MetricWindow := WindowCoverage(d.metric, |t.occurrences|),
        NetworkWindow := WindowCoverage(d.network, |t.occurrences|),
        StateTransition := StateCoverage(d.state, |t.occurrences|),
        EntitySummary := EntityCoverage(d.entity, Uninvolved(t, t.occurrences), |t.occurrences|)]
  }

  function PackOf(h: Hashes, context: Context, t: Tables, d: Derivation): Pack {
    var groups := AllGroups(d);
    var documents, rows := DocumentsOf(h, context, groups), RowsOf(h, context, groups);
    Pack(Manifest(context, |documents|, |rows|, |t.occurrences|), documents, rows,
         Coverage(|documents|, |rows|, RelationCounts(t.occurrences), FamiliesOf(t, d)))
  }

  // ------------------------------------------------------------------- the build

  method PrepareViews(t: Tables) returns (failure: Option<Failure>)
    ensures failure.None? <==> Admissible(t)
    ensures failure == Some(DuplicateBaseEvent) <==> !UniqueBase(t)
    ensures failure == Some(UnresolvedTypedEvent) <==> UniqueBase(t) && !TypedResolves(t)
    ensures failure == Some(DanglingParticipant) <==> UniqueBase(t) && TypedResolves(t) && !ParticipantsResolve(t)
    ensures failure == Some(DanglingEntity)
      <==> UniqueBase(t) && TypedResolves(t) && ParticipantsResolve(t) && !EntitiesResolve(t)
    ensures failure == Some(DanglingRelationship)
      <==> UniqueBase(t) && TypedResolves(t) && ParticipantsResolve(t) && EntitiesResolve(t) && !RelationshipsResolve(t)
  {
    if !UniqueBase(t) { return Some(DuplicateBaseEvent); }
    if !TypedResolves(t) { return Some(UnresolvedTypedEvent); }
    if !ParticipantsResolve(t) { return Some(DanglingParticipant); }
    if !EntitiesResolve(t) { return Some(DanglingEntity); }
    if !RelationshipsResolve(t) { return Some(DanglingRelationship); }
    return None;
  }

  /** Tables in, a verified pack out: the views, the families, the writer and the final verification. */
  method BuildDerivationPack(h: Hashes, context: Context, c: Encoders, a: Adapters, t: Tables) returns (r: BuildResult)
    requires InjectiveEncoders(c) && OneTypedRowPerEvent(t)
    ensures r.Built? <==>
      && Admissible(t)
      && Digestible(h, AllGroups(Derive(t, a, c)))
      && PackOk(h, context.policy, PackOf(h, context, t, Derive(t, a, c)))
    ensures r.Built? ==> r.pack == PackOf(h, context, t, Derive(t, a, c))
    ensures r == Failed(MembersRefused) <==> Admissible(t) && !Digestible(h, AllGroups(Derive(t, a, c)))
    ensures r == Failed(PackRefused)
      <==> && Admissible(t) && Digestible(h, AllGroups(Derive(t, a, c)))
           && !PackOk(h, context.policy, PackOf(h, context, t, Derive(t, a, c)))
  {
    var failure := PrepareViews(t);
    if failure.Some? { return Failed(failure.value); }
    var d := DeriveAll(c, a, t);
    var pack := WritePack(h, context, t, d);
    if pack.None? { return Failed(MembersRefused); }
    var verdict := VerifyDerivationPack(h, context.policy, pack.value);
    return if verdict.Accepted? then Built(pack.value) else Failed(PackRefused);
  }

  method WritePack(h: Hashes, context: Context, t: Tables, d: Derivation) returns (pack: Option<Pack>)
    ensures pack.Some? <==> Digestible(h, AllGroups(d))
    ensures pack.Some? ==> pack.value == PackOf(h, context, t, d)
  {
    var groups := AllGroups(d);
    var writer := new OutputWriter();
    var ok := WriteGroups(h, context, groups, writer);
    if !ok { return None; }
    pack := Some(Pack(
      Manifest(context, writer.documentCount, writer.membershipCount, |t.occurrences|),
      writer.documents, writer.memberships,
      Coverage(writer.documentCount, writer.membershipCount, RelationCounts(t.occurrences), FamiliesOf(t, d))));
  }

  method DeriveAll(c: Encoders, a: Adapters, t: Tables) returns (d: Derivation)
    requires InjectiveEncoders(c) && OneTypedRowPerEvent(t)
    ensures d == Derive(t, a, c)
  {
    var metric := Windows.DeriveMetric(a, c.group, RowsFor(t, {METRIC_RELATION}));
    var network := Windows.DeriveNetwork(a, c.group, RowsFor(t, NETWORK_RELATIONS));
    RowsUnique(t, STATE_RELATIONS);
    var state := TransitionFamily.DeriveTransitions(a, c.series, RowsFor(t, STATE_RELATIONS));
    var entity := EntityFamily.DeriveEntities(JoinedEntities(t), JoinedLinks(t));
    d := Derivation(metric, network, state, entity);
  }

  lemma {:induction false} AdmittedUnique(t: Tables, events: seq<TypedEvent>, relations: set<string>)
    requires forall i, j :: 0 <= i < j < |events| ==> events[i].eventId != events[j].eventId
    ensures UniqueBy(TransitionFamily.EventOf, AdmittedRows(t, events, relations))
    ensures forall r <- AdmittedRows(t, events, relations) :: exists i :: 0 <= i < |events| && events[i].eventId == r.eventId
  {
    if events != [] {
      var n := |events| - 1;
      AdmittedUnique(t, events[..n], relations);
      var front := AdmittedRows(t, events[..n], relations);
      forall r <- front ensures r.eventId != events[n].eventId && exists i :: 0 <= i < |events| && events[i].eventId == r.eventId {
        var i :| 0 <= i < |events[..n]| && events[..n][i].eventId == r.eventId;
        assert events[i].eventId == r.eventId;
      }
    }
  }

  lemma RowsUnique(t: Tables, relations: set<string>)
    requires OneTypedRowPerEvent(t)
    ensures TransitionFamily.OneRowPerEvent(RowsFor(t, relations))
  {
    AdmittedUnique(t, t.typedEvents, relations);
    UniqueBySort(AdmittedLe, TransitionFamily.EventOf, AdmittedRows(t, t.typedEvents, relations));
  }
}
