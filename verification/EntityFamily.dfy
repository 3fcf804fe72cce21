/** The entity family: a control-break pass over the joined participant rows. */
module EntityFamily {
  import opened Ordering
  import opened Grouping
  import opened MembershipDigest
  import opened DerivationTypes
  import opened Families
  import opened EntityLinks

  /** One row of the participant join. */
  datatype EntityRow = EntityRow(entityId: string, kind: string, occurrenceId: string, relation: string, role: string)

  /** ORDER BY entity_id, occurrence_id, role. */
  predicate EntityRowLe(a: EntityRow, b: EntityRow) {
    if a.entityId == b.entityId then MemberLe(AsMember(a), AsMember(b)) else StringLe(a.entityId, b.entityId)
  }

  function AsMember(r: EntityRow): Member { Member(r.occurrenceId, r.role) }

  function IdOf(r: EntityRow): string { r.entityId }

  lemma EntityRowPreorder()
    ensures TotalPreorder(EntityRowLe)
  {
    MemberTotalOrder();
    StringTotalOrder();
  }

  function MembersIn(rows: seq<EntityRow>): seq<Member> {
    seq(|rows|, i requires 0 <= i < |rows| => AsMember(rows[i]))
  }

  function RelationsIn(rows: seq<EntityRow>): multiset<string> {
    if rows == [] then multiset{} else RelationsIn(rows[..|rows|-1]) + multiset{rows[|rows|-1].relation}
  }

  function RolesIn(rows: seq<EntityRow>): multiset<string> {
    if rows == [] then multiset{} else RolesIn(rows[..|rows|-1]) + multiset{rows[|rows|-1].role}
  }

  /** The document of one entity, from all of its rows and all of its links. */
  function EntityGroup(id: string, rows: seq<EntityRow>, links: multiset<Link>): Group
    requires rows != []
  {
    Group(EntityKey(id), EntityAggregate(rows[0].kind, RelationsIn(rows), RolesIn(rows), links), MembersIn(rows))
  }

  ghost function EntityGroups(ids: seq<string>, rows: seq<EntityRow>, links: seq<LinkRow>): seq<Group>
    requires forall id <- ids :: id in KeySet(rows, IdOf)
  {
    KeySetMembers(rows, IdOf);
    seq(|ids|, i requires 0 <= i < |ids| => 
      EntityGroup(ids[i], Select(rows, IdOf, ids[i]), LinksOf(links, ids[i])))
  }

  function Ids(rows: seq<EntityRow>): (ids: seq<string>)
    ensures Distinct(ids) && forall id :: id in ids <==> id in KeySet(rows, IdOf)
  {
    StringTotalOrder();
    SetToSorted(StringLe, KeySet(rows, IdOf))
  }

  /** One document per entity that takes part in anything, in ascending entity order. */
  ghost function EntityFamilyOf(rows: seq<EntityRow>, links: seq<LinkRow>): seq<Group> {
    var sorted := Sort(EntityRowLe, rows);
    EntityGroups(Ids(sorted), sorted, links)
  }

  // ------------------------------------------------------------- the control break

  /** The rows before `start` are closed into groups; rows[start..i] is the open run. */
  ghost predicate Closed(rows: seq<EntityRow>, start: nat, ids: seq<string>, groups: seq<Group>,
      links: seq<LinkRow>)
    requires start <= |rows|
  {
    && SortedBy(StringLe, ids) && Distinct(ids)
    && (forall id :: id in ids <==> id in KeySet(rows[..start], IdOf))
    && groups == EntityGroups(ids, rows[..start], links)
  }

  ghost predicate OpenRun(rows: seq<EntityRow>, start: nat, i: nat) {
    && start < i <= |rows|
    && (forall j :: start <= j < i ==> rows[j].entityId == rows[start].entityId)
    && (forall j :: 0 <= j < start ==> rows[j].entityId != rows[start].entityId)
  }

  lemma {:induction false} SelectRun(rows: seq<EntityRow>, start: nat, i: nat, id: string)
    requires start <= i <= |rows|
    requires forall j :: start <= j < i ==> rows[j].entityId == rows[start].entityId
    ensures Select(rows[..i], IdOf, id)
         == Select(rows[..start], IdOf, id) + if start < i && id == rows[start].entityId then rows[start..i] else []
    decreases i
  {
    if start < i {
      SelectRun(rows, start, i - 1, id);
      PrefixStep(rows, i - 1);
      assert rows[start..i] == rows[start..i-1] + [rows[i-1]];
    }
  }

  lemma {:induction false} KeySetRun(rows: seq<EntityRow>, start: nat, i: nat)
    requires start < i <= |rows|
    requires forall j :: start <= j < i ==> rows[j].entityId == rows[start].entityId
    ensures KeySet(rows[..i], IdOf) == KeySet(rows[..start], IdOf) + {rows[start].entityId}
    decreases i
  {
    PrefixStep(rows, i - 1);
    if start < i - 1 { KeySetRun(rows, start, i - 1); }
  }

  lemma NoneSelected(rows: seq<EntityRow>, id: string)
    requires forall j :: 0 <= j < |rows| ==> rows[j].entityId != id
    ensures Select(rows, IdOf, id) == []
  {
    SelectMembers(rows, IdOf, id);
  }

  lemma EarlierIds(rows: seq<EntityRow>, start: nat, x: string)
    requires SortedBy(EntityRowLe, rows) && start < |rows| && x in KeySet(rows[..start], IdOf)
    requires forall j :: 0 <= j < start ==> rows[j].entityId != rows[start].entityId
    ensures StringLe(x, rows[start].entityId) && x != rows[start].entityId
  {
    KeySetMembers(rows[..start], IdOf);
    SelectMembers(rows[..start], IdOf, x);
    var r := Select(rows[..start], IdOf, x)[0];
    assert r in rows[..start] && r.entityId == x;
    var j :| 0 <= j < start && rows[j] == r;
    assert EntityRowLe(rows[j], rows[start]);
  }

  lemma FinishIds(rows: seq<EntityRow>, start: nat, i: nat, ids: seq<string>)
    requires SortedBy(EntityRowLe, rows) && OpenRun(rows, start, i)
    requires SortedBy(StringLe, ids) && Distinct(ids) && forall id :: id in ids <==> id in KeySet(rows[..start], IdOf)
    ensures var ids' := ids + [rows[start].entityId];
      SortedBy(StringLe, ids') && Distinct(ids') && forall id :: id in ids' <==> id in KeySet(rows[..i], IdOf)
  {
    KeySetRun(rows, start, i);
    forall k | 0 <= k < |ids| ensures StringLe(ids[k], rows[start].entityId) && ids[k] != rows[start].entityId {
      assert ids[k] in ids;
      EarlierIds(rows, start, ids[k]);
    }
  }

  /** At a break the open run becomes the group of its entity. */
  lemma Finish(rows: seq<EntityRow>, start: nat, i: nat, ids: seq<string>, groups: seq<Group>,
      links: seq<LinkRow>)
    requires SortedBy(EntityRowLe, rows) && OpenRun(rows, start, i) && Closed(rows, start, ids, groups, links)
    ensures Closed(rows, i, ids + [rows[start].entityId],
                   groups + [EntityGroup(rows[start].entityId, rows[start..i], LinksOf(links, rows[start].entityId))], links)
  {
    var id := rows[start].entityId;
    var ids' := ids + [id];
    FinishIds(rows, start, i, ids);
    NoneSelected(rows[..start], id);
    SelectRun(rows, start, i, id);
    forall k | 0 <= k < |ids| ensures ids[k] != id && Select(rows[..i], IdOf, ids[k]) == Select(rows[..start], IdOf, ids[k]) {
      assert ids[k] in ids;
      EarlierIds(rows, start, ids[k]);
      SelectRun(rows, start, i, ids[k]);
    }
    GroupsExtend(rows[..start], rows[..i], ids, id, rows[start..i], links);
  }

  lemma GroupsExtend(before: seq<EntityRow>, after: seq<EntityRow>, ids: seq<string>, id: string, run: seq<EntityRow>,
                     links: seq<LinkRow>)
    requires forall x <- ids :: x in KeySet(before, IdOf)
    requires forall x <- ids + [id] :: x in KeySet(after, IdOf)
    requires forall k :: 0 <= k < |ids| ==> Select(after, IdOf, ids[k]) == Select(before, IdOf, ids[k])
    requires run != [] && Select(after, IdOf, id) == run
    ensures EntityGroups(ids + [id], after, links)
      == EntityGroups(ids, before, links) + [EntityGroup(id, run, LinksOf(links, id))]
  {}

  lemma IdsUnique(rows: seq<EntityRow>, ids: seq<string>)
    requires SortedBy(StringLe, ids) && Distinct(ids) && forall id :: id in ids <==> id in KeySet(rows, IdOf)
    ensures ids == Ids(rows)
  {
    StringTotalOrder();
    DistinctSameMembers(ids, Ids(rows));
    SetToSortedAscends(StringLe, KeySet(rows, IdOf));
    SortedUnique(StringLe, ids, Ids(rows));
  }

  method DeriveEntities(joined: seq<EntityRow>, links: seq<LinkRow>) returns (groups: seq<Group>)
    ensures groups == EntityFamilyOf(joined, links)
  {
    var context := CountLinks(links);
    var rows := Sort(EntityRowLe, joined);
    EntityRowPreorder();
    SortSorted(EntityRowLe, joined);
    groups := ControlBreak(rows, context, links);
  }

  /** `finish()`: the open run becomes a document with the links of its entity. */
  method FinishRun(rows: seq<EntityRow>, start: nat, i: nat, groups: seq<Group>, context: map<string, multiset<Link>>,
                   ghost ids: seq<string>, ghost links: seq<LinkRow>)
    returns (groups': seq<Group>, ghost ids': seq<string>)
    requires SortedBy(EntityRowLe, rows) && OpenRun(rows, start, i) && Closed(rows, start, ids, groups, links)
    requires Counts(context, links)
    ensures Closed(rows, i, ids', groups', links)
  {
    var id := rows[start].entityId;
    assert Recorded(context, id) == LinksOf(links, id);
    groups' := groups + [EntityGroup(id, rows[start..i], Recorded(context, id))];
    ids' := ids + [id];
    Finish(rows, start, i, ids, groups, links);
  }

  lemma AllClosed(rows: seq<EntityRow>, ids: seq<string>, groups: seq<Group>, links: seq<LinkRow>)
    requires Closed(rows, |rows|, ids, groups, links)
    ensures groups == EntityGroups(Ids(rows), rows, links)
  {
    assert rows[..|rows|] == rows;
    IdsUnique(rows, ids);
  }

  method ControlBreak(rows: seq<EntityRow>, context: map<string, multiset<Link>>, ghost links: seq<LinkRow>)
    returns (groups: seq<Group>)
    requires SortedBy(EntityRowLe, rows) && Counts(context, links)
    ensures groups == EntityGroups(Ids(rows), rows, links)
  {
    groups := [];
    ghost var ids: seq<string> := [];
    var start := 0;
    var i := 0;
    while i < |rows|
      invariant 0 <= start <= i <= |rows| && Closed(rows, start, ids, groups, links)
      invariant i == 0 || OpenRun(rows, start, i)
    {
      if i > 0 && rows[i].entityId != rows[start].entityId {
        groups, ids := FinishRun(rows, start, i, groups, context, ids, links);
        BreakIsNew(rows, start, i);
        start := i;
      }
      i := i + 1;
    }
    if i > 0 {
      groups, ids := FinishRun(rows, start, i, groups, context, ids, links);
    }
    AllClosed(rows, ids, groups, links);
  }

  lemma BreakIsNew(rows: seq<EntityRow>, start: nat, i: nat)
    requires SortedBy(EntityRowLe, rows) && OpenRun(rows, start, i) && i < |rows|
    requires rows[i].entityId != rows[start].entityId
    ensures forall j :: 0 <= j < i ==> rows[j].entityId != rows[i].entityId
  {
    StringTotalOrder();
    forall j | 0 <= j < i ensures rows[j].entityId != rows[i].entityId {
      assert EntityRowLe(rows[start], rows[i]);
      if j < start { assert EntityRowLe(rows[j], rows[start]); }
    }
  }

  // ------------------------------------------------------- what the pack relies on

  /** Entity documents: pairwise different entities, each with at least one member. */
  lemma EntityFamilyFacts(joined: seq<EntityRow>, links: seq<LinkRow>)
    ensures FamilyShape(EntityFamilyOf(joined, links), EntitySummary, TotalOf(EntityFamilyOf(joined, links), MemberCount))
    ensures forall g <- EntityFamilyOf(joined, links) :: g.members != []
  {
    var rows := Sort(EntityRowLe, joined);
    EntityGroupsShape(Ids(rows), rows, links);
  }

  lemma EntityGroupsShape(ids: seq<string>, rows: seq<EntityRow>, links: seq<LinkRow>)
    requires Distinct(ids) && forall id <- ids :: id in KeySet(rows, IdOf)
    ensures DistinctKeys(EntityGroups(ids, rows, links))
    ensures forall g <- EntityGroups(ids, rows, links) :: g.key.Kind() == EntitySummary && g.members != []
  {
    KeySetMembers(rows, IdOf);
    GroupOfEach(ids, rows, links);
  }

  lemma GroupOfEach(ids: seq<string>, rows: seq<EntityRow>, links: seq<LinkRow>)
    requires forall id <- ids :: id in KeySet(rows, IdOf)
    ensures |EntityGroups(ids, rows, links)| == |ids|
    ensures forall i :: 0 <= i < |ids| ==> EntityGroups(ids, rows, links)[i].key == EntityKey(ids[i])
  {
    KeySetMembers(rows, IdOf);
  }

  ghost predicate HasDocument(groups: seq<Group>, id: string) {
    exists i :: 0 <= i < |groups| && groups[i].key == EntityKey(id)
  }

  /** An entity has a document exactly when it takes part in something. */
  lemma EntityPresent(joined: seq<EntityRow>, links: seq<LinkRow>, id: string)
    ensures HasDocument(EntityFamilyOf(joined, links), id) <==> exists r :: r in joined && r.entityId == id
  {
    var rows := Sort(EntityRowLe, joined);
    SortMembers(EntityRowLe, joined);
    PresentIds(rows, id);
    DocumentIffListed(Ids(rows), rows, links, id);
  }

  lemma DocumentIffListed(ids: seq<string>, rows: seq<EntityRow>, links: seq<LinkRow>, id: string)
    requires forall x <- ids :: x in KeySet(rows, IdOf)
    ensures HasDocument(EntityGroups(ids, rows, links), id) <==> id in ids
  {
    GroupOfEach(ids, rows, links);
    if id in ids {
      var i :| 0 <= i < |ids| && ids[i] == id;
      assert EntityGroups(ids, rows, links)[i].key == EntityKey(id);
    }
  }

  lemma PresentIds(rows: seq<EntityRow>, id: string)
    ensures id in KeySet(rows, IdOf) <==> exists r :: r in rows && r.entityId == id
  {
    KeySetMembers(rows, IdOf);
    SelectMembers(rows, IdOf, id);
    if id in KeySet(rows, IdOf) {
      var r := Select(rows, IdOf, id)[0];
      assert r in Select(rows, IdOf, id);
    }
  }

  function Identity(r: EntityRow): EntityRow { r.(kind := "", relation := "") }

  /** Rows that differ in entity, occurrence or role give duplicate-free member lists. */
  lemma EntityMembersDistinct(joined: seq<EntityRow>, links: seq<LinkRow>)
    requires UniqueBy(Identity, joined)
    ensures forall g <- EntityFamilyOf(joined, links) :: Distinct(g.members)
  {
    var rows := Sort(EntityRowLe, joined);
    UniqueBySort(EntityRowLe, Identity, joined);
    var ids := Ids(rows);
    forall i | 0 <= i < |ids| ensures Distinct(MembersIn(Select(rows, IdOf, ids[i]))) {
      var sel := Select(rows, IdOf, ids[i]);
      SelectUniqueBy(rows, IdOf, ids[i], Identity);
      SelectMembers(rows, IdOf, ids[i]);
      forall x, y | 0 <= x < y < |sel| ensures AsMember(sel[x]) != AsMember(sel[y]) {
        assert sel[x] in sel && sel[y] in sel;
        assert Identity(sel[x]) != Identity(sel[y]);
      }
    }
  }
}
