/** What the relationship summaries of the entity documents say about the relationship table. */
module EntitySummaries {
  import opened Ordering
  import opened Grouping
  import opened DerivationTypes
  import opened EntityLinks
  import opened EntityFamily
  import opened DerivationBuilder
  import opened DerivationTheorem

  // ------------------------------------------------------ one row per relationship

  lemma FirstTwoDiffer(entities: seq<Entity>)
    requires UniqueBy(EntityIdOf, entities) && |entities| > 1
    ensures entities[0] != entities[1]
  {
    assert EntityIdOf(entities[0]) != EntityIdOf(entities[1]);
  }

  lemma SelectOnly(entities: seq<Entity>, e: Entity)
    requires UniqueBy(EntityIdOf, entities) && e in entities
    ensures Select(entities, EntityIdOf, e.entityId) == [e]
  {
    SelectMembers(entities, EntityIdOf, e.entityId);
    SelectUniqueBy(entities, EntityIdOf, e.entityId, EntityIdOf);
    var found := Select(entities, EntityIdOf, e.entityId);
    assert e in found;
    forall i | 0 <= i < |found| ensures found[i] == e {
      assert found[i] in found;
      UniqueMember(EntityIdOf, entities, found[i], e);
    }
    if |found| > 1 { FirstTwoDiffer(found); }
  }

  lemma MatchesOne(r: Relationship, source: Entity, target: Entity)
    ensures LinkMatches(r, [source], [target]) == [LinkRowOf(r, source, target)]
  {
    assert LinkMatches(r, [source], [target]) == LinkMatches(r, [], [target]) + LinksFrom(r, source, [target]);
  }

  ghost predicate Joins(t: Tables, r: Relationship, l: LinkRow) {
    exists source, target :: source in t.entities && target in t.entities
      && source.entityId == r.sourceId && target.entityId == r.targetId && l == LinkRowOf(r, source, target)
  }

  lemma LinkOfOne(t: Tables, r: Relationship) returns (l: LinkRow)
    requires UniqueEntities(t) && RelationshipsResolve(t) && r in t.relationships
    ensures LinkMatches(r, Select(t.entities, EntityIdOf, r.sourceId), Select(t.entities, EntityIdOf, r.targetId)) == [l]
    ensures Joins(t, r, l)
  {
    var source :| source in t.entities && source.entityId == r.sourceId;
    var target :| target in t.entities && target.entityId == r.targetId;
    SelectOnly(t.entities, source);
    SelectOnly(t.entities, target);
    MatchesOne(r, source, target);
    l := LinkRowOf(r, source, target);
  }

  ghost predicate EachJoined(t: Tables, rs: seq<Relationship>, ls: seq<LinkRow>) {
    |ls| == |rs| && forall i :: 0 <= i < |rs| ==> Joins(t, rs[i], ls[i])
  }

  lemma JoinedAppend(t: Tables, rs: seq<Relationship>, ls: seq<LinkRow>, r: Relationship, l: LinkRow)
    requires EachJoined(t, rs, ls) && Joins(t, r, l)
    ensures EachJoined(t, rs + [r], ls + [l])
  {}

  /** The join neither drops nor repeats a relationship, and takes both kinds from its entities. */
  lemma {:induction false} LinkPerRelationship(t: Tables, rs: seq<Relationship>)
    requires UniqueEntities(t) && RelationshipsResolve(t) && forall r <- rs :: r in t.relationships
    ensures EachJoined(t, rs, LinkRows(t, rs))
  {
    if rs != [] {
      var n := |rs| - 1;
      assert rs == rs[..n] + [rs[n]];
      LinkPerRelationship(t, rs[..n]);
      var l := LinkOfOne(t, rs[n]);
      JoinedAppend(t, rs[..n], LinkRows(t, rs[..n]), rs[n], l);
    }
  }

  // ------------------------------------------------------ what the documents add up to

  function SummarySize(g: Group): nat { if g.aggregate.EntityAggregate? then |g.aggregate.links| else 0 }

  function SummaryTotal(groups: seq<Group>): nat {
    if groups == [] then 0 else SummaryTotal(groups[..|groups|-1]) + SummarySize(groups[|groups|-1])
  }

  lemma {:induction false} SummariesAreLinks(ids: seq<string>, rows: seq<EntityRow>, links: seq<LinkRow>)
    requires forall id <- ids :: id in KeySet(rows, IdOf)
    ensures SummaryTotal(EntityGroups(ids, rows, links)) == LinkTotal(links, ids)
  {
    if ids != [] {
      var m := |ids| - 1;
      SummariesAreLinks(ids[..m], rows, links);
      KeySetMembers(rows, IdOf);
      var groups := EntityGroups(ids, rows, links);
      assert groups[..m] == EntityGroups(ids[..m], rows, links);
      assert groups[m] == EntityGroup(ids[m], Select(rows, IdOf, ids[m]), LinksOf(links, ids[m]));
    }
  }

  ghost predicate TakesPart(t: Tables, id: string) {
    exists p :: p in t.participants && p.entityId == id
  }

  lemma SameEnds(t: Tables, rs: seq<Relationship>, ls: seq<LinkRow>, i: nat)
    requires EachJoined(t, rs, ls) && i < |rs|
    ensures ls[i].sourceId == rs[i].sourceId && ls[i].targetId == rs[i].targetId
  {
    assert Joins(t, rs[i], ls[i]);
  }

  lemma EndsTakePart(t: Tables, rs: seq<Relationship>, ls: seq<LinkRow>, ids: seq<string>)
    requires EachJoined(t, rs, ls) && forall id :: id in ids <==> TakesPart(t, id)
    ensures (forall l <- ls :: l.sourceId in ids && l.targetId in ids)
       <==> (forall r <- rs :: TakesPart(t, r.sourceId) && TakesPart(t, r.targetId))
  {
    if forall l <- ls :: l.sourceId in ids && l.targetId in ids {
      forall r | r in rs ensures TakesPart(t, r.sourceId) && TakesPart(t, r.targetId) {
        var i :| 0 <= i < |rs| && rs[i] == r;
        SameEnds(t, rs, ls, i);
        assert ls[i] in ls;
      }
    }
    if forall r <- rs :: TakesPart(t, r.sourceId) && TakesPart(t, r.targetId) {
      forall l | l in ls ensures l.sourceId in ids && l.targetId in ids {
        var i :| 0 <= i < |ls| && ls[i] == l;
        SameEnds(t, rs, ls, i);
        assert rs[i] in rs;
      }
    }
  }

  /** The summaries of all entity documents count each relationship at most twice, once at each end,
      and they count all of them twice exactly when every end takes part in some event: a
      relationship of an entity without participation is lost from that entity's side. */
  lemma SummariesComplete(t: Tables)
    requires UniqueEntities(t) && Admissible(t)
    ensures var total := SummaryTotal(EntityFamilyOf(JoinedEntities(t), JoinedLinks(t)));
      && total <= 2 * |t.relationships|
      && (total == 2 * |t.relationships|
          <==> forall r <- t.relationships :: TakesPart(t, r.sourceId) && TakesPart(t, r.targetId))
  {
    var links := JoinedLinks(t);
    var rows := Sort(EntityRowLe, JoinedEntities(t));
    var ids := Ids(rows);
    forall id ensures id in ids <==> TakesPart(t, id) {
      PresentIds(rows, id);
      SortMembers(EntityRowLe, JoinedEntities(t));
      ParticipantsJoin(t, id);
    }
    SummariesAreLinks(ids, rows, links);
    LinksAreEnds(links, ids);
    AllEndsAmong(links, ids);
    LinkPerRelationship(t, t.relationships);
    EndsTakePart(t, t.relationships, links, ids);
  }
}
