/** The relationship context of the entity family: how often an entity is linked, in which direction,
    by which kind of relationship and to which kind of neighbour. */
module EntityLinks {
  import opened Ordering
  import opened Grouping
  import opened DerivationTypes

  /** One row of the join of a relationship with its two entities. */
  datatype LinkRow = LinkRow(sourceId: string, targetId: string, kind: string, sourceKind: string, targetKind: string)

  function OutLink(r: LinkRow): Link { Link(Outbound, r.kind, r.targetKind) }

  function InLink(r: LinkRow): Link { Link(Inbound, r.kind, r.sourceKind) }

  function One(met: bool, l: Link): multiset<Link> { if met then multiset{l} else multiset{} }

  function Ends(r: LinkRow, id: string): multiset<Link> {
    One(r.sourceId == id, OutLink(r)) + One(r.targetId == id, InLink(r))
  }

  /** The links of one entity. */
  function LinksOf(rows: seq<LinkRow>, id: string): multiset<Link> {
    if rows == [] then multiset{} else LinksOf(rows[..|rows|-1], id) + Ends(rows[|rows|-1], id)
  }

  // ------------------------------------------------------------- the counting pass

  /** A defaultdict of counters: an entity never met has no links. */
  function Recorded(context: map<string, multiset<Link>>, id: string): multiset<Link> {
    if id in context then context[id] else multiset{}
  }

  ghost predicate Counts(context: map<string, multiset<Link>>, rows: seq<LinkRow>) {
    forall id :: Recorded(context, id) == LinksOf(rows, id)
  }

  function Counted(context: map<string, multiset<Link>>, id: string, l: Link): map<string, multiset<Link>> {
    context[id := Recorded(context, id) + multiset{l}]
  }

  lemma CountedOnce(context: map<string, multiset<Link>>, x: string, l: Link, id: string)
    ensures Recorded(Counted(context, x, l), id) == Recorded(context, id) + One(x == id, l)
  {}

  lemma CountedLinks(context: map<string, multiset<Link>>, r: LinkRow, id: string)
    ensures Recorded(Counted(Counted(context, r.sourceId, OutLink(r)), r.targetId, InLink(r)), id)
         == Recorded(context, id) + Ends(r, id)
  {
    CountedOnce(context, r.sourceId, OutLink(r), id);
    CountedOnce(Counted(context, r.sourceId, OutLink(r)), r.targetId, InLink(r), id);
  }

  lemma LinkStep(context: map<string, multiset<Link>>, rows: seq<LinkRow>, i: nat, context': map<string, multiset<Link>>)
    requires i < |rows| && Counts(context, rows[..i])
    requires context' == Counted(Counted(context, rows[i].sourceId, OutLink(rows[i])), rows[i].targetId, InLink(rows[i]))
    ensures Counts(context', rows[..i+1])
  {
    PrefixStep(rows, i);
    forall id ensures Recorded(context', id) == LinksOf(rows[..i+1], id) {
      CountedLinks(context, rows[i], id);
    }
  }

  method CountLinks(rows: seq<LinkRow>) returns (context: map<string, multiset<Link>>)
    ensures Counts(context, rows)
  {
    context := map[];
    for i := 0 to |rows|
      invariant Counts(context, rows[..i])
    {
      var r := rows[i];
      ghost var before := context;
      context := Counted(context, r.sourceId, OutLink(r));
      context := Counted(context, r.targetId, InLink(r));
      LinkStep(before, rows, i, context);
    }
    TakeAll(rows);
  }

  // ------------------------------------------------------------- what is counted

  predicate Gives(r: LinkRow, id: string, l: Link) {
    match l.direction
    case Outbound => r.sourceId == id && OutLink(r) == l
    case Inbound => r.targetId == id && InLink(r) == l
  }

  /** The rows that give an entity one particular link. */
  function RowsGiving(rows: seq<LinkRow>, id: string, l: Link): set<nat> {
    set i: nat | i < |rows| && Gives(rows[i], id, l)
  }

  lemma EndsCount(r: LinkRow, id: string, l: Link)
    ensures Ends(r, id)[l] == if Gives(r, id, l) then 1 else 0
  {}

  lemma RowsGivingStep(rows: seq<LinkRow>, id: string, l: Link)
    requires rows != []
    ensures |RowsGiving(rows, id, l)|
         == |RowsGiving(rows[..|rows|-1], id, l)| + if Gives(rows[|rows|-1], id, l) then 1 else 0
  {
    var n: nat := |rows| - 1;
    var front := RowsGiving(rows[..n], id, l);
    assert RowsGiving(rows, id, l) == if Gives(rows[n], id, l) then front + {n} else front;
  }

  /** A link is counted once for every row that gives it; a relationship of an entity with itself
      gives it two links. */
  lemma {:induction false} LinkCounts(rows: seq<LinkRow>, id: string, l: Link)
    ensures LinksOf(rows, id)[l] == |RowsGiving(rows, id, l)|
  {
    if rows == [] {
      assert RowsGiving(rows, id, l) == {};
    } else {
      LinkCounts(rows[..|rows|-1], id, l);
      EndsCount(rows[|rows|-1], id, l);
      RowsGivingStep(rows, id, l);
    }
  }

  function Meets(id: string, ids: seq<string>): nat { if id in ids then 1 else 0 }

  /** The ends of the rows that lie in a set of entities. */
  function EndsAmong(rows: seq<LinkRow>, ids: seq<string>): nat {
    if rows == [] then 0
    else
      var r := rows[|rows|-1];
      EndsAmong(rows[..|rows|-1], ids) + Meets(r.sourceId, ids) + Meets(r.targetId, ids)
  }

  function LinkTotal(rows: seq<LinkRow>, ids: seq<string>): nat {
    if ids == [] then 0 else LinkTotal(rows, ids[..|ids|-1]) + |LinksOf(rows, ids[|ids|-1])|
  }

  /** Over any entities without repetition, the links number the ends among them. */
  lemma {:induction false} LinksAreEnds(rows: seq<LinkRow>, ids: seq<string>)
    requires Distinct(ids)
    ensures LinkTotal(rows, ids) == EndsAmong(rows, ids)
  {
    if rows == [] {
      NoLinks(ids);
    } else {
      LinksAreEnds(rows[..|rows|-1], ids);
      OneMoreRow(rows, ids);
    }
  }

  lemma {:induction false} NoLinks(ids: seq<string>)
    ensures LinkTotal([], ids) == 0
  {
    if ids != [] { NoLinks(ids[..|ids|-1]); }
  }

  lemma LinksGrow(rows: seq<LinkRow>, id: string)
    requires rows != []
    ensures |LinksOf(rows, id)| == |LinksOf(rows[..|rows|-1], id)| + Meets(rows[|rows|-1].sourceId, [id])
                                 + Meets(rows[|rows|-1].targetId, [id])
  {}

  lemma MeetsLast(id: string, ids: seq<string>)
    requires Distinct(ids) && ids != []
    ensures Meets(id, ids) == Meets(id, ids[..|ids|-1]) + Meets(id, [ids[|ids|-1]])
  {
    var m := |ids| - 1;
    assert ids == ids[..m] + [ids[m]];
  }

  lemma {:induction false} OneMoreRow(rows: seq<LinkRow>, ids: seq<string>)
    requires rows != [] && Distinct(ids)
    ensures var r := rows[|rows|-1];
      LinkTotal(rows, ids) == LinkTotal(rows[..|rows|-1], ids) + Meets(r.sourceId, ids) + Meets(r.targetId, ids)
  {
    if ids != [] {
      var m := |ids| - 1;
      OneMoreRow(rows, ids[..m]);
      LinksGrow(rows, ids[m]);
      MeetsLast(rows[|rows|-1].sourceId, ids);
      MeetsLast(rows[|rows|-1].targetId, ids);
    }
  }

  lemma {:induction false} AllEndsAmong(rows: seq<LinkRow>, ids: seq<string>)
    ensures EndsAmong(rows, ids) <= 2 * |rows|
    ensures EndsAmong(rows, ids) == 2 * |rows| <==> forall r <- rows :: r.sourceId in ids && r.targetId in ids
  {
    if rows != [] {
      var n := |rows| - 1;
      AllEndsAmong(rows[..n], ids);
      assert rows == rows[..n] + [rows[n]];
      assert rows[n] in rows;
    }
  }
}
