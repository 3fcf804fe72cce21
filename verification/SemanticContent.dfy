/** What does reach the semantic material: exactly the behaviour-bearing leaves, each under one role. */
module SemanticContent {
  import opened Wrappers
  import opened JsonPointer
  import opened Traversal
  import opened SemanticProjection

  lemma {:induction false} KeepMembers(keep: Entry -> bool, entries: seq<Entry>)
    ensures forall e :: e in Keep(keep, entries) <==> e in entries && keep(e)
  {
    if entries != [] {
      var n := |entries| - 1;
      KeepMembers(keep, entries[..n]);
      assert entries == entries[..n] + [entries[n]];
    }
  }

  /** A typed, observable leaf of the same resolved name stands among the entries. */
  ghost predicate Shadowed(p: PathPolicy, entries: seq<Entry>, e: Entry) {
    p.isUnmapped(e.path) && exists t :: t in entries && NamesTyped(p, t) && p.leafName(t.path) == p.leafName(e.path)
  }

  /** What may count as behaviour: present, not timing or noise, not a bare identifier, not shadowed. */
  ghost predicate Counts(p: PathPolicy, entries: seq<Entry>, e: Entry) {
    && e in entries && e.value != JNull && !Dropped(p, e.path) && !Shadowed(p, entries, e)
    && (p.isIdentifier(e.path) ==> p.isPlaceholder(e.path))
  }

  lemma SelectionIsExact(p: PathPolicy, entries: seq<Entry>, e: Entry)
    ensures e in SemanticEntries(p, entries) <==> Counts(p, entries, e)
  {
    var typed := TypedNames(p, entries);
    KeepMembers(x => Behavioural(p, typed, x), entries);
    assert p.leafName(e.path) in typed <==> exists t :: t in entries && NamesTyped(p, t) && p.leafName(t.path) == p.leafName(e.path);
  }

  /** The group material lists a leaf exactly when it counts and is neither identifying nor secret. */
  lemma GroupLeavesAreExact(p: PathPolicy, entries: seq<Entry>, path: string, text: string)
    ensures (path, text) in LeavesOf(p, SemanticEntries(p, entries)) <==>
      exists e :: Counts(p, entries, e) && GroupLeaf(p, e) && path == e.path && text == SemanticValue(p, e.path, e.value)
  {
    var selected := SemanticEntries(p, entries);
    var keep := (e: Entry) => GroupLeaf(p, e);
    var kept := Keep(keep, selected);
    KeepMembers(keep, selected);
    if (path, text) in LeavesOf(p, selected) {
      var i :| 0 <= i < |kept| && (kept[i].path, SemanticValue(p, kept[i].path, kept[i].value)) == (path, text);
      assert kept[i] in kept;
      SelectionIsExact(p, entries, kept[i]);
    }
    if e :| Counts(p, entries, e) && GroupLeaf(p, e) && path == e.path && text == SemanticValue(p, e.path, e.value) {
      SelectionIsExact(p, entries, e);
      assert e in kept;
      var i :| 0 <= i < |kept| && kept[i] == e;
      assert LeavesOf(p, selected)[i] == (path, text);
    }
  }

  // -------------------------------------------------------- where a leaf is described

  predicate StandsAt(text: string, piece: string, i: nat) {
    i + |piece| <= |text| && text[i..i + |piece|] == piece
  }

  ghost predicate Contains(text: string, piece: string) { exists i: nat :: StandsAt(text, piece, i) }

  lemma ContainsBetween(before: string, piece: string, after: string)
    ensures Contains(before + piece + after, piece)
  {
    var text := before + piece + after;
    assert StandsAt(text, piece, |before|);
  }

  lemma ContainsTransitive(text: string, part: string, piece: string)
    requires Contains(text, part) && Contains(part, piece)
    ensures Contains(text, piece)
  {
    var i: nat :| StandsAt(text, part, i);
    var j: nat :| StandsAt(part, piece, j);
    forall k | 0 <= k < |piece| ensures text[i + j + k] == piece[k] {
      assert piece[k] == part[j..j + |piece|][k] == part[j + k];
      assert part[j + k] == text[i..i + |part|][j + k];
    }
    assert StandsAt(text, piece, i + j);
  }

  lemma {:induction false} JoinContains(separator: string, parts: seq<string>, i: nat)
    requires i < |parts|
    ensures Contains(Join(separator, parts), parts[i])
  {
    var whole, rest := Join(separator, parts), if |parts| > 1 then separator + Join(separator, parts[1..]) else "";
    assert whole == "" + parts[0] + rest;
    ContainsBetween("", parts[0], rest);
    if i > 0 {
      JoinContains(separator, parts[1..], i - 1);
      var tail := Join(separator, parts[1..]);
      assert whole == parts[0] + separator + tail + "";
      ContainsBetween(parts[0] + separator, tail, "");
      ContainsTransitive(whole, tail, parts[i]);
    }
  }

  /** Everything there is to say under one role, before any cut. */
  function RoleMaterial(p: PathPolicy, entries: seq<Entry>, role: Role): string {
    Join("; ", Fragments(p, Keep((e: Entry) => p.role(e.path) == role, entries)))
  }

  lemma MaterialContains(p: PathPolicy, entries: seq<Entry>, e: Entry)
    requires e in entries
    ensures Contains(RoleMaterial(p, entries, p.role(e.path)), Fragment(p, e))
  {
    var role := p.role(e.path);
    var keep := (x: Entry) => p.role(x.path) == role;
    var kept := Keep(keep, entries);
    KeepMembers(keep, entries);
    var i :| 0 <= i < |kept| && kept[i] == e;
    JoinContains("; ", Fragments(p, kept), i);
  }

  /** The share of the composed text that a role is sure of. */
  function RoleBudget(role: Role): nat { if role == Outcome || role == Context then 768 else 640 }

  function FacetFor(f: Facets, role: Role): string {
    match role
    case Outcome => f.outcome
    case Action => f.action
    case Target => f.target
    case Context => f.context
  }

  function Title(role: Role): string {
    match role
    case Outcome => "outcome: "
    case Action => "action: "
    case Target => "target: "
    case Context => "context: "
  }

  lemma SectionAt(f: Facets, role: Role) returns (i: nat)
    requires FacetFor(f, role) != ""
    ensures i < |RoleParts(f)| && RoleParts(f)[i] == Title(role) + Bounded(FacetFor(f, role), RoleBudget(role))
  {
    var c, d := Section("outcome: ", f.outcome, 768), Section("action: ", f.action, 640);
    var e := Section("target: ", f.target, 640);
    i := match role
      case Outcome => 0
      case Action => |c|
      case Target => |c| + |d|
      case Context => |c| + |d| + |e|;
  }

  lemma FacetInText(kind: Kind, relation: string, f: Facets, unavailable: bool, role: Role)
    requires FacetFor(f, role) != "" && |FacetFor(f, role)| <= RoleBudget(role)
    ensures Contains(Compose(kind, relation, f, unavailable), FacetFor(f, role))
  {
    var facet, parts := FacetFor(f, role), SemanticParts(kind, relation, f, unavailable);
    var i := SectionAt(f, role);
    var part := parts[|HeadParts(kind, relation)| + i];
    assert part == Title(role) + facet + "";
    ContainsBetween(Title(role), facet, "");
    JoinContains(" | ", parts, |HeadParts(kind, relation)| + i);
    ContainsTransitive(Join(" | ", parts), part, facet);
  }

  /** Every leaf that counts is described in the semantic text, unless what there is to say under its
      role exceeds the budget of that role. */
  lemma LeafReachesText<D>(p: PathPolicy, rs: Relations, digest: Material -> D, relation: string, event: Option<Json>, e: Entry)
    requires Counts(p, Flatten(p, EventOrEmpty(event)).entries, e)
    requires |RoleMaterial(p, SemanticEntries(p, Flatten(p, EventOrEmpty(event)).entries), p.role(e.path))| <= RoleBudget(p.role(e.path))
    ensures Contains(Project(p, rs, digest, relation, event).text, Fragment(p, e))
  {
    var flat := Flatten(p, EventOrEmpty(event)).entries;
    var entries, role := SemanticEntries(p, flat), p.role(e.path);
    SelectionIsExact(p, flat, e);
    MaterialContains(p, entries, e);
    var f := FacetsOf(p, entries);
    assert FacetFor(f, role) == RoleMaterial(p, entries, role);
    var kind := if relation in rs.kinds then rs.kinds[relation] else StructuredOnly;
    FacetInText(kind, relation, f, event.None?, role);
    ContainsTransitive(Compose(kind, relation, f, event.None?), FacetFor(f, role), Fragment(p, e));
  }
}
