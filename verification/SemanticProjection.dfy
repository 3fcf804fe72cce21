/** Semantic texts and the semantic-group digest of one typed event. */
module SemanticProjection {
  import opened Wrappers
  import opened JsonPointer
  import opened Traversal

  const MAX_FACET_TEXT_CHARS := 1024
  const MAX_SEMANTIC_TEXT_CHARS := 3072
  const RELATION_BUDGET := 128
  const MARKER := "\U{2026}[truncated]"

  // ------------------------------------------------------------- behaviour leaves

  /** Paths whose leaves never reach the semantic material, whatever they hold. */
  predicate Dropped(p: PathPolicy, path: string) {
    p.isTime(path) || p.isVolatile(path) || p.isPositional(path) || p.isNoise(path)
  }

  /** A typed leaf shadows the unmapped leaves of the same resolved name. */
  predicate NamesTyped(p: PathPolicy, e: Entry) {
    !p.isUnmapped(e.path) && e.value != JNull && !Dropped(p, e.path)
  }

  function TypedNames(p: PathPolicy, entries: seq<Entry>): set<string> {
    set e | e in entries && NamesTyped(p, e) :: p.leafName(e.path)
  }

  predicate Behavioural(p: PathPolicy, typed: set<string>, e: Entry) {
    && e.value != JNull
    && !Dropped(p, e.path)
    && (p.isIdentifier(e.path) ==> p.isPlaceholder(e.path))
    && (p.isUnmapped(e.path) ==> p.leafName(e.path) !in typed)
  }

  function Keep(keep: Entry -> bool, entries: seq<Entry>): seq<Entry> {
    if entries == [] then []
    else
      var last := entries[|entries|-1];
      Keep(keep, entries[..|entries|-1]) + if keep(last) then [last] else []
  }

  function SemanticEntries(p: PathPolicy, entries: seq<Entry>): seq<Entry> {
    var typed := TypedNames(p, entries);
    Keep(e => Behavioural(p, typed, e), entries)
  }

  method SelectSemanticEntries(p: PathPolicy, entries: seq<Entry>) returns (selected: seq<Entry>)
    ensures selected == SemanticEntries(p, entries)
  {
    var typed := TypedNames(p, entries);
    selected := [];
    for i := 0 to |entries|
      invariant selected == Keep(e => Behavioural(p, typed, e), entries[..i])
    {
      assert entries[..i+1][..i] == entries[..i];
      if Behavioural(p, typed, entries[i]) {
        selected := selected + [entries[i]];
      }
    }
    assert entries[..|entries|] == entries;
  }

  // ------------------------------------------------------------------------ texts

  function SemanticValue(p: PathPolicy, path: string, value: Leaf): string {
    if p.isSecret(path) then "<redacted:secret>"
    else if p.isIdentifier(path) then p.redaction(path)
    else
      match Safe(value)
      case JNull => "null"
      case JBool(flag) => if flag then "true" else "false"
      case JInt(_) => p.quantity(path, Safe(value))
      case JFloat(_) => p.quantity(path, Safe(value))
      case JString(text) => p.sanitise(text)
  }

  /** A cut text ends in the marker and takes the whole limit. */
  function Bounded(text: string, limit: nat): (r: string)
    requires limit >= |MARKER|
    ensures |r| <= limit
    ensures |text| <= limit ==> r == text
    ensures |text| > limit ==> |r| == limit && r[limit - |MARKER|..] == MARKER && r[..limit - |MARKER|] <= text
  {
    if |text| <= limit then text
    else
      var cut := text[..limit - |MARKER|] + MARKER;
      assert cut[limit - |MARKER|..] == MARKER;
      cut
  }

  function Join(separator: string, parts: seq<string>): string {
    if parts == [] then ""
    else if |parts| == 1 then parts[0]
    else parts[0] + separator + Join(separator, parts[1..])
  }

  function Fragment(p: PathPolicy, e: Entry): string { p.labelOf(e.path) + "=" + SemanticValue(p, e.path, e.value) }

  function Fragments(p: PathPolicy, entries: seq<Entry>): seq<string> {
    seq(|entries|, i requires 0 <= i < |entries| => Fragment(p, entries[i]))
  }

  function FacetText(p: PathPolicy, entries: seq<Entry>, role: Role): string {
    Bounded(Join("; ", Fragments(p, Keep((e: Entry) => p.role(e.path) == role, entries))), MAX_FACET_TEXT_CHARS)
  }

  datatype Kind = Activity | State | Detection | StructuredOnly

  function KindText(k: Kind): string {
    match k
    case Activity => "activity"
    case State => "state"
    case Detection => "detection"
    case StructuredOnly => "structured only"
  }

  datatype Facets = Facets(action: string, target: string, context: string, outcome: string)

  function Section(title: string, text: string, budget: nat): seq<string>
    requires budget >= |MARKER|
  {
    if text == "" then [] else [title + Bounded(text, budget)]
  }

  function HeadParts(kind: Kind, relation: string): seq<string> {
    ["kind: " + KindText(kind)] + ["relation: " + Bounded(relation, RELATION_BUDGET)]
  }

  function RoleParts(f: Facets): seq<string> {
    Section("outcome: ", f.outcome, 768) + Section("action: ", f.action, 640)
    + Section("target: ", f.target, 640) + Section("context: ", f.context, 768)
  }

  function TailParts(unavailable: bool): seq<string> {
    if unavailable then ["content: unavailable typed event"] else []
  }

  function SemanticParts(kind: Kind, relation: string, f: Facets, unavailable: bool): seq<string> {
    HeadParts(kind, relation) + RoleParts(f) + TailParts(unavailable)
  }

  function Compose(kind: Kind, relation: string, f: Facets, unavailable: bool): string {
    Join(" | ", SemanticParts(kind, relation, f, unavailable))
  }

  // ------------------------------------------------- the length of the composed text

  function Cost(separator: string, parts: seq<string>): nat {
    if parts == [] then 0 else |parts[0]| + |separator| + Cost(separator, parts[1..])
  }

  lemma {:induction false} JoinLength(separator: string, parts: seq<string>)
    ensures parts != [] ==> |Join(separator, parts)| + |separator| == Cost(separator, parts)
  {
    if |parts| > 1 { JoinLength(separator, parts[1..]); }
  }

  lemma {:induction false} CostConcat(separator: string, a: seq<string>, b: seq<string>)
    ensures Cost(separator, a + b) == Cost(separator, a) + Cost(separator, b)
  {
    if a == [] {
      assert a + b == b;
    } else {
      assert (a + b)[1..] == a[1..] + b;
      CostConcat(separator, a[1..], b);
    }
  }

  lemma OnePart(separator: string, part: string)
    ensures Cost(separator, [part]) == |part| + |separator|
  {
    assert Cost(separator, [part][1..]) == 0;
  }

  lemma SectionCost(separator: string, title: string, text: string, budget: nat)
    requires budget >= |MARKER|
    ensures Cost(separator, Section(title, text, budget)) <= |title| + budget + |separator|
  {
    OnePart(separator, title + Bounded(text, budget));
  }

  lemma RoleCost(separator: string, f: Facets)
    requires |separator| == 3
    ensures Cost(separator, RoleParts(f)) <= 2862
  {
    SectionCost(separator, "outcome: ", f.outcome, 768);
    SectionCost(separator, "action: ", f.action, 640);
    SectionCost(separator, "target: ", f.target, 640);
    SectionCost(separator, "context: ", f.context, 768);
    var c, d := Section("outcome: ", f.outcome, 768), Section("action: ", f.action, 640);
    var e, g := Section("target: ", f.target, 640), Section("context: ", f.context, 768);
    CostConcat(separator, c + d + e, g);
    CostConcat(separator, c + d, e);
    CostConcat(separator, c, d);
  }

  /** The role budgets leave room in the total: the composer's assertion cannot fail, for any
      relation name, any texts and any kind. */
  lemma ComposedTextFits(kind: Kind, relation: string, f: Facets, unavailable: bool)
    ensures |Compose(kind, relation, f, unavailable)| <= 3059 < MAX_SEMANTIC_TEXT_CHARS
  {
    var sep := " | ";
    var head := HeadParts(kind, relation);
    var tail := TailParts(unavailable);
    JoinLength(sep, SemanticParts(kind, relation, f, unavailable));
    CostConcat(sep, head + RoleParts(f), tail);
    CostConcat(sep, head, RoleParts(f));
    CostConcat(sep, ["kind: " + KindText(kind)], ["relation: " + Bounded(relation, RELATION_BUDGET)]);
    OnePart(sep, "kind: " + KindText(kind));
    OnePart(sep, "relation: " + Bounded(relation, RELATION_BUDGET));
    OnePart(sep, "content: unavailable typed event");
    RoleCost(sep, f);
  }

  // ----------------------------------------------------------------- the projection

  datatype Material = Material(relation: string, kind: Kind, facets: Facets, leaves: seq<(string, string)>)

  datatype Projection<D> = Projection(facets: Facets, text: string, group: D, eligible: bool)

  /** The relation table: unknown relations have no kind; some relations await derivation. */
  datatype Relations = Relations(kinds: map<string, Kind>, derivationOnly: set<string>)

  function FacetsOf(p: PathPolicy, entries: seq<Entry>): Facets {
    Facets(FacetText(p, entries, Action), FacetText(p, entries, Target),
           FacetText(p, entries, Context), FacetText(p, entries, Outcome))
  }

  /** The leaves that are part of the group material. */
  predicate GroupLeaf(p: PathPolicy, e: Entry) {
    !p.isPositional(e.path) && !p.isIdentifier(e.path) && !p.isSecret(e.path)
  }

  function LeavesOf(p: PathPolicy, entries: seq<Entry>): seq<(string, string)> {
    var kept := Keep((e: Entry) => GroupLeaf(p, e), entries);
    seq(|kept|, i requires 0 <= i < |kept| => (kept[i].path, SemanticValue(p, kept[i].path, kept[i].value)))
  }

  /** A typed event that could not be parsed is projected as the empty object. */
  function EventOrEmpty(event: Option<Json>): Json { if event.Some? then event.value else JObject([]) }

  function Project<D>(p: PathPolicy, rs: Relations, digest: Material -> D, relation: string, event: Option<Json>): Projection<D> {
    var entries := SemanticEntries(p, Flatten(p, EventOrEmpty(event)).entries);
    var facets := FacetsOf(p, entries);
    var kind := if relation in rs.kinds then rs.kinds[relation] else StructuredOnly;
    Projection(facets,
               Compose(kind, relation, facets, event.None?),
               digest(Material(relation, kind, facets, LeavesOf(p, entries))),
               relation in rs.kinds && event.Some? && relation !in rs.derivationOnly)
  }

  method ProjectEvent<D>(p: PathPolicy, rs: Relations, digest: Material -> D, relation: string, event: Option<Json>)
      returns (r: Projection<D>)
    ensures r == Project(p, rs, digest, relation, event)
    ensures |r.text| <= MAX_SEMANTIC_TEXT_CHARS
  {
    var flat := FlattenEvent(p, EventOrEmpty(event));
    var entries := SelectSemanticEntries(p, flat.entries);
    var facets := FacetsOf(p, entries);
    var kind := if relation in rs.kinds then rs.kinds[relation] else StructuredOnly;
    var text := Compose(kind, relation, facets, event.None?);
    ComposedTextFits(kind, relation, facets, event.None?);
    if |text| > MAX_SEMANTIC_TEXT_CHARS {
      assert false;
    }
    var eligible := relation in rs.kinds && event.Some? && relation !in rs.derivationOnly;
    r := Projection(facets, text, digest(Material(relation, kind, facets, LeavesOf(p, entries))), eligible);
  }
}
