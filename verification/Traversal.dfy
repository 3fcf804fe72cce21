/** The bounded priority traversal of a typed event: scan, priority sort, cut. */
module Traversal {
  import opened Ordering
  import opened JsonPointer

  const MAX_LEAVES := 160
  const MAX_LIST_ITEMS := 24
  const MAX_SCALARS_SCANNED := 1024

  datatype Role = Outcome | Action | Target | Context

  /** The policy's readings of keys and dotted paths; how they classify is left open. */
  datatype PathPolicy = PathPolicy(
    keyTier: string -> nat,            // 0 behaviour-bearing, 1 context, 2 unmapped or raw
    normaliseKey: string -> string,
    isSecret: string -> bool, isIdentifier: string -> bool, isTime: string -> bool, isVolatile: string -> bool,
    isFreeText: string -> bool, isPositional: string -> bool, isNoise: string -> bool,
    isUnmapped: string -> bool, isPlaceholder: string -> bool,
    leafName: string -> string,        // with semantic aliases resolved
    role: string -> Role,
    labelOf: string -> string,
    redaction: string -> string,       // the identifier placeholder of a path
    quantity: (string, Leaf) -> string,
    sanitise: string -> string)

  type Leaf = j: Json | j.Scalar() witness JNull

  datatype Entry = Entry(path: string, value: Leaf)

  datatype Flat = Flat(candidates: seq<Entry>, scanned: nat, truncated: bool)

  // ------------------------------------------------------------------ scalars

  function IntText(n: int): string { if n < 0 then "-" + Decimal(-n) else Decimal(n) }

  /** _json_safe_scalar: numbers JSON cannot carry portably become text. */
  function Safe(v: Leaf): Leaf {
    match v
    case JInt(n) => if -MAX_JCS_SAFE_INTEGER <= n <= MAX_JCS_SAFE_INTEGER then v else JString(IntText(n))
    case JFloat(f) => (match f case Finite(_) => v case NonFinite(text) => JString(text))
    case _ => v
  }

  // ----------------------------------------------------------------- children

  datatype Kid = Kid(token: Token, value: Json)

  /** subtree_order: (tier, normalised key); ties keep document order. */
  predicate FieldLe(p: PathPolicy, a: Field, b: Field) {
    p.keyTier(a.key) < p.keyTier(b.key)
    || (p.keyTier(a.key) == p.keyTier(b.key) && StringLe(p.normaliseKey(a.key), p.normaliseKey(b.key)))
  }

  function Ordered(p: PathPolicy, fields: seq<Field>): seq<Field> { Sort((a: Field, b: Field) => FieldLe(p, a, b), fields) }

  function Kids(p: PathPolicy, node: Json): (r: seq<Kid>)
    requires !node.Scalar()
    ensures forall i :: 0 <= i < |r| ==> r[i].value < node
  {
    match node
    case JObject(fields) =>
      var sorted := Ordered(p, fields);
      SortMembers((a: Field, b: Field) => FieldLe(p, a, b), fields);
      assert forall i :: 0 <= i < |sorted| ==> sorted[i] in sorted && sorted[i] in fields;
      seq(|sorted|, i requires 0 <= i < |sorted| => Kid(Key(sorted[i].key), sorted[i].value))
    case JList(items) =>
      var n := if |items| > MAX_LIST_ITEMS then MAX_LIST_ITEMS else |items|;
      seq(n, i requires 0 <= i < n => Kid(Index(i), items[i]))
  }

  predicate Overlong(node: Json) { node.JList? && |node.items| > MAX_LIST_ITEMS }

  predicate EmptyContainer(node: Json) { node == JObject([]) || node == JList([]) }

  // --------------------------------------------------------------------- visit

  function Record(st: Flat, path: string, value: Leaf): Flat {
    st.(scanned := st.scanned + 1, candidates := st.candidates + [Entry(path, value)])
  }

  function LeafPath(path: string): string { if path == "" then "value" else path }

  function VisitNode(p: PathPolicy, st: Flat, node: Json, path: string): Flat
    decreases node, 1, 0
  {
    if st.scanned >= MAX_SCALARS_SCANNED then st.(truncated := true)
    else if node.Scalar() then Record(st, LeafPath(path), Safe(node))
    else
      var cut := if Overlong(node) then st.(truncated := true) else st;
      var after := VisitKids(p, cut, node, |Kids(p, node)|, path);
      if EmptyContainer(node) && path != "" then Record(after, path, JNull) else after
  }

  /** The visits of the first n children. */
  function VisitKids(p: PathPolicy, st: Flat, owner: Json, n: nat, path: string): Flat
    requires !owner.Scalar() && n <= |Kids(p, owner)|
    decreases owner, 0, n
  {
    if n == 0 then st
    else
      var kid := Kids(p, owner)[n-1];
      VisitNode(p, VisitKids(p, st, owner, n - 1, path), kid.value, DottedChild(path, kid.token))
  }

  /** leaf_priority: behaviour-bearing typed leaves, other typed leaves, closure bags. */
  function LeafTier(p: PathPolicy, path: string): nat {
    if p.isTime(path) || p.role(path) != Context || p.isFreeText(path) then 0
    else if !p.isUnmapped(path) && !p.isPositional(path) then 1
    else 2
  }

  predicate EntryLe(p: PathPolicy, a: Entry, b: Entry) {
    LeafTier(p, a.path) < LeafTier(p, b.path)
    || (LeafTier(p, a.path) == LeafTier(p, b.path) && StringLe(a.path, b.path))
  }

  function ByPriority(p: PathPolicy, candidates: seq<Entry>): seq<Entry> {
    Sort((a: Entry, b: Entry) => EntryLe(p, a, b), candidates)
  }

  datatype Flattened = Flattened(entries: seq<Entry>, truncated: bool)

  function Scan(p: PathPolicy, event: Json): Flat { VisitNode(p, Flat([], 0, false), event, "") }

  function Flatten(p: PathPolicy, event: Json): Flattened {
    var st := Scan(p, event);
    var sorted := ByPriority(p, st.candidates);
    if |sorted| > MAX_LEAVES then Flattened(sorted[..MAX_LEAVES], true) else Flattened(sorted, st.truncated)
  }

  // -------------------------------------------------------- the visitor object

  class Visitor {
    var candidates: seq<Entry>
    var scanned: nat
    var truncated: bool

    ghost function State(): Flat
      reads this
    {
      Flat(candidates, scanned, truncated)
    }

    constructor ()
      ensures State() == Flat([], 0, false)
    {
      candidates, scanned, truncated := [], 0, false;
    }

    method Visit(p: PathPolicy, node: Json, path: string)
      modifies this
      ensures State() == VisitNode(p, old(State()), node, path)
      decreases node, 1
    {
      if scanned >= MAX_SCALARS_SCANNED {
        truncated := true;
        return;
      }
      if node.Scalar() {
        scanned := scanned + 1;
        candidates := candidates + [Entry(LeafPath(path), Safe(node))];
        return;
      }
      if Overlong(node) {
        truncated := true;
      }
      VisitChildren(p, node, path);
      if EmptyContainer(node) && path != "" {
        scanned := scanned + 1;
        candidates := candidates + [Entry(path, JNull)];
      }
    }

    /** The loop over a container's children; an object's loop stops once the scan is full. */
    method VisitChildren(p: PathPolicy, owner: Json, path: string)
      requires !owner.Scalar()
      modifies this
      ensures State() == VisitKids(p, old(State()), owner, |Kids(p, owner)|, path)
      decreases owner, 0
    {
      var kids := Kids(p, owner);
      var i := 0;
      while i < |kids|
        invariant 0 <= i <= |kids| && State() == VisitKids(p, old(State()), owner, i, path)
      {
        if owner.JObject? && scanned >= MAX_SCALARS_SCANNED {
          FullScanOnlyTruncates(p, old(State()), owner, path, i);
          truncated := true;
          return;
        }
        Visit(p, kids[i].value, DottedChild(path, kids[i].token));
        i := i + 1;
      }
    }
  }

  lemma FullVisitTruncates(p: PathPolicy, st: Flat, node: Json, path: string)
    requires st.scanned >= MAX_SCALARS_SCANNED
    ensures VisitNode(p, st, node, path) == st.(truncated := true)
  {}

  lemma FullKidTruncates(p: PathPolicy, st: Flat, owner: Json, path: string, m: nat)
    requires !owner.Scalar() && m < |Kids(p, owner)| && VisitKids(p, st, owner, m, path).scanned >= MAX_SCALARS_SCANNED
    ensures VisitKids(p, st, owner, m + 1, path) == VisitKids(p, st, owner, m, path).(truncated := true)
  {
    var kid := Kids(p, owner)[m];
    FullVisitTruncates(p, VisitKids(p, st, owner, m, path), kid.value, DottedChild(path, kid.token));
  }

  /** Once the scan is full, further children only raise the truncation flag. */
  lemma {:induction false} FullScanOnlyTruncates(p: PathPolicy, st: Flat, owner: Json, path: string, i: nat)
    requires !owner.Scalar() && i < |Kids(p, owner)|
    requires VisitKids(p, st, owner, i, path).scanned >= MAX_SCALARS_SCANNED
    ensures VisitKids(p, st, owner, |Kids(p, owner)|, path) == VisitKids(p, st, owner, i, path).(truncated := true)
    decreases |Kids(p, owner)| - i
  {
    FullKidTruncates(p, st, owner, path, i);
    if i + 1 < |Kids(p, owner)| { FullScanOnlyTruncates(p, st, owner, path, i + 1); }
  }

  method FlattenEvent(p: PathPolicy, event: Json) returns (r: Flattened)
    ensures r == Flatten(p, event)
  {
    var visitor := new Visitor();
    visitor.Visit(p, event, "");
    var sorted := ByPriority(p, visitor.candidates);
    var truncated := visitor.truncated;
    if |sorted| > MAX_LEAVES {
      truncated := true;
      sorted := sorted[..MAX_LEAVES];
    }
    r := Flattened(sorted, truncated);
  }
}
