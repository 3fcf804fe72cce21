/** The exact-attribute subset: a bounded scan of a typed event for value-exact JSON scalars,
    each addressed by an RFC 6901 pointer, with every omission accounted for. */
module ExactAttributes {
  import opened Ordering
  import opened Wrappers
  import opened JsonPointer

  const MAX_SCALARS_SCANNED := 512
  const MAX_ATTRIBUTES := 256
  const MAX_LIST_ITEMS := 64
  const MAX_STRING_BYTES := 1024
  const MAX_PATH_CHARS := 1024

  /** The path and text predicates of the projection policy. */
  datatype ExactPolicy = ExactPolicy(
    isSecret: string -> bool, isFreeText: string -> bool, hasCredential: string -> bool)

  datatype Omission =
    | NullValue | OversizePath | SecretField | FreeTextField | NonJcsSafeInteger | NonFiniteNumber
    | OversizeString | UnsafeCredentialValue | AttributeLimit

  datatype Found = Found(at: seq<Token>, value: Json)

  datatype Scan = Scan(
    found: seq<Found>, omissions: multiset<Omission>, scanned: nat, truncated: bool, omittedSubtrees: nat)

  const EMPTY_SCAN := Scan([], multiset{}, 0, false, 0)

  // ------------------------------------------------------------------ one scalar

  function Utf8Length(s: string): nat {
    if s == [] then 0
    else
      var c := s[0] as int;
      (if c < 0x80 then 1 else if c < 0x800 then 2 else if c < 0x10000 then 3 else 4) + Utf8Length(s[1..])
  }

  /** Why a scalar is not selected, in the order in which the source asks. */
  function Refusal(p: ExactPolicy, at: seq<Token>, node: Json): Option<Omission> {
    if node.JNull? then Some(NullValue)
    else if |Render(at)| > MAX_PATH_CHARS then Some(OversizePath)
    else if p.isSecret(DottedPath(at)) then Some(SecretField)
    else if p.isFreeText(DottedPath(at)) then Some(FreeTextField)
    else match node
      case JInt(n) => if -MAX_JCS_SAFE_INTEGER <= n <= MAX_JCS_SAFE_INTEGER then None else Some(NonJcsSafeInteger)
      case JFloat(f) => if f.Finite? then None else Some(NonFiniteNumber)
      case JString(s) =>
        if Utf8Length(s) > MAX_STRING_BYTES then Some(OversizeString)
        else if p.hasCredential(s) then Some(UnsafeCredentialValue)
        else None
      case _ => None
  }

  function ScanScalar(p: ExactPolicy, st: Scan, node: Json, at: seq<Token>): Scan {
    var counted := st.(scanned := st.scanned + 1);
    match Refusal(p, at, node)
    case Some(reason) => counted.(omissions := st.omissions + multiset{reason})
    case None =>
      if |st.found| >= MAX_ATTRIBUTES then counted.(omissions := st.omissions + multiset{AttributeLimit})
      else counted.(found := st.found + [Found(at, node)])
  }

  // -------------------------------------------------------------------- children

  datatype Kid = Kid(token: Token, value: Json)

  predicate FieldLe(a: Field, b: Field) { StringLe(a.key, b.key) }

  /** The children a visit descends into: all fields by key, or the first list items. */
  function Kids(node: Json): (r: seq<Kid>)
    requires !node.Scalar()
    ensures forall i :: 0 <= i < |r| ==> r[i].value < node
  {
    match node
    case JObject(fields) =>
      var sorted := Sort(FieldLe, fields);
      SortMembers(FieldLe, fields);
      assert forall i :: 0 <= i < |sorted| ==> sorted[i] in sorted && sorted[i] in fields;
      seq(|sorted|, i requires 0 <= i < |sorted| => Kid(Key(sorted[i].key), sorted[i].value))
    case JList(items) =>
      var n := if |items| > MAX_LIST_ITEMS then MAX_LIST_ITEMS else |items|;
      seq(n, i requires 0 <= i < n => Kid(Index(i), items[i]))
  }

  function CutItems(node: Json): nat {
    if node.JList? && |node.items| > MAX_LIST_ITEMS then |node.items| - MAX_LIST_ITEMS else 0
  }

  function KeyOf(f: Field): string { f.key }

  /** Each child is where its token says, no token repeats, and no child is missed unless the
      list was cut. */
  lemma KidsFacts(node: Json)
    requires !node.Scalar() && UniqueKeys(node)
    ensures forall i :: 0 <= i < |Kids(node)| ==> Child(node, Kids(node)[i].token) == Some(Kids(node)[i].value)
    ensures forall i :: 0 <= i < |Kids(node)| ==> UniqueKeys(Kids(node)[i].value)
    ensures forall i, k :: 0 <= i < k < |Kids(node)| ==> Kids(node)[i].token != Kids(node)[k].token
  {
    if node.JObject? {
      var fields := node.fields;
      var sorted := Sort(FieldLe, fields);
      SortMembers(FieldLe, fields);
      assert UniqueBy(KeyOf, fields);
      UniqueBySort(FieldLe, KeyOf, fields);
      forall i | 0 <= i < |sorted|
        ensures Child(node, Key(sorted[i].key)) == Some(sorted[i].value) && UniqueKeys(sorted[i].value)
      {
        assert sorted[i] in sorted && sorted[i] in fields;
        var k :| 0 <= k < |fields| && fields[k] == sorted[i];
        LookupUnique(fields, k);
      }
      forall i, k | 0 <= i < k < |sorted| ensures sorted[i].key != sorted[k].key {
        assert KeyOf(sorted[i]) != KeyOf(sorted[k]);
      }
    }
  }

  lemma KidsComplete(node: Json, t: Token) returns (i: nat)
    requires !node.Scalar() && CutItems(node) == 0 && Child(node, t).Some?
    ensures i < |Kids(node)| && Kids(node)[i] == Kid(t, Child(node, t).value)
  {
    match t
    case Key(name) =>
      var sorted := Sort(FieldLe, node.fields);
      SortMembers(FieldLe, node.fields);
      LookupFound(node.fields, name);
      assert Field(name, Child(node, t).value) in sorted;
      i :| 0 <= i < |sorted| && sorted[i] == Field(name, Child(node, t).value);
    case Index(at) => i := at;
  }

  // ------------------------------------------------------------------- the scan

  function ScanNode(p: ExactPolicy, st: Scan, node: Json, at: seq<Token>): Scan
    decreases node, 1, 0
  {
    if st.scanned >= MAX_SCALARS_SCANNED then st.(truncated := true, omittedSubtrees := st.omittedSubtrees + 1)
    else if node.Scalar() then ScanScalar(p, st, node, at)
    else
      var after := ScanKids(p, st, node, Kids(node), at);
      if CutItems(node) > 0
      then after.(truncated := true, omittedSubtrees := after.omittedSubtrees + CutItems(node))
      else after
  }

  function ScanKids(p: ExactPolicy, st: Scan, owner: Json, kids: seq<Kid>, at: seq<Token>): Scan
    requires forall i :: 0 <= i < |kids| ==> kids[i].value < owner
    decreases owner, 0, |kids|
  {
    if kids == [] then st
    else
      var n := |kids| - 1;
      ScanNode(p, ScanKids(p, st, owner, kids[..n], at), kids[n].value, at + [kids[n].token])
  }

  // ---------------------------------------------------------------- accounting

  /** Every scalar visited is either selected or counted under a reason, within the bounds. */
  ghost predicate Accounted(st: Scan) {
    && st.scanned == |st.found| + |st.omissions|
    && st.scanned <= MAX_SCALARS_SCANNED && |st.found| <= MAX_ATTRIBUTES
    && (st.truncated <==> st.omittedSubtrees > 0)
  }

  lemma {:induction false} NodeAccounted(p: ExactPolicy, st: Scan, node: Json, at: seq<Token>)
    requires Accounted(st)
    ensures Accounted(ScanNode(p, st, node, at))
    decreases node, 1, 0
  {
    if st.scanned < MAX_SCALARS_SCANNED && !node.Scalar() { KidsAccounted(p, st, node, Kids(node), at); }
  }

  lemma {:induction false} KidsAccounted(p: ExactPolicy, st: Scan, owner: Json, kids: seq<Kid>, at: seq<Token>)
    requires Accounted(st) && forall i :: 0 <= i < |kids| ==> kids[i].value < owner
    ensures Accounted(ScanKids(p, st, owner, kids, at))
    decreases owner, 0, |kids|
  {
    if kids != [] {
      var n := |kids| - 1;
      KidsAccounted(p, st, owner, kids[..n], at);
      NodeAccounted(p, ScanKids(p, st, owner, kids[..n], at), kids[n].value, at + [kids[n].token]);
    }
  }

  // ------------------------------------------------------- what a scan has added

  /** st' continues st: earlier finds stay, new ones are selectable leaves below `at`, and
      truncation and omissions are never forgotten. */
  ghost predicate Continues(p: ExactPolicy, j: Json, st: Scan, st': Scan) {
    && st.found <= st'.found
    && (st.truncated ==> st'.truncated) && st.omissions <= st'.omissions
    && forall i :: |st.found| <= i < |st'.found| ==>
         IsLeaf(j, st'.found[i].at, st'.found[i].value) && Refusal(p, st'.found[i].at, st'.found[i].value) == None
  }

  ghost predicate NewBelow(st: Scan, st': Scan, at: seq<Token>) {
    && |st.found| <= |st'.found|
    && (forall i :: |st.found| <= i < |st'.found| ==> at <= st'.found[i].at)
    && forall i, k :: |st.found| <= i < k < |st'.found| ==> st'.found[i].at != st'.found[k].at
  }

  lemma {:induction false} NodeContinues(p: ExactPolicy, j: Json, st: Scan, node: Json, at: seq<Token>)
    requires At(j, at) == Some(node) && UniqueKeys(node)
    ensures Continues(p, j, st, ScanNode(p, st, node, at)) && NewBelow(st, ScanNode(p, st, node, at), at)
    decreases node, 1, 0
  {
    if st.scanned < MAX_SCALARS_SCANNED && !node.Scalar() {
      KidsFacts(node);
      KidsContinue(p, j, st, node, Kids(node), at);
      ForgetKids(st, ScanKids(p, st, node, Kids(node), at), Kids(node), at);
    }
  }

  /** Kids scanned so far, each find below the kid's own location. */
  ghost predicate NewBelowKids(st: Scan, st': Scan, kids: seq<Kid>, at: seq<Token>) {
    && |st.found| <= |st'.found|
    && (forall i :: |st.found| <= i < |st'.found| ==>
          exists k :: 0 <= k < |kids| && (at + [kids[k].token]) <= st'.found[i].at)
    && forall i, k :: |st.found| <= i < k < |st'.found| ==> st'.found[i].at != st'.found[k].at
  }

  lemma ForgetKids(st: Scan, st': Scan, kids: seq<Kid>, at: seq<Token>)
    requires NewBelowKids(st, st', kids, at)
    ensures NewBelow(st, st', at)
  {
    forall i | |st.found| <= i < |st'.found| ensures at <= st'.found[i].at {
      var k :| 0 <= k < |kids| && (at + [kids[k].token]) <= st'.found[i].at;
      assert at <= at + [kids[k].token];
    }
  }

  lemma {:induction false} KidsContinue(p: ExactPolicy, j: Json, st: Scan, owner: Json, kids: seq<Kid>, at: seq<Token>)
    requires forall i :: 0 <= i < |kids| ==> kids[i].value < owner
    requires At(j, at) == Some(owner)
    requires forall i :: 0 <= i < |kids| ==> Child(owner, kids[i].token) == Some(kids[i].value) && UniqueKeys(kids[i].value)
    requires forall i, k :: 0 <= i < k < |kids| ==> kids[i].token != kids[k].token
    ensures Continues(p, j, st, ScanKids(p, st, owner, kids, at))
    ensures NewBelowKids(st, ScanKids(p, st, owner, kids, at), kids, at)
    decreases owner, 0, |kids|
  {
    if kids != [] {
      var n := |kids| - 1;
      var mid := ScanKids(p, st, owner, kids[..n], at);
      var last := at + [kids[n].token];
      KidsContinue(p, j, st, owner, kids[..n], at);
      AtAppend(j, at, kids[n].token);
      NodeContinues(p, j, mid, kids[n].value, last);
      JoinKids(st, mid, ScanNode(p, mid, kids[n].value, last), kids, at);
    }
  }

  lemma JoinKids(st: Scan, mid: Scan, end: Scan, kids: seq<Kid>, at: seq<Token>)
    requires kids != [] && forall i, k :: 0 <= i < k < |kids| ==> kids[i].token != kids[k].token
    requires NewBelowKids(st, mid, kids[..|kids|-1], at)
    requires mid.found <= end.found && NewBelow(mid, end, at + [kids[|kids|-1].token])
    ensures NewBelowKids(st, end, kids, at)
  {
    var n := |kids| - 1;
    forall i | |st.found| <= i < |end.found|
      ensures exists k :: 0 <= k < |kids| && (at + [kids[k].token]) <= end.found[i].at
    {
      if i < |mid.found| {
        assert end.found[i] == mid.found[i];
        var k :| 0 <= k < |kids[..n]| && (at + [kids[..n][k].token]) <= mid.found[i].at;
        assert (at + [kids[k].token]) <= end.found[i].at;
      } else {
        assert (at + [kids[n].token]) <= end.found[i].at;
      }
    }
    forall i, k | |st.found| <= i < k < |end.found| ensures end.found[i].at != end.found[k].at {
      if k < |mid.found| {
        assert end.found[i] == mid.found[i] && end.found[k] == mid.found[k];
      } else if i < |mid.found| {
        assert end.found[i] == mid.found[i];
        var x :| 0 <= x < |kids[..n]| && (at + [kids[..n][x].token]) <= mid.found[i].at;
        assert end.found[i].at[|at|] == kids[x].token && end.found[k].at[|at|] == kids[n].token;
      }
    }
  }

  // --------------------------------------------------------------- completeness

  lemma LeafOfScalar(node: Json, rest: seq<Token>, v: Json)
    requires node.Scalar() && IsLeaf(node, rest, v)
    ensures rest == [] && v == node
  {}

  lemma LeafBelow(node: Json, rest: seq<Token>, v: Json)
    requires !node.Scalar() && IsLeaf(node, rest, v)
    ensures rest != [] && Child(node, rest[0]).Some? && IsLeaf(Child(node, rest[0]).value, rest[1..], v)
  {}

  /** What the last child's visit keeps of the visits before it. */
  lemma LastKid(p: ExactPolicy, j: Json, st: Scan, owner: Json, kids: seq<Kid>, at: seq<Token>)
    requires (forall i :: 0 <= i < |kids| ==> kids[i].value < owner) && kids != []
    requires At(j, at) == Some(owner)
    requires Child(owner, kids[|kids|-1].token) == Some(kids[|kids|-1].value) && UniqueKeys(kids[|kids|-1].value)
    ensures var mid, end := ScanKids(p, st, owner, kids[..|kids|-1], at), ScanKids(p, st, owner, kids, at);
      mid.found <= end.found && (mid.truncated ==> end.truncated) && mid.omissions <= end.omissions
    ensures At(j, at + [kids[|kids|-1].token]) == Some(kids[|kids|-1].value)
  {
    var n := |kids| - 1;
    AtAppend(j, at, kids[n].token);
    NodeContinues(p, j, ScanKids(p, st, owner, kids[..n], at), kids[n].value, at + [kids[n].token]);
  }

  lemma UncutScan(p: ExactPolicy, st: Scan, node: Json, at: seq<Token>)
    requires !node.Scalar() && !ScanNode(p, st, node, at).truncated
    ensures CutItems(node) == 0 && ScanNode(p, st, node, at) == ScanKids(p, st, node, Kids(node), at)
  {}

  lemma SelectedScalar(p: ExactPolicy, st: Scan, node: Json, at: seq<Token>)
    requires node.Scalar()
    requires !ScanNode(p, st, node, at).truncated && ScanNode(p, st, node, at).omissions == multiset{}
    ensures Found(at, node) in ScanNode(p, st, node, at).found
  {}

  lemma JoinPath(at: seq<Token>, rest: seq<Token>)
    requires rest != []
    ensures at + [rest[0]] + rest[1..] == at + rest
  {}

  /** A scan that drops nothing selects every scalar leaf. */
  lemma {:induction false} NodeComplete(p: ExactPolicy, j: Json, st: Scan, node: Json, at: seq<Token>, rest: seq<Token>, v: Json)
    requires At(j, at) == Some(node) && UniqueKeys(node) && IsLeaf(node, rest, v)
    requires var st' := ScanNode(p, st, node, at); !st'.truncated && st'.omissions == multiset{}
    ensures Found(at + rest, v) in ScanNode(p, st, node, at).found
    decreases node, 1, 0
  {
    if node.Scalar() {
      LeafOfScalar(node, rest, v);
      SelectedScalar(p, st, node, at);
      assert at + rest == at;
    } else {
      KidsFacts(node);
      LeafBelow(node, rest, v);
      UncutScan(p, st, node, at);
      var i := KidsComplete(node, rest[0]);
      KidsAllComplete(p, j, st, node, Kids(node), at, i, rest[1..], v);
      JoinPath(at, rest);
    }
  }

  lemma {:induction false} KidsAllComplete(p: ExactPolicy, j: Json, st: Scan, owner: Json, kids: seq<Kid>, at: seq<Token>,
                                           i: nat, rest: seq<Token>, v: Json)
    requires forall i :: 0 <= i < |kids| ==> kids[i].value < owner
    requires At(j, at) == Some(owner) && i < |kids| && IsLeaf(kids[i].value, rest, v)
    requires forall i :: 0 <= i < |kids| ==> Child(owner, kids[i].token) == Some(kids[i].value) && UniqueKeys(kids[i].value)
    requires forall i, k :: 0 <= i < k < |kids| ==> kids[i].token != kids[k].token
    requires var st' := ScanKids(p, st, owner, kids, at); !st'.truncated && st'.omissions == multiset{}
    ensures Found(at + [kids[i].token] + rest, v) in ScanKids(p, st, owner, kids, at).found
    decreases owner, 0, |kids|
  {
    var n := |kids| - 1;
    var mid := ScanKids(p, st, owner, kids[..n], at);
    LastKid(p, j, st, owner, kids, at);
    if i < n {
      KidsAllComplete(p, j, st, owner, kids[..n], at, i, rest, v);
      assert kids[..n][i] == kids[i];
      PrefixKeeps(mid.found, ScanKids(p, st, owner, kids, at).found, Found(at + [kids[i].token] + rest, v));
    } else {
      NodeComplete(p, j, mid, kids[n].value, at + [kids[n].token], rest, v);
    }
  }

  lemma PrefixKeeps<T>(a: seq<T>, b: seq<T>, x: T)
    requires a <= b && x in a
    ensures x in b
  {}

  // -------------------------------------------------------- the scanner object

  /** An emitted attribute; its namespace is always "ocsf". */
  datatype Attribute = Attribute(path: string, value: Json)

  function Rendered(found: seq<Found>): seq<Attribute> {
    seq(|found|, i requires 0 <= i < |found| => Attribute(Render(found[i].at), found[i].value))
  }

  /** The nonlocal state of the recursive visitor. */
  class Scanner {
    var attributes: seq<Attribute>
    var omissions: multiset<Omission>
    var scanned: nat
    var truncated: bool
    var omittedSubtrees: nat

    ghost predicate Matches(st: Scan)
      reads this
    {
      && attributes == Rendered(st.found) && omissions == st.omissions && scanned == st.scanned
      && truncated == st.truncated && omittedSubtrees == st.omittedSubtrees
    }

    constructor ()
      ensures Matches(EMPTY_SCAN)
    {
      attributes, omissions, scanned, truncated, omittedSubtrees := [], multiset{}, 0, false, 0;
    }

    method Visit(p: ExactPolicy, node: Json, path: string, semanticPath: string, ghost at: seq<Token>, ghost st: Scan)
      requires Matches(st) && path == Render(at) && semanticPath == DottedPath(at)
      modifies this
      ensures Matches(ScanNode(p, st, node, at))
      decreases node, 1
    {
      if scanned >= MAX_SCALARS_SCANNED {
        truncated := true;
        omittedSubtrees := omittedSubtrees + 1;
      } else if node.Scalar() {
        VisitScalar(p, node, path, semanticPath, at, st);
      } else {
        VisitKids(p, node, Kids(node), path, semanticPath, at, st);
        if CutItems(node) > 0 {
          truncated := true;
          omittedSubtrees := omittedSubtrees + CutItems(node);
        }
      }
    }

    method VisitKids(p: ExactPolicy, owner: Json, kids: seq<Kid>, path: string, semanticPath: string,
                     ghost at: seq<Token>, ghost st: Scan)
      requires Matches(st) && path == Render(at) && semanticPath == DottedPath(at)
      requires forall i :: 0 <= i < |kids| ==> kids[i].value < owner
      modifies this
      ensures Matches(ScanKids(p, st, owner, kids, at))
      decreases owner, 0
    {
      for i := 0 to |kids|
        invariant Matches(ScanKids(p, st, owner, kids[..i], at))
      {
        var kid := kids[i];
        RenderLast(at, kid.token);
        assert (at + [kid.token])[..|at|] == at;
        assert kids[..i+1][..i] == kids[..i];
        Visit(p, kid.value, path + (['/'] + Segment(kid.token)), DottedChild(semanticPath, kid.token), at + [kid.token],
              ScanKids(p, st, owner, kids[..i], at));
      }
      assert kids[..|kids|] == kids;
    }

    method VisitScalar(p: ExactPolicy, node: Json, path: string, semanticPath: string, ghost at: seq<Token>, ghost st: Scan)
      requires Matches(st) && path == Render(at) && semanticPath == DottedPath(at) && node.Scalar()
      modifies this
      ensures Matches(ScanScalar(p, st, node, at))
    {
      scanned := scanned + 1;
      var reason := Classify(p, node, path, semanticPath, at);
      if reason.Some? {
        omissions := omissions + multiset{reason.value};
      } else if |attributes| >= MAX_ATTRIBUTES {
        omissions := omissions + multiset{AttributeLimit};
      } else {
        RenderedAppend(st.found, Found(at, node));
        attributes := attributes + [Attribute(path, node)];
      }
    }
  }

  lemma RenderedAppend(found: seq<Found>, f: Found)
    ensures Rendered(found + [f]) == Rendered(found) + [Attribute(Render(f.at), f.value)]
  {}

  /** The chain of refusals, asked of the path strings the visitor carries. */
  method Classify(p: ExactPolicy, node: Json, path: string, semanticPath: string, ghost at: seq<Token>)
    returns (reason: Option<Omission>)
    requires path == Render(at) && semanticPath == DottedPath(at) && node.Scalar()
    ensures reason == Refusal(p, at, node)
  {
    if node.JNull? { return Some(NullValue); }
    if |path| > MAX_PATH_CHARS { return Some(OversizePath); }
    if p.isSecret(semanticPath) { return Some(SecretField); }
    if p.isFreeText(semanticPath) { return Some(FreeTextField); }
    if node.JInt? && !(-MAX_JCS_SAFE_INTEGER <= node.number <= MAX_JCS_SAFE_INTEGER) { return Some(NonJcsSafeInteger); }
    if node.JFloat? && node.float.NonFinite? { return Some(NonFiniteNumber); }
    if node.JString? && Utf8Length(node.text) > MAX_STRING_BYTES { return Some(OversizeString); }
    if node.JString? && p.hasCredential(node.text) { return Some(UnsafeCredentialValue); }
    return None;
  }

  // -------------------------------------------------------------- the projection

  datatype Accounting = Accounting(
    selected: nat, scanned: nat, omitted: nat, omittedSubtrees: nat, truncated: bool, hydrationRequired: bool)

  datatype Subset = Subset(attributes: seq<Attribute>, accounting: Accounting)

  predicate PathLe(a: Attribute, b: Attribute) { StringLe(a.path, b.path) }

  ghost function FullScan(p: ExactPolicy, event: Json): Scan { ScanNode(p, EMPTY_SCAN, event, []) }

  ghost function SubsetOf(p: ExactPolicy, event: Json): Subset {
    var st := FullScan(p, event);
    Subset(Sort(PathLe, Rendered(st.found)),
           Accounting(|st.found|, st.scanned, |st.omissions|, st.omittedSubtrees, st.truncated,
                      |st.omissions| > 0 || st.truncated))
  }

  method ExactAttributeSubset(p: ExactPolicy, event: Json) returns (r: Subset)
    ensures r == SubsetOf(p, event)
  {
    var scanner := new Scanner();
    scanner.Visit(p, event, "", "", [], EMPTY_SCAN);
    var omitted := |scanner.omissions|;
    r := Subset(
      Sort(PathLe, scanner.attributes),
      Accounting(|scanner.attributes|, scanner.scanned, omitted, scanner.omittedSubtrees, scanner.truncated,
                 omitted > 0 || scanner.truncated));
  }

  // ------------------------------------------------------------------ properties

  /** scanned = selected + omitted, within both bounds. */
  lemma SubsetAccounting(p: ExactPolicy, event: Json)
    ensures var r := SubsetOf(p, event);
      && r.accounting.selected == |r.attributes| <= MAX_ATTRIBUTES
      && r.accounting.scanned == r.accounting.selected + r.accounting.omitted <= MAX_SCALARS_SCANNED
      && (r.accounting.truncated <==> r.accounting.omittedSubtrees > 0)
  {
    NodeAccounted(p, EMPTY_SCAN, event, []);
  }

  lemma EveryAttributeIsALeaf(p: ExactPolicy, event: Json, a: Attribute) returns (at: seq<Token>)
    requires event.JObject? && UniqueKeys(event) && a in SubsetOf(p, event).attributes
    ensures at != [] && a.path == Render(at) && IsLeaf(event, at, a.value) && Refusal(p, at, a.value) == None
  {
    var st := FullScan(p, event);
    NodeContinues(p, event, EMPTY_SCAN, event, []);
    SortMembers(PathLe, Rendered(st.found));
    assert a in Rendered(st.found);
    var i :| 0 <= i < |st.found| && Rendered(st.found)[i] == a;
    at := st.found[i].at;
  }

  /** If no hydration is required, the attributes are precisely the scalar leaves of the event. */
  lemma NoHydrationMeansComplete(p: ExactPolicy, event: Json, at: seq<Token>, v: Json)
    requires event.JObject? && UniqueKeys(event) && IsLeaf(event, at, v)
    requires !SubsetOf(p, event).accounting.hydrationRequired
    ensures Attribute(Render(at), v) in SubsetOf(p, event).attributes
  {
    var st := FullScan(p, event);
    NodeComplete(p, event, EMPTY_SCAN, event, [], at, v);
    assert [] + at == at;
    var i :| 0 <= i < |st.found| && st.found[i] == Found(at, v);
    assert Rendered(st.found)[i] == Attribute(Render(at), v);
    assert Attribute(Render(at), v) in Rendered(st.found);
    SortMembers(PathLe, Rendered(st.found));
  }

  // -------------------------------------------------------- the builder's checks

  predicate ExactValueOk(v: Json) {
    match v
    case JBool(_) => true
    case JInt(n) => -MAX_JCS_SAFE_INTEGER <= n <= MAX_JCS_SAFE_INTEGER
    case JFloat(f) => f.Finite?
    case JString(s) => Utf8Length(s) <= MAX_STRING_BYTES
    case _ => false
  }

  predicate AttributeOk(event: Json, a: Attribute) {
    a.path != "" && |a.path| <= MAX_PATH_CHARS && ExactValueOk(a.value) && Resolve(event, a.path) == Resolved(a.value)
  }

  ghost predicate StrictlySorted(attributes: seq<Attribute>) {
    forall i :: 0 < i < |attributes| ==> !StringLe(attributes[i].path, attributes[i - 1].path)
  }

  /** Everything the builder demands of a projection's exact attributes. */
  ghost predicate BuilderAccepts(event: Json, r: Subset) {
    && (forall i :: 0 <= i < |r.attributes| ==> AttributeOk(event, r.attributes[i]))
    && StrictlySorted(r.attributes)
    && r.accounting.selected == |r.attributes|
  }

  method CheckExactAttributes(event: Json, r: Subset) returns (ok: bool)
    ensures ok <==> BuilderAccepts(event, r)
  {
    var previous: Option<string> := None;
    for i := 0 to |r.attributes|
      invariant forall k :: 0 <= k < i ==> AttributeOk(event, r.attributes[k])
      invariant forall k :: 0 < k < i ==> !StringLe(r.attributes[k].path, r.attributes[k - 1].path)
      invariant previous == if i == 0 then None else Some(r.attributes[i - 1].path)
    {
      var a := r.attributes[i];
      if a.path == "" || |a.path| > MAX_PATH_CHARS {
        return false;
      }
      if previous.Some? && StringLe(a.path, previous.value) {
        return false;
      }
      previous := Some(a.path);
      var resolution := ResolveExactPointer(event, a.path);
      if !ExactValueOk(a.value) || resolution != Resolved(a.value) {
        return false;
      }
    }
    ok := r.accounting.selected == |r.attributes|;
  }

  /** No check the builder makes on exact attributes can reject what the projector emits. */
  lemma BuilderAcceptsProjector(p: ExactPolicy, event: Json)
    requires event.JObject? && UniqueKeys(event)
    ensures BuilderAccepts(event, SubsetOf(p, event))
  {
    var r := SubsetOf(p, event);
    SubsetAccounting(p, event);
    forall i | 0 <= i < |r.attributes| ensures AttributeOk(event, r.attributes[i]) {
      var at := EveryAttributeIsALeaf(p, event, r.attributes[i]);
      PointerRoundTrip(event, at);
      SplitRender(at);
    }
    PathsIncrease(p, event);
  }

  lemma PathsIncrease(p: ExactPolicy, event: Json)
    requires event.JObject? && UniqueKeys(event)
    ensures StrictlySorted(SubsetOf(p, event).attributes)
  {
    var st := FullScan(p, event);
    var rendered := Rendered(st.found);
    NodeContinues(p, event, EMPTY_SCAN, event, []);
    forall i, k | 0 <= i < k < |rendered| ensures PathOf(rendered[i]) != PathOf(rendered[k]) {
      if rendered[i].path == rendered[k].path { PointersDiffer(event, st.found[i].at, st.found[k].at); }
    }
    UniqueBySort(PathLe, PathOf, rendered);
    PathPreorder();
    SortSorted(PathLe, rendered);
    var sorted := Sort(PathLe, rendered);
    forall i | 0 < i < |sorted| ensures !StringLe(sorted[i].path, sorted[i - 1].path) {
      assert PathLe(sorted[i - 1], sorted[i]) && PathOf(sorted[i - 1]) != PathOf(sorted[i]);
      StringTotalOrder();
    }
  }

  function PathOf(a: Attribute): string { a.path }

  lemma PathPreorder()
    ensures TotalPreorder(PathLe)
  {
    StringTotalOrder();
  }
}
