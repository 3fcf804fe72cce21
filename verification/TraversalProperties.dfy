/** What the bounded traversal guarantees: bounds, priority, and completeness when untruncated. */
module TraversalProperties {
  import opened Ordering
  import opened Wrappers
  import opened JsonPointer
  import opened Traversal

  // --------------------------------------------------------------------- priority

  lemma EntryPreorder(p: PathPolicy)
    ensures TotalPreorder((a: Entry, b: Entry) => EntryLe(p, a, b))
  {
    StringTotalOrder();
  }

  /** At most 160 entries are kept, each of them a candidate, and nothing of lower priority is
      kept while something of higher priority is dropped. */
  lemma PriorityRespected(p: PathPolicy, event: Json)
    ensures var f, sorted := Flatten(p, event), ByPriority(p, Scan(p, event).candidates);
      && |f.entries| <= MAX_LEAVES
      && f.entries <= sorted && multiset(sorted) == multiset(Scan(p, event).candidates)
      && (f.entries != sorted ==> f.truncated && |f.entries| == MAX_LEAVES)
      && forall i, k :: 0 <= i < |f.entries| <= k < |sorted| ==> EntryLe(p, f.entries[i], sorted[k])
  {
    EntryPreorder(p);
    SortSorted((a: Entry, b: Entry) => EntryLe(p, a, b), Scan(p, event).candidates);
  }

  // ----------------------------------------------------------------- completeness

  /** What a visit adds: candidates stay in place, truncation is never forgotten. */
  ghost predicate Grows(st: Flat, st': Flat) {
    st.candidates <= st'.candidates && (st.truncated ==> st'.truncated) && st.scanned <= st'.scanned
  }

  lemma {:induction false} VisitGrows(p: PathPolicy, st: Flat, node: Json, path: string)
    ensures Grows(st, VisitNode(p, st, node, path))
    decreases node, 1, 0
  {
    if st.scanned < MAX_SCALARS_SCANNED && !node.Scalar() {
      var cut := if Overlong(node) then st.(truncated := true) else st;
      KidsGrow(p, cut, node, |Kids(p, node)|, path);
    }
  }

  lemma {:induction false} KidsGrow(p: PathPolicy, st: Flat, owner: Json, n: nat, path: string)
    requires !owner.Scalar() && n <= |Kids(p, owner)|
    ensures Grows(st, VisitKids(p, st, owner, n, path))
    decreases owner, 0, n
  {
    if n > 0 {
      KidsGrow(p, st, owner, n - 1, path);
      var kid := Kids(p, owner)[n-1];
      VisitGrows(p, VisitKids(p, st, owner, n - 1, path), kid.value, DottedChild(path, kid.token));
    }
  }

  lemma KidOf(p: PathPolicy, node: Json, t: Token) returns (i: nat)
    requires !node.Scalar() && !Overlong(node) && Child(node, t).Some?
    ensures i < |Kids(p, node)| && Kids(p, node)[i] == Kid(t, Child(node, t).value)
  {
    match t
    case Key(name) =>
      SortMembers((a: Field, b: Field) => FieldLe(p, a, b), node.fields);
      LookupFound(node.fields, name);
      assert Field(name, Child(node, t).value) in Ordered(p, node.fields);
      i :| 0 <= i < |Ordered(p, node.fields)| && Ordered(p, node.fields)[i] == Field(name, Child(node, t).value);
    case Index(at) => i := at;
  }

  /** The dotted path of a location below a node that is visited under `path`. */
  function PathFrom(path: string, rest: seq<Token>): string
    decreases rest
  {
    if rest == [] then path else PathFrom(DottedChild(path, rest[0]), rest[1..])
  }

  lemma {:induction false} PathFromAppend(path: string, at: seq<Token>, t: Token)
    ensures PathFrom(path, at + [t]) == DottedChild(PathFrom(path, at), t)
    decreases at
  {
    if at != [] {
      PathFromAppend(DottedChild(path, at[0]), at[1..], t);
      assert (at + [t])[1..] == at[1..] + [t];
    } else {
      assert (at + [t])[1..] == [];
    }
  }

  lemma {:induction false} PathFromRoot(at: seq<Token>)
    ensures PathFrom("", at) == DottedPath(at)
    decreases |at|
  {
    if at != [] {
      PathFromRoot(at[..|at|-1]);
      PathFromAppend("", at[..|at|-1], at[|at|-1]);
      assert at == at[..|at|-1] + [at[|at|-1]];
    }
  }

  ghost predicate Keeps(st: Flat, path: string, v: Leaf) { Entry(LeafPath(path), Safe(v)) in st.candidates }

  lemma KeepsGrowing(st: Flat, st': Flat, path: string, v: Leaf)
    requires Keeps(st, path, v) && Grows(st, st')
    ensures Keeps(st', path, v)
  {}

  lemma {:induction false} NodeKeepsLeaf(p: PathPolicy, st: Flat, node: Json, path: string, rest: seq<Token>, v: Leaf)
    requires IsLeaf(node, rest, v) && !VisitNode(p, st, node, path).truncated
    ensures Keeps(VisitNode(p, st, node, path), PathFrom(path, rest), v)
    decreases node, 1, 0
  {
    if !node.Scalar() {
      var cut := if Overlong(node) then st.(truncated := true) else st;
      var n := |Kids(p, node)|;
      KidsGrow(p, cut, node, n, path);
      assert rest != [] && Child(node, rest[0]).Some?;
      var i := KidOf(p, node, rest[0]);
      KidsKeepLeaf(p, st, node, n, path, i, rest[1..], v);
    }
  }

  lemma {:induction false} KidsKeepLeaf(p: PathPolicy, st: Flat, owner: Json, n: nat, path: string, i: nat, rest: seq<Token>, v: Leaf)
    requires !owner.Scalar() && i < n <= |Kids(p, owner)| && IsLeaf(Kids(p, owner)[i].value, rest, v)
    requires !VisitKids(p, st, owner, n, path).truncated
    ensures Keeps(VisitKids(p, st, owner, n, path), PathFrom(DottedChild(path, Kids(p, owner)[i].token), rest), v)
    decreases owner, 0, n
  {
    var kid := Kids(p, owner)[n-1];
    var mid := VisitKids(p, st, owner, n - 1, path);
    VisitGrows(p, mid, kid.value, DottedChild(path, kid.token));
    if i < n - 1 {
      KidsKeepLeaf(p, st, owner, n - 1, path, i, rest, v);
      KeepsGrowing(mid, VisitKids(p, st, owner, n, path), PathFrom(DottedChild(path, Kids(p, owner)[i].token), rest), v);
    } else {
      NodeKeepsLeaf(p, mid, kid.value, DottedChild(path, kid.token), rest, v);
    }
  }

  /** An unset truncation flag means that every scalar leaf of the event is among the entries. */
  lemma UntruncatedMeansComplete(p: PathPolicy, event: Json, at: seq<Token>, v: Leaf)
    requires IsLeaf(event, at, v) && !Flatten(p, event).truncated
    ensures Entry(LeafPath(DottedPath(at)), Safe(v)) in Flatten(p, event).entries
  {
    PathFromRoot(at);
    NodeKeepsLeaf(p, Flat([], 0, false), event, "", at, v);
    SortMembers((a: Entry, b: Entry) => EntryLe(p, a, b), Scan(p, event).candidates);
  }

  /** Every visit that records counts once, and the scan stops at its bound. */
  ghost predicate Counted(st: Flat) { st.scanned == |st.candidates| <= MAX_SCALARS_SCANNED }

  lemma {:induction false} VisitCounted(p: PathPolicy, st: Flat, node: Json, path: string)
    requires Counted(st)
    ensures Counted(VisitNode(p, st, node, path))
    decreases node, 1, 0
  {
    if st.scanned < MAX_SCALARS_SCANNED && !node.Scalar() {
      var cut := if Overlong(node) then st.(truncated := true) else st;
      KidsCounted(p, cut, node, |Kids(p, node)|, path);
    }
  }

  lemma {:induction false} KidsCounted(p: PathPolicy, st: Flat, owner: Json, n: nat, path: string)
    requires !owner.Scalar() && n <= |Kids(p, owner)| && Counted(st)
    ensures Counted(VisitKids(p, st, owner, n, path))
    decreases owner, 0, n
  {
    if n > 0 {
      KidsCounted(p, st, owner, n - 1, path);
      var kid := Kids(p, owner)[n-1];
      VisitCounted(p, VisitKids(p, st, owner, n - 1, path), kid.value, DottedChild(path, kid.token));
    }
  }

  // ------------------------------------------------------------------ provenance

  /** Every candidate stands for a scalar leaf or an empty container of the event. */
  ghost predicate Stands(j: Json, e: Entry, at: seq<Token>) {
    At(j, at).Some? && var v := At(j, at).value;
      (v.Scalar() && e == Entry(LeafPath(DottedPath(at)), Safe(v)))
      || (EmptyContainer(v) && e == Entry(DottedPath(at), JNull))
  }

  ghost predicate Grounded(j: Json, e: Entry) { exists at :: Stands(j, e, at) }

  ghost predicate AllGrounded(j: Json, entries: seq<Entry>) {
    forall e :: e in entries ==> Grounded(j, e)
  }

  lemma GroundedAppend(j: Json, entries: seq<Entry>, e: Entry, at: seq<Token>)
    requires AllGrounded(j, entries) && Stands(j, e, at)
    ensures AllGrounded(j, entries + [e])
  {}

  lemma KidIsChild(p: PathPolicy, node: Json, i: nat)
    requires !node.Scalar() && UniqueKeys(node) && i < |Kids(p, node)|
    ensures Child(node, Kids(p, node)[i].token) == Some(Kids(p, node)[i].value) && UniqueKeys(Kids(p, node)[i].value)
  {
    if node.JObject? {
      var sorted := Ordered(p, node.fields);
      SortMembers((a: Field, b: Field) => FieldLe(p, a, b), node.fields);
      assert sorted[i] in sorted && sorted[i] in node.fields;
      var k :| 0 <= k < |node.fields| && node.fields[k] == sorted[i];
      LookupUnique(node.fields, k);
    }
  }

  lemma {:induction false} NodeGrounded(p: PathPolicy, j: Json, st: Flat, node: Json, at: seq<Token>, path: string)
    requires At(j, at) == Some(node) && UniqueKeys(node) && AllGrounded(j, st.candidates) && path == DottedPath(at)
    ensures AllGrounded(j, VisitNode(p, st, node, path).candidates)
    decreases node, 1, 0
  {
    if st.scanned < MAX_SCALARS_SCANNED {
      if node.Scalar() {
        GroundedAppend(j, st.candidates, Entry(LeafPath(path), Safe(node)), at);
      } else {
        var cut := if Overlong(node) then st.(truncated := true) else st;
        KidsGrounded(p, j, cut, node, |Kids(p, node)|, at, path);
        if EmptyContainer(node) {
          GroundedAppend(j, VisitKids(p, cut, node, |Kids(p, node)|, path).candidates, Entry(path, JNull), at);
        }
      }
    }
  }

  lemma {:induction false} KidsGrounded(p: PathPolicy, j: Json, st: Flat, owner: Json, n: nat, at: seq<Token>, path: string)
    requires !owner.Scalar() && n <= |Kids(p, owner)| && path == DottedPath(at)
    requires At(j, at) == Some(owner) && UniqueKeys(owner) && AllGrounded(j, st.candidates)
    ensures AllGrounded(j, VisitKids(p, st, owner, n, path).candidates)
    decreases owner, 0, n
  {
    if n > 0 {
      KidsGrounded(p, j, st, owner, n - 1, at, path);
      KidLocated(p, j, owner, n - 1, at, path);
      var kid := Kids(p, owner)[n-1];
      NodeGrounded(p, j, VisitKids(p, st, owner, n - 1, path), kid.value, at + [kid.token], DottedChild(path, kid.token));
    }
  }

  lemma KidLocated(p: PathPolicy, j: Json, owner: Json, i: nat, at: seq<Token>, path: string)
    requires !owner.Scalar() && i < |Kids(p, owner)| && path == DottedPath(at)
    requires At(j, at) == Some(owner) && UniqueKeys(owner)
    ensures At(j, at + [Kids(p, owner)[i].token]) == Some(Kids(p, owner)[i].value)
    ensures UniqueKeys(Kids(p, owner)[i].value)
    ensures DottedChild(path, Kids(p, owner)[i].token) == DottedPath(at + [Kids(p, owner)[i].token])
  {
    KidIsChild(p, owner, i);
    AtAppend(j, at, Kids(p, owner)[i].token);
    assert (at + [Kids(p, owner)[i].token])[..|at|] == at;
  }

  /** The traversal invents nothing. */
  lemma EntriesStandForTheEvent(p: PathPolicy, event: Json, e: Entry) returns (at: seq<Token>)
    requires UniqueKeys(event) && e in Flatten(p, event).entries
    ensures Stands(event, e, at)
  {
    NodeGrounded(p, event, Flat([], 0, false), event, [], "");
    SortMembers((a: Entry, b: Entry) => EntryLe(p, a, b), Scan(p, event).candidates);
    assert e in ByPriority(p, Scan(p, event).candidates);
    assert Grounded(event, e);
    at :| Stands(event, e, at);
  }
}
