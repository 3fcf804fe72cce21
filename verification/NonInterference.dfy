/** Two-run non-interference: identifiers, times and secrets do not reach the semantic group. */
module NonInterference {
  import opened Ordering
  import opened Wrappers
  import opened JsonPointer
  import opened Traversal
  import opened SemanticProjection

  // ------------------------------------------------------------- related sequences

  ghost predicate Pairwise<A(!new), B(!new)>(r: (A, B) -> bool, s: seq<A>, t: seq<B>) {
    |s| == |t| && forall i :: 0 <= i < |s| ==> r(s[i], t[i])
  }

  /** The relation respects the order: related elements compare alike. */
  ghost predicate Respects<T(!new)>(r: (T, T) -> bool, le: (T, T) -> bool) {
    forall a, b, c, d :: r(a, c) && r(b, d) ==> le(a, b) == le(c, d)
  }

  lemma PrependPairwise<T(!new)>(r: (T, T) -> bool, x: T, s: seq<T>, y: T, t: seq<T>)
    requires r(x, y) && Pairwise(r, s, t)
    ensures Pairwise(r, [x] + s, [y] + t)
  {}

  lemma {:induction false} InsertPairwise<T(!new)>(r: (T, T) -> bool, le: (T, T) -> bool, x: T, s: seq<T>, y: T, t: seq<T>)
    requires r(x, y) && Pairwise(r, s, t)
    requires forall i :: 0 <= i < |s| ==> le(s[i], x) == le(t[i], y)
    ensures Pairwise(r, Insert(le, x, s), Insert(le, y, t))
  {
    if s != [] && le(s[0], x) {
      InsertPairwise(r, le, x, s[1..], y, t[1..]);
      PrependPairwise(r, s[0], Insert(le, x, s[1..]), t[0], Insert(le, y, t[1..]));
    } else {
      PrependPairwise(r, x, s, y, t);
    }
  }

  lemma CompareAlike<T(!new)>(r: (T, T) -> bool, le: (T, T) -> bool, x: T, s: seq<T>, y: T, t: seq<T>)
    requires Respects(r, le) && r(x, y) && Pairwise(r, s, t)
    ensures forall i :: 0 <= i < |s| ==> le(s[i], x) == le(t[i], y)
  {
    forall i | 0 <= i < |s| ensures le(s[i], x) == le(t[i], y) {
      assert r(s[i], t[i]);
    }
  }

  lemma {:induction false} SortPairwise<T(!new)>(r: (T, T) -> bool, le: (T, T) -> bool, s: seq<T>, t: seq<T>)
    requires Respects(r, le) && Pairwise(r, s, t)
    ensures Pairwise(r, Sort(le, s), Sort(le, t))
  {
    if s != [] {
      var n := |s| - 1;
      SortPairwise(r, le, s[..n], t[..n]);
      CompareAlike(r, le, s[n], Sort(le, s[..n]), t[n], Sort(le, t[..n]));
      InsertPairwise(r, le, s[n], Sort(le, s[..n]), t[n], Sort(le, t[..n]));
    }
  }

  // ---------------------------------------------------------------- related events

  /** What two scalars at one path may differ in: anything where the leaf is dropped, and which
      non-null value stands at a secret or an identifier. */
  predicate LeafAlike(p: PathPolicy, path: string, v: Leaf, w: Leaf) {
    || v == w
    || Dropped(p, path)
    || ((p.isSecret(path) || p.isIdentifier(path)) && v != JNull && w != JNull)
  }

  /** The same keys and lengths, and scalars alike. */
  ghost predicate SameShape(p: PathPolicy, a: Json, b: Json, path: string)
    decreases a
  {
    if a.JObject? then
      && b.JObject? && |a.fields| == |b.fields|
      && (forall i :: 0 <= i < |a.fields| ==> a.fields[i].key == b.fields[i].key)
      && forall i :: 0 <= i < |a.fields| ==>
        SameShape(p, a.fields[i].value, b.fields[i].value, DottedChild(path, Key(a.fields[i].key)))
    else if a.JList? then
      && b.JList? && |a.items| == |b.items|
      && forall i :: 0 <= i < |a.items| ==> SameShape(p, a.items[i], b.items[i], DottedChild(path, Index(i)))
    else
      b.Scalar() && LeafAlike(p, LeafPath(path), a, b)
  }

  ghost predicate EntryAlike(p: PathPolicy, e: Entry, f: Entry) {
    e.path == f.path && LeafAlike(p, e.path, e.value, f.value)
  }

  ghost predicate EntriesAlike(p: PathPolicy, s: seq<Entry>, t: seq<Entry>) {
    |s| == |t| && forall i :: 0 <= i < |s| ==> EntryAlike(p, s[i], t[i])
  }

  ghost predicate FlatAlike(p: PathPolicy, s: Flat, t: Flat) {
    s.scanned == t.scanned && s.truncated == t.truncated && EntriesAlike(p, s.candidates, t.candidates)
  }

  // ------------------------------------------------------------------ the traversal

  lemma SafeAlike(p: PathPolicy, path: string, v: Leaf, w: Leaf)
    requires LeafAlike(p, path, v, w)
    ensures LeafAlike(p, path, Safe(v), Safe(w))
  {}

  lemma RecordAlike(p: PathPolicy, s: Flat, t: Flat, path: string, v: Leaf, w: Leaf)
    requires FlatAlike(p, s, t) && LeafAlike(p, path, v, w)
    ensures FlatAlike(p, Record(s, path, v), Record(t, path, w))
  {}

  ghost predicate FieldAlike(p: PathPolicy, path: string, f: Field, g: Field) {
    f.key == g.key && SameShape(p, f.value, g.value, DottedChild(path, Key(f.key)))
  }

  /** Sorting the fields by key keeps related fields at related places. */
  lemma KidsAlike(p: PathPolicy, a: Json, b: Json, path: string)
    requires SameShape(p, a, b, path) && !a.Scalar()
    ensures !b.Scalar() && |Kids(p, a)| == |Kids(p, b)|
    ensures Overlong(a) == Overlong(b) && EmptyContainer(a) == EmptyContainer(b)
    ensures forall i :: 0 <= i < |Kids(p, a)| ==> Kids(p, a)[i].token == Kids(p, b)[i].token
    ensures forall i :: 0 <= i < |Kids(p, a)| ==>
      SameShape(p, Kids(p, a)[i].value, Kids(p, b)[i].value, DottedChild(path, Kids(p, a)[i].token))
  {
    if a.JObject? {
      var r := (f: Field, g: Field) => FieldAlike(p, path, f, g);
      var le := (f: Field, g: Field) => FieldLe(p, f, g);
      assert Pairwise(r, a.fields, b.fields);
      SortPairwise(r, le, a.fields, b.fields);
      assert Ordered(p, a.fields) == Sort(le, a.fields) && Ordered(p, b.fields) == Sort(le, b.fields);
      forall i | 0 <= i < |Kids(p, a)|
        ensures Kids(p, a)[i].token == Kids(p, b)[i].token
        ensures SameShape(p, Kids(p, a)[i].value, Kids(p, b)[i].value, DottedChild(path, Kids(p, a)[i].token))
      {
        assert r(Ordered(p, a.fields)[i], Ordered(p, b.fields)[i]);
      }
    }
  }

  lemma {:induction false} VisitAlike(p: PathPolicy, s: Flat, t: Flat, a: Json, b: Json, path: string)
    requires FlatAlike(p, s, t) && SameShape(p, a, b, path)
    ensures FlatAlike(p, VisitNode(p, s, a, path), VisitNode(p, t, b, path))
    decreases a, 1, 0
  {
    if s.scanned < MAX_SCALARS_SCANNED {
      if a.Scalar() {
        SafeAlike(p, LeafPath(path), a, b);
        RecordAlike(p, s, t, LeafPath(path), Safe(a), Safe(b));
      } else {
        KidsAlike(p, a, b, path);
        var s' := if Overlong(a) then s.(truncated := true) else s;
        var t' := if Overlong(b) then t.(truncated := true) else t;
        VisitKidsAlike(p, s', t', a, b, |Kids(p, a)|, path);
        if EmptyContainer(a) && path != "" {
          RecordAlike(p, VisitKids(p, s', a, |Kids(p, a)|, path), VisitKids(p, t', b, |Kids(p, b)|, path), path, JNull, JNull);
        }
      }
    }
  }

  lemma {:induction false} VisitKidsAlike(p: PathPolicy, s: Flat, t: Flat, a: Json, b: Json, n: nat, path: string)
    requires FlatAlike(p, s, t) && SameShape(p, a, b, path) && !a.Scalar() && !b.Scalar()
    requires n <= |Kids(p, a)| && n <= |Kids(p, b)|
    ensures FlatAlike(p, VisitKids(p, s, a, n, path), VisitKids(p, t, b, n, path))
    decreases a, 0, n
  {
    if n > 0 {
      VisitKidsAlike(p, s, t, a, b, n - 1, path);
      KidsAlike(p, a, b, path);
      var kid, kid' := Kids(p, a)[n-1], Kids(p, b)[n-1];
      VisitAlike(p, VisitKids(p, s, a, n - 1, path), VisitKids(p, t, b, n - 1, path),
                 kid.value, kid'.value, DottedChild(path, kid.token));
    }
  }

  lemma FlattenAlike(p: PathPolicy, a: Json, b: Json)
    requires SameShape(p, a, b, "")
    ensures EntriesAlike(p, Flatten(p, a).entries, Flatten(p, b).entries)
    ensures Flatten(p, a).truncated == Flatten(p, b).truncated
  {
    VisitAlike(p, Flat([], 0, false), Flat([], 0, false), a, b, "");
    var s, t := Scan(p, a).candidates, Scan(p, b).candidates;
    var r := (e: Entry, f: Entry) => EntryAlike(p, e, f);
    var le := (e: Entry, f: Entry) => EntryLe(p, e, f);
    assert Pairwise(r, s, t);
    SortPairwise(r, le, s, t);
    assert ByPriority(p, s) == Sort(le, s) && ByPriority(p, t) == Sort(le, t);
    assert forall i :: 0 <= i < |s| ==> r(Sort(le, s)[i], Sort(le, t)[i]);
  }

  // ------------------------------------------------------------------ the selection

  lemma TypedNamesAlike(p: PathPolicy, s: seq<Entry>, t: seq<Entry>)
    requires EntriesAlike(p, s, t)
    ensures TypedNames(p, s) == TypedNames(p, t)
  {
    forall i | 0 <= i < |s|
      ensures NamesTyped(p, s[i]) == NamesTyped(p, t[i]) && s[i].path == t[i].path
    {
      assert EntryAlike(p, s[i], t[i]);
    }
  }

  lemma {:induction false} KeepAlike(p: PathPolicy, keep: Entry -> bool, s: seq<Entry>, t: seq<Entry>)
    requires EntriesAlike(p, s, t)
    requires forall e, f :: EntryAlike(p, e, f) ==> keep(e) == keep(f)
    ensures EntriesAlike(p, Keep(keep, s), Keep(keep, t))
  {
    if s != [] {
      var n := |s| - 1;
      KeepAlike(p, keep, s[..n], t[..n]);
      assert EntryAlike(p, s[n], t[n]);
    }
  }

  lemma {:induction false} KeepKeeps(keep: Entry -> bool, s: seq<Entry>)
    ensures forall e :: e in Keep(keep, s) ==> keep(e) && e in s
  {
    if s != [] { KeepKeeps(keep, s[..|s|-1]); }
  }

  /** Everything selected reads the same: a leaf that may differ is redacted. */
  ghost predicate ReadsAlike(p: PathPolicy, s: seq<Entry>, t: seq<Entry>) {
    EntriesAlike(p, s, t) && forall i :: 0 <= i < |s| ==>
      SemanticValue(p, s[i].path, s[i].value) == SemanticValue(p, t[i].path, t[i].value)
  }

  lemma SemanticEntriesAlike(p: PathPolicy, s: seq<Entry>, t: seq<Entry>)
    requires EntriesAlike(p, s, t)
    ensures ReadsAlike(p, SemanticEntries(p, s), SemanticEntries(p, t))
  {
    TypedNamesAlike(p, s, t);
    var typed := TypedNames(p, s);
    var keep := e => Behavioural(p, typed, e);
    KeepAlike(p, keep, s, t);
    KeepKeeps(keep, s);
    var a, b := Keep(keep, s), Keep(keep, t);
    forall i | 0 <= i < |a|
      ensures SemanticValue(p, a[i].path, a[i].value) == SemanticValue(p, b[i].path, b[i].value)
    {
      assert a[i] in a && EntryAlike(p, a[i], b[i]);
    }
  }

  /** A second selection that only looks at paths. */
  lemma {:induction false} KeepByPath(p: PathPolicy, keep: Entry -> bool, s: seq<Entry>, t: seq<Entry>)
    requires ReadsAlike(p, s, t)
    requires forall e: Entry, f: Entry :: e.path == f.path ==> keep(e) == keep(f)
    ensures ReadsAlike(p, Keep(keep, s), Keep(keep, t))
  {
    if s != [] { KeepByPath(p, keep, s[..|s|-1], t[..|t|-1]); }
  }

  lemma FacetAlike(p: PathPolicy, s: seq<Entry>, t: seq<Entry>, role: Role)
    requires ReadsAlike(p, s, t)
    ensures FacetText(p, s, role) == FacetText(p, t, role)
  {
    var keep := (e: Entry) => p.role(e.path) == role;
    KeepByPath(p, keep, s, t);
    assert Fragments(p, Keep(keep, s)) == Fragments(p, Keep(keep, t));
  }

  lemma LeavesAlike(p: PathPolicy, s: seq<Entry>, t: seq<Entry>)
    requires ReadsAlike(p, s, t)
    ensures LeavesOf(p, s) == LeavesOf(p, t)
  {
    KeepByPath(p, (e: Entry) => GroupLeaf(p, e), s, t);
  }

  // -------------------------------------------------------------------- the theorem

  /** Events of the same shape that differ only in what identifies, times or authenticates them
      get the same texts and the same semantic group, under every digest. */
  lemma NonInterference<D>(p: PathPolicy, rs: Relations, digest: Material -> D, relation: string, a: Json, b: Json)
    requires SameShape(p, a, b, "")
    ensures Project(p, rs, digest, relation, Some(a)) == Project(p, rs, digest, relation, Some(b))
  {
    FlattenAlike(p, a, b);
    var s, t := Flatten(p, a).entries, Flatten(p, b).entries;
    SemanticEntriesAlike(p, s, t);
    var x, y := SemanticEntries(p, s), SemanticEntries(p, t);
    FacetAlike(p, x, y, Action);
    FacetAlike(p, x, y, Target);
    FacetAlike(p, x, y, Context);
    FacetAlike(p, x, y, Outcome);
    LeavesAlike(p, x, y);
  }
}
