/** Verifying a projection pack: sorted streams reconciled against the declared counts, and a
    replay of every row when the sources are mounted. */
module PackVerifier {
  import opened Ordering
  import opened Wrappers
  import opened Grouping
  import opened JsonPointer
  import opened PackTypes

  // ------------------------------------------------------------------ the streams

  ghost predicate DocumentsOk(documents: seq<PackDocument>) {
    Increasing(DocumentIds(documents)) && forall d <- documents :: DocumentOk(d)
  }

  predicate DocumentOk(d: PackDocument) { Identity("doc-", d.id) && d.count >= 1 }

  /** _verify_source_pointer: schema, snapshot, profile, record and an exact Parquet row of the relation. */
  predicate PointerOk(env: Environment, p: Pointer, relation: string) {
    && p.schema == POINTER_SCHEMA && p.snapshot == env.snapshot && p.profile == env.profile
    && Text(p.record) && HexDigest(p.digest)
    && p.locator.kind == PARQUET_ROW && p.locator.relation == JString(relation) && HexDigest(p.locator.file)
    && Ordinal(p.locator.group) && Ordinal(p.locator.ordinal)
  }

  predicate OccurrenceOk(env: Environment, o: PackOccurrence) {
    && Identity("occ-", o.id) && o.relation != "" && PointerOk(env, o.pointer, o.relation)
    && o.id == OccurrenceId(env, o.pointer)
    && Supports(o.pointer.supports) && "" !in o.reasons
    && (if NamesDocument(o.disposition) then |o.documents| == 1 else o.documents == [])
  }

  function LocatorOf(o: PackOccurrence): Locator { o.pointer.locator }

  /** The streamed occurrences: sorted, well formed, one per source row. */
  ghost predicate OccurrencesOk(env: Environment, occurrences: seq<PackOccurrence>) {
    && Increasing(OccurrenceIds(occurrences))
    && (forall o <- occurrences :: OccurrenceOk(env, o))
    && UniqueBy(LocatorOf, occurrences)
  }

  /** Both joins are empty: no unknown document, no miscounted one. */
  ghost predicate JoinsOk(documents: seq<PackDocument>, mentions: multiset<string>) {
    && (forall id <- mentions :: id in DocumentIds(documents))
    && forall d <- documents :: d.count == mentions[d.id]
  }

  // ----------------------------------------------------------------- the coverage

  ghost predicate RelationsOk(rows: seq<RelationRow>, c: Counters) {
    && (forall i, j :: 0 <= i < j < |rows| ==> rows[i].relation != rows[j].relation)
    && (forall row <- rows :: row == RelationRowOf(c, row.relation))
    && forall relation <- c.inputs :: relation in RelationNames(rows)
  }

  function RelationNames(rows: seq<RelationRow>): set<string> {
    set row | row in rows :: row.relation
  }

  ghost predicate CoverageOk(v: Coverage, documents: seq<PackDocument>, occurrences: seq<PackOccurrence>, c: Counters) {
    && RelationsOk(v.relations, c)
    && v.records == v.dispositioned == v.pointers == v.resolved == |occurrences|
    && v.byDisposition == c.byDisposition && v.reasons == c.reasons
    && v.documents == |documents| && v.searchable == |TallyOf(documents, SearchableKey)| && v.byKind == TallyOf(documents, KindKey)
  }

  ghost predicate Reconciles(env: Environment, pack: Pack) {
    && DocumentsOk(pack.documents) && OccurrencesOk(env, pack.occurrences)
    && JoinsOk(pack.documents, TallyOf(pack.occurrences, MentionKeys))
    && CoverageOk(pack.coverage, pack.documents, pack.occurrences, Count(pack.occurrences))
  }

  // ------------------------------------------------------------------- the replay

  function RowRelation(row: InputRow): multiset<string> { multiset{row.relation} }

  predicate Replays(env: Environment, pack: Pack, row: InputRow) {
    match Normalise(env, row)
    case Invalid(_) => false
    case Normal(n) =>
      && n.occurrence in pack.occurrences
      && (n.document.Some? ==> exists d <- pack.documents :: d.id == n.document.value.0 && d.body == n.document.value.1)
  }

  ghost predicate ReplayOk(env: Environment, pack: Pack, declared: set<string>, rows: seq<InputRow>) {
    && declared == RelationNames(pack.coverage.relations)
    && (forall row <- rows :: Replays(env, pack, row))
    && TallyOf(rows, RowRelation) == TallyOf(pack.occurrences, RelationKey)
  }

  // --------------------------------------------------------------------- the loops

  method CheckDocuments(documents: seq<PackDocument>) returns (ok: bool)
    ensures ok <==> DocumentsOk(documents)
  {
    var ids := DocumentIds(documents);
    for i := 0 to |documents|
      invariant forall k :: 0 < k < i ==> StringLt(ids[k-1], ids[k])
      invariant forall k :: 0 <= k < i ==> DocumentOk(documents[k])
    {
      if !DocumentOk(documents[i]) {
        assert documents[i] in documents;
        return false;
      }
      if i > 0 && StringLe(documents[i].id, documents[i-1].id) {
        assert !StringLt(ids[i-1], ids[i]);
        return false;
      }
    }
    ok := true;
  }

  ghost predicate StreamOk(env: Environment, occurrences: seq<PackOccurrence>, n: nat)
    requires n <= |occurrences|
  {
    && (forall k :: 0 < k < n ==> StringLt(occurrences[k-1].id, occurrences[k].id))
    && (forall k :: 0 <= k < n ==> OccurrenceOk(env, occurrences[k]))
    && forall i, j :: 0 <= i < j < n ==> LocatorOf(occurrences[i]) != LocatorOf(occurrences[j])
  }

  lemma StreamIsOk(env: Environment, occurrences: seq<PackOccurrence>)
    ensures StreamOk(env, occurrences, |occurrences|) <==> OccurrencesOk(env, occurrences)
  {
    var ids := OccurrenceIds(occurrences);
    if OccurrencesOk(env, occurrences) {
      forall k | 0 < k < |occurrences| ensures StringLt(occurrences[k-1].id, occurrences[k].id) {
        assert StringLt(ids[k-1], ids[k]);
      }
    }
  }

  lemma StreamBreaks(env: Environment, occurrences: seq<PackOccurrence>, n: nat)
    requires n < |occurrences| && !StreamOk(env, occurrences, n + 1)
    ensures !OccurrencesOk(env, occurrences)
  {
    StreamIsOk(env, occurrences);
  }

  ghost predicate Seen(locators: set<Locator>, occurrences: seq<PackOccurrence>, n: nat)
    requires n <= |occurrences|
  {
    forall l :: l in locators <==> exists k :: 0 <= k < n && LocatorOf(occurrences[k]) == l
  }

  predicate Fits(env: Environment, occurrences: seq<PackOccurrence>, n: nat, locators: set<Locator>)
    requires n < |occurrences|
  {
    && OccurrenceOk(env, occurrences[n]) && occurrences[n].pointer.locator !in locators
    && (n > 0 ==> !StringLe(occurrences[n].id, occurrences[n-1].id))
  }

  lemma StreamStep(env: Environment, occurrences: seq<PackOccurrence>, n: nat, locators: set<Locator>)
    requires n < |occurrences| && StreamOk(env, occurrences, n) && Seen(locators, occurrences, n)
    ensures StreamOk(env, occurrences, n + 1) <==> Fits(env, occurrences, n, locators)
  {
    if occurrences[n].pointer.locator in locators {
      var k :| 0 <= k < n && LocatorOf(occurrences[k]) == LocatorOf(occurrences[n]);
    }
  }

  lemma SeenStep(occurrences: seq<PackOccurrence>, n: nat, locators: set<Locator>)
    requires n < |occurrences| && Seen(locators, occurrences, n)
    ensures Seen(locators + {LocatorOf(occurrences[n])}, occurrences, n + 1)
  {}

  method CheckOccurrences(env: Environment, occurrences: seq<PackOccurrence>) returns (ok: bool)
    ensures ok <==> OccurrencesOk(env, occurrences)
  {
    var locators: set<Locator> := {};
    for i := 0 to |occurrences|
      invariant StreamOk(env, occurrences, i) && Seen(locators, occurrences, i)
    {
      StreamStep(env, occurrences, i, locators);
      if !Fits(env, occurrences, i, locators) {
        StreamBreaks(env, occurrences, i);
        return false;
      }
      SeenStep(occurrences, i, locators);
      locators := locators + {occurrences[i].pointer.locator};
    }
    StreamIsOk(env, occurrences);
    ok := true;
  }

  method CheckJoins(documents: seq<PackDocument>, mentions: multiset<string>) returns (ok: bool)
    ensures ok <==> JoinsOk(documents, mentions)
  {
    ok := (forall id <- mentions :: id in DocumentIds(documents)) && forall d <- documents :: d.count == mentions[d.id];
  }

  method CheckRelations(rows: seq<RelationRow>, c: Counters) returns (ok: bool)
    ensures ok <==> RelationsOk(rows, c)
  {
    var names: set<string> := {};
    for i := 0 to |rows|
      invariant forall j, k :: 0 <= j < k < i ==> rows[j].relation != rows[k].relation
      invariant forall k :: 0 <= k < i ==> rows[k] == RelationRowOf(c, rows[k].relation)
      invariant forall x :: x in names <==> exists k :: 0 <= k < i && rows[k].relation == x
    {
      if rows[i].relation in names || rows[i] != RelationRowOf(c, rows[i].relation) {
        assert rows[i] in rows;
        return false;
      }
      names := names + {rows[i].relation};
    }
    ok := forall relation <- c.inputs :: relation in RelationNames(rows);
  }

  /** One pass over a stream, adding up what each element contributes. */
  method Tally<T, K(==)>(s: seq<T>, keysOf: T -> multiset<K>) returns (counter: multiset<K>)
    ensures counter == TallyOf(s, keysOf)
  {
    counter := multiset{};
    for i := 0 to |s|
      invariant counter == TallyOf(s[..i], keysOf)
    {
      PrefixStep(s, i);
      counter := counter + keysOf(s[i]);
    }
    TakeAll(s);
  }

  method CountAll(occurrences: seq<PackOccurrence>) returns (c: Counters)
    ensures c == Count(occurrences)
  {
    var inputs := Tally(occurrences, RelationKey);
    var byRelation := Tally(occurrences, RelationDispositionKey);
    var byDisposition := Tally(occurrences, DispositionKey);
    var reasons := Tally(occurrences, ReasonKeys);
    c := Counters(inputs, byRelation, byDisposition, reasons);
  }

  method CheckCoverage(v: Coverage, documents: seq<PackDocument>, occurrences: seq<PackOccurrence>) returns (ok: bool)
    ensures ok <==> CoverageOk(v, documents, occurrences, Count(occurrences))
  {
    var c := CountAll(occurrences);
    ok := CheckRelations(v.relations, c);
    if !ok {
      return;
    }
    var searchable := Tally(documents, SearchableKey);
    var kinds := Tally(documents, KindKey);
    ok := v.records == v.dispositioned == v.pointers == v.resolved == |occurrences|
          && v.byDisposition == c.byDisposition && v.reasons == c.reasons
          && v.documents == |documents| && v.searchable == |searchable| && v.byKind == kinds;
  }

  method CheckReplay(env: Environment, pack: Pack, declared: set<string>, rows: seq<InputRow>) returns (ok: bool)
    ensures ok <==> ReplayOk(env, pack, declared, rows)
  {
    if declared != RelationNames(pack.coverage.relations) {
      return false;
    }
    for i := 0 to |rows|
      invariant forall k :: 0 <= k < i ==> Replays(env, pack, rows[k])
    {
      if !Replays(env, pack, rows[i]) {
        assert rows[i] in rows;
        return false;
      }
    }
    var mounted := Tally(rows, RowRelation);
    var packed := Tally(pack.occurrences, RelationKey);
    ok := mounted == packed;
  }

  /** The verifier; `mounted` are the source relations and their rows, if present. */
  method VerifyPack(env: Environment, pack: Pack, mounted: Option<(set<string>, seq<InputRow>)>) returns (ok: bool)
    ensures ok <==> Reconciles(env, pack) && (mounted.Some? ==> ReplayOk(env, pack, mounted.value.0, mounted.value.1))
  {
    ok := CheckDocuments(pack.documents);
    if !ok {
      return;
    }
    ok := CheckOccurrences(env, pack.occurrences);
    if !ok {
      return;
    }
    var mentions := Tally(pack.occurrences, MentionKeys);
    ok := CheckJoins(pack.documents, mentions);
    if !ok {
      return;
    }
    if mounted.Some? {
      ok := CheckReplay(env, pack, mounted.value.0, mounted.value.1);
      if !ok {
        return;
      }
    }
    ok := CheckCoverage(pack.coverage, pack.documents, pack.occurrences);
  }
}
