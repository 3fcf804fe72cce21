/** The verifier of a pilot: internal consistency, agreement with the source pack, and a replay
    of the selection from the bound policy. */
module PilotVerifier {
  import opened Ordering
  import opened Grouping
  import opened Apportionment
  import opened PilotFrame
  import opened PilotBuilder

  // ---------------------------------------------------------------- consistency

  predicate AboveAt(ids: seq<string>, i: nat)
    requires i < |ids|
  {
    StringLt(if i == 0 then "" else ids[i-1], ids[i])
  }

  /** Every identity is above its predecessor, the first above the empty string. */
  ghost predicate Ascends(ids: seq<string>) {
    forall i :: 0 <= i < |ids| ==> AboveAt(ids, i)
  }

  function DocumentIds(documents: seq<Document>): seq<string> {
    seq(|documents|, i requires 0 <= i < |documents| => documents[i].id)
  }

  function OccurrenceIds(occurrences: seq<Occurrence>): seq<string> {
    seq(|occurrences|, i requires 0 <= i < |occurrences| => occurrences[i].id)
  }

  function RowIds(rows: seq<SelectionRow>): seq<string> {
    seq(|rows|, i requires 0 <= i < |rows| => rows[i].id)
  }

  /** Two counters agree as dictionaries. */
  ghost predicate CountsAgree(documents: seq<Document>, seen: multiset<string>) {
    && (forall d <- documents :: d.id in seen && seen[d.id] == d.count)
    && forall id <- seen :: id in DocumentIds(documents)
  }

  ghost predicate Consistent(s: Sample) {
    && Ascends(DocumentIds(s.documents))
    && RowIds(s.selection) == DocumentIds(s.documents)
    && Ascends(OccurrenceIds(s.occurrences))
    && CountsAgree(s.documents, Mentions(s.occurrences))
    && s.selectedDocuments == |s.documents| && s.selectedOccurrences == |s.occurrences|
  }

  // ------------------------------------------------------------- the source pack

  ghost predicate DocumentsMatch(s: Sample, pack: Pack) {
    && (forall d, e :: d in pack.documents && e in s.documents && d.id == e.id ==> d == e)
    && forall e <- s.documents :: e.id in DocumentIds(pack.documents)
  }

  ghost predicate OccurrencesMatch(s: Sample, pack: Pack) {
    && (forall o <- pack.occurrences ::
          Touches(o, set d | d in DocumentIds(s.documents)) ==> o.id in OccurrenceIds(s.occurrences))
    && (forall o, e :: o in pack.occurrences && e in s.occurrences && o.id == e.id ==> o == e)
    && forall e <- s.occurrences :: e.id in OccurrenceIds(pack.occurrences)
  }

  // ------------------------------------------------------------------- the replay

  /** The verifier looks the selection reason up under the relation that the row names. */
  predicate NamedCensus(t: Tables, policy: Policy, relation: string) {
    relation in t.populations ==> Census(policy, t.populations[relation])
  }

  predicate RowMatches(row: SelectionRow, expected: SelectionRow, t: Tables, policy: Policy) {
    && row.rank == expected.rank && row.stratum == expected.stratum
    && row.population == expected.population && row.quota == expected.quota
    && row.census == NamedCensus(t, policy, row.relation)
    && row.probability == (expected.quota, expected.population) && row.weight == (expected.population, expected.quota)
  }

  ghost predicate Replays(s: Sample, policy: Policy, t: Tables)
    requires t.Keyed()
  {
    var expected := SelectedOf(t, policy);
    && (forall row <- s.selection :: row.id in expected && RowMatches(row, expected[row.id].row, t, policy))
    && forall id :: id in expected ==> id in RowIds(s.selection)
  }

  ghost predicate Accepts(s: Sample, pack: Pack, policy: Policy, t: Tables)
    requires t.Keyed()
  {
    && Consistent(s) && DocumentsMatch(s, pack) && OccurrencesMatch(s, pack) && Replays(s, policy, t)
    && s.sourceDocuments == |pack.documents| && s.sourceOccurrences == pack.sourceRecords
  }

  // --------------------------------------------------------------------- the loops

  method CheckAscends(ids: seq<string>) returns (ok: bool)
    ensures ok <==> Ascends(ids)
  {
    var prior := "";
    for i := 0 to |ids|
      invariant prior == if i == 0 then "" else ids[i-1]
      invariant forall k :: 0 <= k < i ==> AboveAt(ids, k)
    {
      if StringLe(ids[i], prior) {
        assert !AboveAt(ids, i);
        return false;
      }
      prior := ids[i];
    }
    ok := true;
  }

  method CountMentions(occurrences: seq<Occurrence>) returns (seen: multiset<string>)
    ensures seen == Mentions(occurrences)
  {
    seen := multiset{};
    for i := 0 to |occurrences|
      invariant seen == Mentions(occurrences[..i])
    {
      PrefixStep(occurrences, i);
      seen := CountDocuments(seen, occurrences[i].documents);
    }
    TakeAll(occurrences);
  }

  method CheckCounts(documents: seq<Document>, seen: multiset<string>) returns (ok: bool)
    ensures ok <==> CountsAgree(documents, seen)
  {
    for i := 0 to |documents|
      invariant forall k :: 0 <= k < i ==> documents[k].id in seen && seen[documents[k].id] == documents[k].count
    {
      if documents[i].id !in seen || seen[documents[i].id] != documents[i].count {
        assert documents[i] in documents;
        return false;
      }
    }
    ok := forall id <- seen :: id in DocumentIds(documents);
  }

  method CheckConsistent(s: Sample) returns (ok: bool)
    ensures ok <==> Consistent(s)
  {
    ok := CheckAscends(DocumentIds(s.documents));
    if !ok || RowIds(s.selection) != DocumentIds(s.documents) {
      return false;
    }
    ok := CheckAscends(OccurrenceIds(s.occurrences));
    if !ok {
      return;
    }
    var seen := CountMentions(s.occurrences);
    ok := CheckCounts(s.documents, seen);
    ok := ok && s.selectedDocuments == |s.documents| && s.selectedOccurrences == |s.occurrences|;
  }

  method CheckDocuments(s: Sample, pack: Pack) returns (ok: bool)
    ensures ok <==> DocumentsMatch(s, pack)
  {
    for i := 0 to |pack.documents|
      invariant forall k, e :: 0 <= k < i && e in s.documents && pack.documents[k].id == e.id ==> pack.documents[k] == e
    {
      if exists e <- s.documents :: pack.documents[i].id == e.id && pack.documents[i] != e {
        assert pack.documents[i] in pack.documents;
        return false;
      }
    }
    ok := forall e <- s.documents :: e.id in DocumentIds(pack.documents);
  }

  method CheckOccurrences(s: Sample, pack: Pack) returns (ok: bool)
    ensures ok <==> OccurrencesMatch(s, pack)
  {
    var ids := set d | d in DocumentIds(s.documents);
    for i := 0 to |pack.occurrences|
      invariant forall k :: 0 <= k < i && Touches(pack.occurrences[k], ids) ==> pack.occurrences[k].id in OccurrenceIds(s.occurrences)
      invariant forall k, e :: 0 <= k < i && e in s.occurrences && pack.occurrences[k].id == e.id ==> pack.occurrences[k] == e
    {
      var o := pack.occurrences[i];
      assert o in pack.occurrences;
      if Touches(o, ids) && o.id !in OccurrenceIds(s.occurrences) {
        return false;
      }
      if exists e <- s.occurrences :: o.id == e.id && o != e {
        return false;
      }
    }
    ok := forall e <- s.occurrences :: e.id in OccurrenceIds(pack.occurrences);
  }

  method CheckReplay(s: Sample, policy: Policy, t: Tables) returns (ok: bool)
    requires t.Keyed()
    ensures ok <==> Replays(s, policy, t)
  {
    var relations := SortedNames(t.quotas.Keys);
    var expected, _ := SelectRelations(t, policy, relations);
    ProgressSelects(t, policy, relations);
    ok := CheckRows(s.selection, expected, policy, t);
  }

  method CheckRows(rows: seq<SelectionRow>, expected: map<string, Chosen>, policy: Policy, t: Tables) returns (ok: bool)
    ensures ok <==>
      && (forall row <- rows :: row.id in expected && RowMatches(row, expected[row.id].row, t, policy))
      && forall id :: id in expected ==> id in RowIds(rows)
  {
    for i := 0 to |rows|
      invariant forall k :: 0 <= k < i ==> rows[k].id in expected && RowMatches(rows[k], expected[rows[k].id].row, t, policy)
    {
      if rows[i].id !in expected || !RowMatches(rows[i], expected[rows[i].id].row, t, policy) {
        assert rows[i] in rows;
        return false;
      }
    }
    ok := forall id <- expected :: id in RowIds(rows);
  }

  /** The verifier with the source pack mounted. */
  method VerifyPilot(s: Sample, pack: Pack, policy: Policy, hash: RankHash, repr: Stratum -> string) returns (ok: bool, t: Tables)
    requires Injective(repr)
    ensures Structured(pack.documents) ==> AreTables(t, RecordsOf(hash, pack.documents), policy, repr) && t.Keyed()
    ensures ok <==> Structured(pack.documents) && t.Keyed() && Accepts(s, pack, policy, t)
  {
    var framed, records, populations := ReadFrame(pack.documents, hash);
    if !framed {
      return false, Tables(map[], map[], map[]);
    }
    t := BuildTables(records, populations, policy, repr);
    var consistent := CheckConsistent(s);
    var documents := CheckDocuments(s, pack);
    var occurrences := CheckOccurrences(s, pack);
    var replays := CheckReplay(s, policy, t);
    ok := consistent && documents && occurrences && replays
          && s.sourceDocuments == |pack.documents| && s.sourceOccurrences == pack.sourceRecords;
  }
}
