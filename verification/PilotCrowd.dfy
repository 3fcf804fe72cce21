/** For every policy there is a reconciled pack whose sampling weights miss part of a relation: one
    with more documents than either limit, each in a stratum of its own. */
module PilotCrowd {
  import opened Ordering
  import opened Grouping
  import opened Apportionment
  import opened PilotFrame
  import opened PilotBuilder
  import opened PilotVerifier
  import opened PilotClosure
  import opened PilotTheorem
  import opened PilotWeights

  /** Ever longer names, in ascending order. */
  function Name(n: nat): (s: string)
    ensures |s| == n && forall i :: 0 <= i < n ==> s[i] == 'x'
  {
    seq(n, _ => 'x')
  }

  lemma {:induction false} NamesAscend(a: nat, b: nat)
    requires a < b
    ensures StringLt(Name(a), Name(b))
  {
    if a > 0 {
      NamesAscend(a - 1, b - 1);
      assert Name(a)[1..] == Name(a - 1) && Name(b)[1..] == Name(b - 1);
    }
  }

  function Member(n: nat): Document { Document(Name(n), ["relation"], [Name(n)], 1, "") }

  function Event(n: nat): Occurrence { Occurrence(Name(n), "relation", [Name(n)], "") }

  function Members(n: nat): (r: seq<Document>)
    ensures |r| == n && forall i :: 0 <= i < n ==> r[i] == Member(i + 1)
  {
    if n == 0 then [] else Members(n - 1) + [Member(n)]
  }

  function Events(n: nat): (r: seq<Occurrence>)
    ensures |r| == n && forall i :: 0 <= i < n ==> r[i] == Event(i + 1)
  {
    if n == 0 then [] else Events(n - 1) + [Event(n)]
  }

  /** n documents of one relation, each with a facet of its own and one occurrence. */
  function Crowd(n: nat): Pack { Pack(Members(n), Events(n), n) }

  // --------------------------------------------------------------------- it reconciles

  lemma CrowdAscends(n: nat)
    ensures Ascends(DocumentIds(Members(n))) && Ascends(OccurrenceIds(Events(n)))
  {
    forall i | 0 <= i < n ensures AboveAt(DocumentIds(Members(n)), i) && AboveAt(OccurrenceIds(Events(n)), i) {
      NamesAscend(i, i + 1);
      assert Name(0) == "";
    }
  }

  lemma EventMentions(n: nat, k: nat)
    ensures multiset(Event(n).documents)[Name(k)] == if k == n then 1 else 0
  {
    assert k != n ==> |Name(k)| != |Name(n)|;
  }

  lemma MentionsStep(n: nat, id: string)
    ensures Mentions(Events(n + 1))[id] == Mentions(Events(n))[id] + multiset(Event(n + 1).documents)[id]
  {
    MentionsAppend(Events(n), Event(n + 1));
  }

  lemma {:induction false} CrowdMentions(n: nat, k: nat)
    ensures Mentions(Events(n))[Name(k)] == if 1 <= k <= n then 1 else 0
  {
    if n == 0 {
      assert Events(n) == [];
    } else {
      CrowdMentions(n - 1, k);
      MentionsStep(n - 1, Name(k));
      EventMentions(n, k);
    }
  }

  lemma MemberStructured(n: nat)
    requires n > 0
    ensures Structure(Member(n)).Some?
  {
    assert |Name(n)| == n;
  }

  lemma EventBound(documents: seq<Document>, n: nat)
    requires Member(n) in documents
    ensures BindsOne(documents, Event(n))
  {
    assert Member(n).id == Name(n) && Member(n).relations == [Event(n).relation];
  }

  lemma CrowdReconciled(n: nat)
    ensures Structured(Members(n)) && Reconciled(Crowd(n))
  {
    CrowdAscends(n);
    forall d | d in Members(n) ensures Structure(d).Some? && d.count == Mentions(Events(n))[d.id] {
      var i :| 0 <= i < n && Members(n)[i] == d;
      MemberStructured(i + 1);
      CrowdMentions(n, i + 1);
    }
    forall o | o in Events(n) ensures BindsOne(Members(n), o) {
      var i :| 0 <= i < n && Events(n)[i] == o;
      assert Members(n)[i] in Members(n);
      EventBound(Members(n), i + 1);
    }
  }

  // ------------------------------------------------------------ every document a stratum

  lemma FacetNamesOf(name: string)
    ensures FacetNames([name]) == [name]
  {
    StringTotalOrder();
    var s := set f | f in [name];
    assert s == {name};
    var r := SetToSorted(StringLe, s);
    assert |r| == 1 && r[0] in s;
  }

  lemma CrowdRecord(hash: RankHash, n: nat)
    ensures Structure(Member(n + 1)).Some?
    ensures var r := RecordOf(hash, Member(n + 1)); r.relation == "relation" && r.stratum == Stratum(Bucket(1), [Name(n + 1)])
  {
    FacetNamesOf(Name(n + 1));
    assert |Name(n + 1)| == n + 1;
  }

  function StratumName(s: Stratum): string { if s.facets == [] then "" else s.facets[0] }

  /** Records of the one relation, in n strata with names no longer than n. */
  ghost predicate Spread(records: seq<Record>, n: nat) {
    && Select(records, RelationOf, "relation") == records && |KeySet(records, StratumOf)| == n
    && forall s :: s in KeySet(records, StratumOf) ==> |StratumName(s)| <= n
  }

  lemma SpreadStep(records: seq<Record>, last: Record, n: nat)
    requires Spread(records, n) && last.relation == "relation" && |StratumName(last.stratum)| == n + 1
    ensures Spread(records + [last], n + 1)
  {
    SelectAppend(records, last, RelationOf, "relation");
    KeySetAppend(records, last, StratumOf);
    assert last.stratum !in KeySet(records, StratumOf);
  }

  lemma RecordsAppend(hash: RankHash, front: seq<Document>, last: Document)
    requires Structured(front) && Structured(front + [last]) && Structure(last).Some?
    ensures RecordsOf(hash, front + [last]) == RecordsOf(hash, front) + [RecordOf(hash, last)]
  {
    assert (front + [last])[..|front|] == front;
  }

  lemma CrowdStep(hash: RankHash, n: nat, front: seq<Document>, last: Document)
    requires Structured(front) && Structured(front + [last]) && last == Member(n + 1) && Spread(RecordsOf(hash, front), n)
    ensures Spread(RecordsOf(hash, front + [last]), n + 1)
  {
    CrowdRecord(hash, n);
    RecordsAppend(hash, front, last);
    SpreadStep(RecordsOf(hash, front), RecordOf(hash, last), n);
  }

  lemma {:induction false} CrowdStrata(hash: RankHash, n: nat, documents: seq<Document>)
    requires documents == Members(n) && Structured(documents)
    ensures Spread(RecordsOf(hash, documents), n)
  {
    if n > 0 {
      var front, last := Members(n - 1), Member(n);
      assert documents == front + [last];
      CrowdStrata(hash, n - 1, front);
      CrowdStep(hash, n - 1, front, last);
    }
  }

  // ------------------------------------------------------------------------ the result

  lemma CrowdTables(hash: RankHash, repr: Stratum -> string, policy: Policy, n: nat, t: Tables)
    requires n > 0 && n > policy.censusLimit && n > policy.sampleLimit
    requires Structured(Crowd(n).documents) && AreTables(t, RecordsOf(hash, Crowd(n).documents), policy, repr) && t.Keyed()
    ensures "relation" in t.quotas && !Census(policy, t.populations["relation"])
    ensures |t.populations["relation"]| > policy.sampleLimit
  {
    var records := RecordsOf(hash, Crowd(n).documents);
    CrowdStrata(hash, n, Members(n));
    CrowdRecord(hash, 0);
    KeySetMembers(records, RelationOf);
    assert RelationOf(records[0]) in KeySet(records, RelationOf);
    PopulationEntry(t.populations, records, "relation");
    PopulationCounts(records, "relation");
    PopulationTotal(records, "relation");
    assert |t.populations["relation"]| == |t.populations["relation"].Keys|;
  }

  /** Above both limits the weights of the crowd do not add up to its documents. */
  lemma CrowdMissed(hash: RankHash, repr: Stratum -> string, policy: Policy, n: nat, t: Tables)
    requires n > 0 && n > policy.censusLimit && n > policy.sampleLimit && Structured(Crowd(n).documents)
    requires AreTables(t, RecordsOf(hash, Crowd(n).documents), policy, repr) && t.Keyed()
    ensures Reconciled(Crowd(n)) && "relation" in t.quotas
    ensures RelationWeight(SampleFor(Crowd(n), policy, t).selection, "relation") != n as real
  {
    CrowdReconciled(n);
    CrowdTables(hash, repr, policy, n, t);
    CrowdStrata(hash, n, Members(n));
    WeightsSumToPopulation(Crowd(n), policy, hash, repr, t, "relation");
  }
}
