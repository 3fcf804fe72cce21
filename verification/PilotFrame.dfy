/** The sampling frame of a pilot: structural strata, their populations and their quotas. */
module PilotFrame {
  import opened Ordering
  import opened Wrappers
  import opened Grouping
  import opened Apportionment
  import opened JsonPointer

  /** A semantic document as the pilot reads it; `body` stands for all other canonical bytes. */
  datatype Document = Document(id: string, relations: seq<string>, facets: seq<string>, count: int, body: string)

  datatype Occurrence = Occurrence(id: string, relation: string, documents: seq<string>, body: string)

  datatype Pack = Pack(documents: seq<Document>, occurrences: seq<Occurrence>, sourceRecords: nat)

  datatype Policy = Policy(censusLimit: nat, sampleLimit: nat)

  /** A document with its place in the frame; `rank` is the digest it is drawn by. */
  datatype Record = Record(relation: string, stratum: Stratum, rank: string, document: Document)

  type RankHash = (string, Stratum, string) -> string

  // ------------------------------------------------------------------- structure

  ghost predicate PowerOfTwo(n: nat) { n == 1 || (n > 0 && n % 2 == 0 && PowerOfTwo(n / 2)) }

  /** 1 << (count.bit_length() - 1) */
  function BucketLower(count: int): (lower: nat)
    requires count >= 1
    ensures lower <= count <= 2 * lower - 1 && PowerOfTwo(lower)
  {
    if count == 1 then 1 else 2 * BucketLower(count / 2)
  }

  function Bucket(count: int): string
    requires count >= 1
  {
    Decimal(BucketLower(count)) + "-" + Decimal(2 * BucketLower(count) - 1)
  }

  function FacetNames(facets: seq<string>): seq<string> {
    StringTotalOrder();
    SetToSorted(StringLe, set f | f in facets)
  }

  /** The relation and stratum of a document, if its structural fields are in order. */
  function Structure(d: Document): Option<(string, Stratum)> {
    if |d.relations| != 1 || d.relations[0] == "" || "" in d.facets || d.count < 1 then None
    else Some((d.relations[0], Stratum(Bucket(d.count), FacetNames(d.facets))))
  }

  ghost predicate Structured(documents: seq<Document>) {
    forall d <- documents :: Structure(d).Some?
  }

  function RecordOf(hash: RankHash, d: Document): Record
    requires Structure(d).Some?
  {
    var (relation, stratum) := Structure(d).value;
    Record(relation, stratum, hash(relation, stratum, d.id), d)
  }

  function RecordsOf(hash: RankHash, documents: seq<Document>): (r: seq<Record>)
    requires Structured(documents)
    ensures |r| == |documents| && forall i :: 0 <= i < |r| ==> r[i] == RecordOf(hash, documents[i])
  {
    if documents == [] then []
    else
      var n := |documents| - 1;
      RecordsOf(hash, documents[..n]) + [RecordOf(hash, documents[n])]
  }

  // ----------------------------------------------------------------- populations

  function RelationOf(r: Record): string { r.relation }

  function StratumOf(r: Record): Stratum { r.stratum }

  function KeyOf(r: Record): (string, Stratum) { (r.relation, r.stratum) }

  function Increment(n: nat, r: Record): nat { n + 1 }

  /** populations[relation][stratum] += 1, for one relation's table */
  function Tally(p: Populations, r: Record): Populations { Filed(p, r, StratumOf, 0, Increment) }

  function PopulationOf(records: seq<Record>, relation: string): Populations {
    Fold(map[], Tally, Select(records, RelationOf, relation))
  }

  lemma {:induction false} FoldCounts(rows: seq<Record>)
    ensures Fold(0, Increment, rows) == |rows|
  {
    if rows != [] { FoldCounts(rows[..|rows|-1]); }
  }

  lemma TallyTable(rows: seq<Record>)
    ensures IsTable(Fold(map[], Tally, rows), rows, StratumOf, 0, Increment)
  {
    FiledAll(Tally, rows, StratumOf, 0, Increment);
  }

  lemma {:induction false} SelectTwice(records: seq<Record>, relation: string, stratum: Stratum)
    ensures Select(Select(records, RelationOf, relation), StratumOf, stratum) == Select(records, KeyOf, (relation, stratum))
  {
    if records != [] {
      var n := |records| - 1;
      SelectTwice(records[..n], relation, stratum);
      var front := Select(records[..n], RelationOf, relation);
      if records[n].relation == relation {
        assert Select(records, RelationOf, relation) == front + [records[n]];
        SelectAppend(front, records[n], StratumOf, stratum);
      } else {
        assert Select(records, RelationOf, relation) == front;
      }
    }
  }

  /** A stratum's population is the number of its records, and exactly the strata met occur. */
  lemma PopulationCounts(records: seq<Record>, relation: string)
    ensures var p := PopulationOf(records, relation);
      && p.Keys == KeySet(Select(records, RelationOf, relation), StratumOf)
      && forall s :: s in p ==> p[s] == |Select(records, KeyOf, (relation, s))| > 0
  {
    var rows := Select(records, RelationOf, relation);
    TallyTable(rows);
    KeySetMembers(rows, StratumOf);
    var p := PopulationOf(records, relation);
    forall s | s in p ensures p[s] == |Select(records, KeyOf, (relation, s))| > 0 {
      FoldCounts(Select(rows, StratumOf, s));
      SelectTwice(records, relation, s);
    }
  }

  lemma {:induction false} TotalGroups(p: Populations, rows: seq<Record>, keys: seq<Stratum>)
    requires forall s <- keys :: s in p && p[s] == |Select(rows, StratumOf, s)|
    ensures Total(p, keys) == GroupedWeight(keys, rows, StratumOf, (r: Record) => 1)
  {
    if keys != [] {
      TotalGroups(p, rows, keys[1..]);
      CountIsLength(Select(rows, StratumOf, keys[0]));
    }
  }

  /** The strata of a relation account for all of its records. */
  lemma PopulationTotal(records: seq<Record>, relation: string)
    ensures var p := PopulationOf(records, relation); Total(p, Keys(p.Keys)) == |Select(records, RelationOf, relation)|
  {
    var p := PopulationOf(records, relation);
    var rows := Select(records, RelationOf, relation);
    PopulationCounts(records, relation);
    KeySetMembers(rows, StratumOf);
    forall s | s in p ensures p[s] == |Select(rows, StratumOf, s)| {
      SelectTwice(records, relation, s);
    }
    TotalGroups(p, rows, Keys(p.Keys));
    Conservation(Keys(p.Keys), rows, StratumOf, (r: Record) => 1);
    CountIsLength(rows);
  }

  // ---------------------------------------------------------------------- quotas

  function Budget(policy: Policy, total: nat): nat {
    if policy.sampleLimit <= total then policy.sampleLimit else total
  }

  lemma {:induction false} TotalNonNegative(p: Populations, keys: seq<Stratum>)
    requires forall k <- keys :: k in p
    ensures Total(p, keys) >= 0
  {
    if keys != [] { TotalNonNegative(p, keys[1..]); }
  }

  function Size(p: Populations): nat {
    TotalNonNegative(p, Keys(p.Keys));
    Total(p, Keys(p.Keys))
  }

  predicate Census(policy: Policy, p: Populations) { Size(p) <= policy.censusLimit }

  ghost predicate IsQuota(p: Populations, policy: Policy, repr: Stratum -> string, q: Quotas) {
    if Census(policy, p) then q == p else IsApportionment(p, Budget(policy, Size(p)), repr, q)
  }

  ghost predicate QuotasHold(records: seq<Record>, policy: Policy, repr: Stratum -> string, quotas: map<string, Quotas>) {
    forall relation :: relation in quotas ==> IsQuota(PopulationOf(records, relation), policy, repr, quotas[relation])
  }

  ghost predicate AreQuotas(records: seq<Record>, policy: Policy, repr: Stratum -> string, quotas: map<string, Quotas>) {
    quotas.Keys == KeySet(records, RelationOf) && QuotasHold(records, policy, repr, quotas)
  }

  lemma QuotaBounds(p: Populations, policy: Policy, repr: Stratum -> string, q: Quotas)
    requires IsQuota(p, policy, repr, q)
    ensures q.Keys == p.Keys && forall s :: s in p ==> 0 <= q[s] <= p[s]
  {}

  /** Build and replay apportion alike: the quotas are determined by the records. */
  lemma QuotasUnique(records: seq<Record>, policy: Policy, repr: Stratum -> string, a: map<string, Quotas>, b: map<string, Quotas>)
    requires Injective(repr) && AreQuotas(records, policy, repr, a) && AreQuotas(records, policy, repr, b)
    ensures a == b
  {
    forall relation | relation in a ensures a[relation] == b[relation] {
      var p := PopulationOf(records, relation);
      if !Census(policy, p) {
        ApportionmentUnique(p, Budget(policy, Size(p)), repr, a[relation], b[relation]);
      }
    }
  }

  // ------------------------------------------------------------------- the loops

  type PopulationTable = map<string, Populations>

  ghost predicate ArePopulations(populations: PopulationTable, records: seq<Record>) {
    IsTable(populations, records, RelationOf, map[], Tally)
  }

  ghost predicate AreStrata(byStratum: map<(string, Stratum), seq<Record>>, records: seq<Record>) {
    IsTable(byStratum, records, KeyOf, [], (g: seq<Record>, r: Record) => g + [r])
  }

  method ReadFrame(documents: seq<Document>, hash: RankHash)
    returns (ok: bool, records: seq<Record>, populations: PopulationTable)
    ensures ok <==> Structured(documents)
    ensures ok ==> records == RecordsOf(hash, documents) && ArePopulations(populations, records)
  {
    ok, records, populations := true, [], map[];
    for i := 0 to |documents|
      invariant ok && Structured(documents[..i]) && records == RecordsOf(hash, documents[..i])
      invariant ArePopulations(populations, records)
    {
      PrefixStep(documents, i);
      if Structure(documents[i]).None? {
        ok := false;
        return;
      }
      var record := RecordOf(hash, documents[i]);
      FiledKeepsTable(populations, records, record, RelationOf, map[], Tally);
      populations := Filed(populations, record, RelationOf, map[], Tally);
      records := records + [record];
    }
    TakeAll(documents);
  }

  method FileStrata(records: seq<Record>) returns (byStratum: map<(string, Stratum), seq<Record>>)
    ensures AreStrata(byStratum, records)
  {
    byStratum := map[];
    for i := 0 to |records|
      invariant AreStrata(byStratum, records[..i])
    {
      var append := (g: seq<Record>, r: Record) => g + [r];
      PrefixStep(records, i);
      FiledKeepsTable(byStratum, records[..i], records[i], KeyOf, [], append);
      byStratum := Filed(byStratum, records[i], KeyOf, [], append);
    }
    TakeAll(records);
  }

  ghost predicate Positive(p: Populations) { forall s :: s in p ==> p[s] > 0 }

  /** One relation's quotas. */
  method QuotaFor(p: Populations, policy: Policy, repr: Stratum -> string) returns (q: Quotas)
    requires Injective(repr) && Positive(p)
    ensures IsQuota(p, policy, repr, q)
  {
    var total := Size(p);
    if total <= policy.censusLimit {
      q := p;
    } else {
      q := LargestRemainder(p, Budget(policy, total), repr);
    }
  }

  /** Every entry is a quota table of its relation. */
  ghost predicate HoldsQuotas(populations: PopulationTable, policy: Policy, repr: Stratum -> string, quotas: map<string, Quotas>) {
    forall relation :: relation in quotas ==>
      relation in populations && IsQuota(populations[relation], policy, repr, quotas[relation])
  }

  lemma QuotaAdded(populations: PopulationTable, policy: Policy, repr: Stratum -> string, quotas: map<string, Quotas>,
                   relation: string, q: Quotas, next: map<string, Quotas>)
    requires HoldsQuotas(populations, policy, repr, quotas) && next == quotas[relation := q]
    requires relation in populations && IsQuota(populations[relation], policy, repr, q)
    ensures HoldsQuotas(populations, policy, repr, next)
  {
    forall r | r in next ensures r in populations && IsQuota(populations[r], policy, repr, next[r]) {}
  }

  method QuotasFor(populations: PopulationTable, policy: Policy, repr: Stratum -> string) returns (quotas: map<string, Quotas>)
    requires Injective(repr) && forall relation :: relation in populations ==> Positive(populations[relation])
    ensures quotas.Keys == populations.Keys && HoldsQuotas(populations, policy, repr, quotas)
  {
    quotas := map[];
    var todo := populations.Keys;
    while todo != {}
      invariant todo <= populations.Keys && quotas.Keys == populations.Keys - todo
      invariant HoldsQuotas(populations, policy, repr, quotas)
    {
      var relation :| relation in todo;
      var q := QuotaFor(populations[relation], policy, repr);
      var next := quotas[relation := q];
      QuotaAdded(populations, policy, repr, quotas, relation, q, next);
      quotas, todo := next, todo - {relation};
    }
  }

  lemma PopulationEntry(populations: PopulationTable, records: seq<Record>, relation: string)
    requires ArePopulations(populations, records) && relation in populations
    ensures populations[relation] == PopulationOf(records, relation) && Positive(populations[relation])
  {
    PopulationCounts(records, relation);
  }

  lemma QuotasAre(populations: PopulationTable, records: seq<Record>, policy: Policy, repr: Stratum -> string, quotas: map<string, Quotas>)
    requires ArePopulations(populations, records) && quotas.Keys == populations.Keys
    requires HoldsQuotas(populations, policy, repr, quotas)
    ensures AreQuotas(records, policy, repr, quotas)
  {
    forall relation | relation in quotas ensures IsQuota(PopulationOf(records, relation), policy, repr, quotas[relation]) {
      PopulationEntry(populations, records, relation);
    }
  }
}
