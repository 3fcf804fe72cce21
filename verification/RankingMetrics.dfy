/** Per-query ranking metrics: duplicate evidence groups earn nothing, and nDCG, recall and the
    reciprocal rank stay in [0, 1] for every ranking and every judgment set. */
module RankingMetrics {
  import opened Ordering
  import opened Wrappers
  import opened Grouping
  import opened Rearrangement
  import opened Ndcg

  const RELEVANT_GRADE := 2

  /** The judgment of one document: its grade and its evidence group. */
  datatype Judgment = Judgment(grade: nat, group: string)

  type Qrels = map<string, Judgment>

  datatype Metrics = Metrics(ndcg: real, recall: real, reciprocalRank: real)

  datatype Evaluation = Evaluated(metrics: Metrics) | FailedQuery | Inconsistent | Unjudged

  // ----------------------------------------------------------------- ranked grades

  function GradeOf(q: Qrels, d: string): nat { if d in q then q[d].grade else 0 }

  function GroupOf(q: Qrels, d: string): string { if d in q then q[d].group else d }

  function GroupsOf(q: Qrels, top: seq<string>): set<string> { set d | d in top :: GroupOf(q, d) }

  /** The grade of each ranked document; later members of a group seen before score zero. */
  function GradesOf(q: Qrels, top: seq<string>): seq<nat> {
    if top == [] then []
    else
      var n := |top| - 1;
      GradesOf(q, top[..n]) + [if GroupOf(q, top[n]) in GroupsOf(q, top[..n]) then 0 else GradeOf(q, top[n])]
  }

  /** The relevant groups among them. */
  function Retrieved(q: Qrels, top: seq<string>): set<string> {
    set d | d in top && GradeOf(q, d) >= RELEVANT_GRADE :: GroupOf(q, d)
  }

  ghost predicate Consistent(q: Qrels) {
    forall a, b :: a in q && b in q && q[a].group == q[b].group ==> q[a].grade == q[b].grade
  }

  /** Every positively graded group with its grade. */
  ghost predicate IsGroupTable(table: map<string, nat>, q: Qrels) {
    && (forall g :: g in table ==> exists d :: d in q && q[d].group == g && q[d].grade > 0)
    && forall d :: d in q && q[d].grade > 0 ==> q[d].group in table && table[q[d].group] == q[d].grade
  }

  function ValuesOf(table: map<string, nat>, keys: seq<string>): seq<nat>
    requires forall g <- keys :: g in table
  {
    seq(|keys|, i requires 0 <= i < |keys| => table[keys[i]])
  }

  predicate Above(a: nat, b: nat) { a >= b }

  /** sorted(table.values(), reverse=True) */
  function Ideal(table: map<string, nat>): seq<nat> { Sort(Above, ValuesOf(table, SortedKeys(table))) }

  function Relevant(table: map<string, nat>): set<string> { set g | g in table && table[g] >= RELEVANT_GRADE }

  /** The first rank whose group is relevant, if any. */
  function FirstRank(q: Qrels, relevant: set<string>, top: seq<string>, rank: nat): Option<nat> {
    if top == [] then None
    else if GroupOf(q, top[0]) in relevant then Some(rank)
    else FirstRank(q, relevant, top[1..], rank + 1)
  }

  function ReciprocalOf(first: Option<nat>): real
    requires first.Some? ==> first.value > 0
  {
    match first case None => 0.0 case Some(rank) => 1.0 / rank as real
  }

  lemma {:induction false} FirstRankPositive(q: Qrels, relevant: set<string>, top: seq<string>, rank: nat)
    ensures var f := FirstRank(q, relevant, top, rank); f.Some? ==> rank <= f.value < rank + |top|
  {
    if top != [] { FirstRankPositive(q, relevant, top[1..], rank + 1); }
  }

  function MetricsOf(d: Discount, q: Qrels, table: map<string, nat>, top: seq<string>, k: nat): Metrics
    requires Relevant(table) != {}
  {
    FirstRankPositive(q, Relevant(table), top, 1);
    Metrics(NdcgAt(d, GradesOf(q, top), Ideal(table), k),
            |Retrieved(q, top)| as real / |Relevant(table)| as real,
            ReciprocalOf(FirstRank(q, Relevant(table), top, 1)))
  }

  // ------------------------------------------------------------------- dominance

  lemma {:induction false} ValuesWithin(table: map<string, nat>, a: seq<string>, b: seq<string>)
    requires Distinct(a) && (forall g <- a :: g in b) && forall g <- b :: g in table
    ensures forall g <- a :: g in table
    ensures multiset(ValuesOf(table, a)) <= multiset(ValuesOf(table, b))
  {
    if a != [] {
      var n := |a| - 1;
      assert a[n] in a;
      var k :| 0 <= k < |b| && b[k] == a[n];
      var rest := b[..k] + b[k+1..];
      RemoveValue(table, b, k);
      forall g | g in a[..n] ensures g in rest {
        assert g in a && g != a[n];
        var i :| 0 <= i < |b| && b[i] == g;
        assert if i < k then rest[i] == g else rest[i - 1] == g;
      }
      ValuesWithin(table, a[..n], rest);
      assert ValuesOf(table, a) == ValuesOf(table, a[..n]) + [table[a[n]]];
    }
  }

  lemma RemoveValue(table: map<string, nat>, b: seq<string>, k: nat)
    requires k < |b| && forall g <- b :: g in table
    ensures forall g <- b[..k] + b[k+1..] :: g in table
    ensures multiset(ValuesOf(table, b)) == multiset(ValuesOf(table, b[..k] + b[k+1..])) + multiset{table[b[k]]}
  {
    var v := ValuesOf(table, b);
    assert ValuesOf(table, b[..k] + b[k+1..]) == v[..k] + v[k+1..];
    Without(v, k);
  }

  /** The groups behind the positive grades, in the order in which they first appear. */
  function Earning(q: Qrels, top: seq<string>): seq<string> {
    if top == [] then []
    else
      var n := |top| - 1;
      Earning(q, top[..n]) + if GroupOf(q, top[n]) in GroupsOf(q, top[..n]) || GradeOf(q, top[n]) == 0 then [] else [GroupOf(q, top[n])]
  }

  lemma {:induction false} EarningDistinct(q: Qrels, top: seq<string>)
    ensures Distinct(Earning(q, top)) && forall g <- Earning(q, top) :: g in GroupsOf(q, top)
  {
    if top != [] {
      var n := |top| - 1;
      EarningDistinct(q, top[..n]);
      assert top == top[..n] + [top[n]];
      assert GroupsOf(q, top) == GroupsOf(q, top[..n]) + {GroupOf(q, top[n])};
    }
  }

  lemma NonZeroAppend(s: seq<nat>, x: nat)
    ensures NonZero(s + [x]) == NonZero(s) + if x == 0 then [] else [x]
  {
    assert (s + [x])[..|s|] == s;
  }

  lemma ValuesAppend(table: map<string, nat>, keys: seq<string>, g: string)
    requires g in table && forall x <- keys :: x in table
    ensures ValuesOf(table, keys + [g]) == ValuesOf(table, keys) + [table[g]]
  {}

  lemma EarningStep(q: Qrels, table: map<string, nat>, front: seq<string>, d: string)
    requires IsGroupTable(table, q) && forall g <- Earning(q, front) :: g in table
    ensures var x := if GroupOf(q, d) in GroupsOf(q, front) then 0 else GradeOf(q, d);
      && GradesOf(q, front + [d]) == GradesOf(q, front) + [x]
      && Earning(q, front + [d]) == Earning(q, front) + (if x == 0 then [] else [GroupOf(q, d)])
      && (x != 0 ==> GroupOf(q, d) in table && table[GroupOf(q, d)] == x)
  {
    assert (front + [d])[..|front|] == front;
  }

  lemma {:induction false} EarningGrades(q: Qrels, table: map<string, nat>, top: seq<string>)
    requires IsGroupTable(table, q)
    ensures forall g <- Earning(q, top) :: g in table
    ensures NonZero(GradesOf(q, top)) == ValuesOf(table, Earning(q, top))
  {
    if top != [] {
      var n := |top| - 1;
      var front, d := top[..n], top[n];
      assert top == front + [d];
      EarningGrades(q, table, front);
      EarningStep(q, table, front, d);
      var x := if GroupOf(q, d) in GroupsOf(q, front) then 0 else GradeOf(q, d);
      NonZeroAppend(GradesOf(q, front), x);
      if x != 0 { ValuesAppend(table, Earning(q, front), GroupOf(q, d)); }
    }
  }

  lemma IdealFacts(table: map<string, nat>)
    ensures Descending(Ideal(table)) && multiset(Ideal(table)) == multiset(ValuesOf(table, SortedKeys(table)))
  {
    SortSorted(Above, ValuesOf(table, SortedKeys(table)));
  }

  /** Whatever is ranked, its positive grades are entries of the ideal list, one per group. */
  lemma GradesWithinIdeal(q: Qrels, table: map<string, nat>, top: seq<string>)
    requires IsGroupTable(table, q)
    ensures Within(GradesOf(q, top), Ideal(table)) && Descending(Ideal(table))
  {
    EarningDistinct(q, top);
    EarningGrades(q, table, top);
    ValuesWithin(table, Earning(q, top), SortedKeys(table));
    IdealFacts(table);
  }

  lemma RetrievedWithinRelevant(q: Qrels, table: map<string, nat>, top: seq<string>)
    requires IsGroupTable(table, q)
    ensures Retrieved(q, top) <= Relevant(table) && |Retrieved(q, top)| <= |Relevant(table)|
  {
    forall g | g in Retrieved(q, top) ensures g in Relevant(table) {
      var d :| d in top && GradeOf(q, d) >= RELEVANT_GRADE && g == GroupOf(q, d);
    }
    SubsetSize(Retrieved(q, top), Relevant(table));
  }

  lemma FractionInUnit(a: nat, b: nat)
    requires a <= b && b > 0
    ensures 0.0 <= a as real / b as real <= 1.0 && (a as real / b as real == 1.0 <==> a == b)
  {
    Quotient(a as real, b as real);
  }

  lemma RecallBounded(q: Qrels, table: map<string, nat>, top: seq<string>)
    requires IsGroupTable(table, q) && Relevant(table) != {}
    ensures var recall := |Retrieved(q, top)| as real / |Relevant(table)| as real;
      0.0 <= recall <= 1.0 && (recall == 1.0 <==> Retrieved(q, top) == Relevant(table))
  {
    RetrievedWithinRelevant(q, table, top);
    FractionInUnit(|Retrieved(q, top)|, |Relevant(table)|);
    SameSize(Retrieved(q, top), Relevant(table));
  }

  lemma RankBounded(q: Qrels, relevant: set<string>, top: seq<string>)
    ensures var first := FirstRank(q, relevant, top, 1);
      (first.Some? ==> first.value > 0) && 0.0 <= ReciprocalOf(first) <= 1.0
      && (ReciprocalOf(first) == 1.0 <==> top != [] && GroupOf(q, top[0]) in relevant)
  {
    FirstRankPositive(q, relevant, top, 1);
    var first := FirstRank(q, relevant, top, 1);
    if first.Some? { FractionInUnit(1, first.value); }
    if top != [] { FirstRankPositive(q, relevant, top[1..], 2); }
  }

  /** All three metrics lie in [0, 1]; nDCG is 1 exactly for the ideal list, recall exactly when
      every relevant group was retrieved, reciprocal rank exactly when the first document's group is
      relevant. */
  lemma MetricsBounded(d: Discount, q: Qrels, table: map<string, nat>, top: seq<string>, k: nat)
    requires Discounts(d) && IsGroupTable(table, q) && Relevant(table) != {} && k > 0
    ensures var m := MetricsOf(d, q, table, top, k);
      && 0.0 <= m.ndcg <= 1.0 && 0.0 <= m.recall <= 1.0 && 0.0 <= m.reciprocalRank <= 1.0
      && (m.ndcg == 1.0 <==> SamePadded(GradesOf(q, top), Ideal(table), k))
      && (m.recall == 1.0 <==> Retrieved(q, top) == Relevant(table))
      && (m.reciprocalRank == 1.0 <==> top != [] && GroupOf(q, top[0]) in Relevant(table))
  {
    GradesWithinIdeal(q, table, top);
    NdcgBounds(d, GradesOf(q, top), Ideal(table), k);
    BestIsPositive(table);
    RecallBounded(q, table, top);
    RankBounded(q, Relevant(table), top);
  }

  lemma SameSize<T>(a: set<T>, b: set<T>)
    requires a <= b
    ensures |a| == |b| <==> a == b
  {
    assert b == a + (b - a);
  }

  lemma BestIsPositive(table: map<string, nat>)
    requires Relevant(table) != {}
    ensures Padded(Ideal(table), 0) > 0
  {
    var g :| g in Relevant(table);
    LeadingGrade(table, g);
  }

  /** A later member of a group already seen scores zero, wherever it stands. */
  lemma DuplicateScoresZero(q: Qrels, top: seq<string>, i: nat, j: nat)
    requires i < j < |top| && GroupOf(q, top[i]) == GroupOf(q, top[j])
    ensures |GradesOf(q, top)| == |top| && GradesOf(q, top)[j] == 0
  {
    GradesLength(q, top);
    GradeAt(q, top, j);
    assert top[..j][i] == top[i];
  }

  lemma {:induction false} GradesLength(q: Qrels, top: seq<string>)
    ensures |GradesOf(q, top)| == |top|
  {
    if top != [] { GradesLength(q, top[..|top|-1]); }
  }

  lemma {:induction false} GradeAt(q: Qrels, top: seq<string>, j: nat)
    requires j < |top| && |GradesOf(q, top)| == |top|
    ensures GradesOf(q, top)[j] == if GroupOf(q, top[j]) in GroupsOf(q, top[..j]) then 0 else GradeOf(q, top[j])
  {
    var n := |top| - 1;
    GradesLength(q, top[..n]);
    if j < n {
      GradeAt(q, top[..n], j);
      assert top[..n][..j] == top[..j];
    }
  }

  // ------------------------------------------------------------------- the evaluator

  method CheckConsistent(q: Qrels) returns (ok: bool)
    ensures ok <==> Consistent(q)
  {
    ok := forall a <- q, b <- q :: q[a].group == q[b].group ==> q[a].grade == q[b].grade;
  }

  function Max(a: nat, b: nat): nat { if a >= b then a else b }

  /** graded_groups: the best positive grade of each group. */
  method GradedGroups(q: Qrels) returns (table: map<string, nat>)
    requires Consistent(q)
    ensures IsGroupTable(table, q)
  {
    table := map[];
    var todo := q.Keys;
    while todo != {}
      invariant todo <= q.Keys
      invariant forall g :: g in table ==> exists d :: d in q && d !in todo && q[d].group == g && q[d].grade > 0 && table[g] == q[d].grade
      invariant forall d :: d in q && d !in todo && q[d].grade > 0 ==> q[d].group in table && table[q[d].group] == q[d].grade
    {
      var d :| d in todo;
      var j := q[d];
      if j.grade > 0 {
        var best := if j.group in table then Max(table[j.group], j.grade) else j.grade;
        SameGrade(q, table, todo, d);
        table := table[j.group := best];
      }
      todo := todo - {d};
    }
  }

  lemma SameGrade(q: Qrels, table: map<string, nat>, todo: set<string>, d: string)
    requires Consistent(q) && d in q
    requires forall g :: g in table ==> exists x :: x in q && x !in todo && q[x].group == g && q[x].grade > 0 && table[g] == q[x].grade
    ensures q[d].group in table ==> table[q[d].group] == q[d].grade
  {}

  /** The loop over the cut ranking. */
  method GradeTop(q: Qrels, top: seq<string>) returns (grades: seq<nat>, retrieved: set<string>)
    requires Consistent(q) && Judged(q, top)
    ensures grades == GradesOf(q, top) && retrieved == Retrieved(q, top)
  {
    var seen: set<string> := {};
    grades, retrieved := [], {};
    for i := 0 to |top|
      invariant seen == GroupsOf(q, top[..i]) && grades == GradesOf(q, top[..i]) && retrieved == Retrieved(q, top[..i])
    {
      PrefixStep(top, i);
      var d := top[i];
      StepSets(q, top[..i], d);
      if GroupOf(q, d) in seen {
        grades := grades + [0];
      } else {
        grades, seen := grades + [GradeOf(q, d)], seen + {GroupOf(q, d)};
        if GradeOf(q, d) >= RELEVANT_GRADE {
          retrieved := retrieved + {GroupOf(q, d)};
        }
      }
    }
    TakeAll(top);
  }

  lemma StepSets(q: Qrels, front: seq<string>, d: string)
    requires Consistent(q)
    ensures GroupsOf(q, front + [d]) == GroupsOf(q, front) + {GroupOf(q, d)}
    ensures Retrieved(q, front + [d]) == Retrieved(q, front) + if GradeOf(q, d) >= RELEVANT_GRADE then {GroupOf(q, d)} else {}
    ensures GroupOf(q, d) in GroupsOf(q, front) && GradeOf(q, d) >= RELEVANT_GRADE && Judged(q, front) ==> GroupOf(q, d) in Retrieved(q, front)
  {
    assert forall x :: x in front + [d] <==> x in front || x == d;
  }

  predicate Judged(q: Qrels, top: seq<string>) { forall d <- top :: d in q }

  function TopOf(ranked: seq<string>, k: nat): seq<string> { if k <= |ranked| then ranked[..k] else ranked }

  ghost predicate IsMeasured(d: Discount, q: Qrels, top: seq<string>, k: nat, m: Metrics) {
    exists table :: IsGroupTable(table, q) && Relevant(table) != {} && m == MetricsOf(d, q, table, top, k)
  }

  ghost predicate NothingRelevant(q: Qrels) { forall x :: x in q ==> q[x].grade < RELEVANT_GRADE }

  lemma RelevantGroups(q: Qrels, table: map<string, nat>)
    requires Consistent(q) && IsGroupTable(table, q)
    ensures Relevant(table) == {} <==> NothingRelevant(q)
  {
    if !NothingRelevant(q) {
      var x :| x in q && q[x].grade >= RELEVANT_GRADE;
      assert q[x].group in Relevant(table);
    }
  }

  /** evaluate_rankings for one eligible query; `ranked` is in rank order. */
  method EvaluateQuery(d: Discount, q: Qrels, ranked: seq<string>, k: nat) returns (r: Evaluation)
    requires k > 0
    ensures r == Inconsistent <==> !Consistent(q)
    ensures r == FailedQuery <==> Consistent(q) && (ranked == [] || NothingRelevant(q))
    ensures r == Unjudged ==> !Judged(q, TopOf(ranked, k))
    ensures r.Evaluated? ==> Judged(q, TopOf(ranked, k)) && IsMeasured(d, q, TopOf(ranked, k), k, r.metrics)
  {
    var ok := CheckConsistent(q);
    if !ok {
      return Inconsistent;
    }
    var table := GradedGroups(q);
    RelevantGroups(q, table);
    if Relevant(table) == {} || ranked == [] {
      return FailedQuery;
    }
    var top := TopOf(ranked, k);
    if !Judged(q, top) {
      return Unjudged;
    }
    var grades, retrieved := GradeTop(q, top);
    RankBounded(q, Relevant(table), top);
    r := Evaluated(Metrics(NdcgAt(d, grades, Ideal(table), k), |retrieved| as real / |Relevant(table)| as real,
                           ReciprocalOf(FirstRank(q, Relevant(table), top, 1))));
    assert r.metrics == MetricsOf(d, q, table, top, k);
  }

  // ----------------------------------------------- the run evaluator, ungrouped

  /** _qrel_groups and the relevance loop of a retrieval run: one grade per document. */
  function RunGrades(q: map<string, nat>, ranked: seq<string>): (r: seq<nat>)
    ensures |r| == |ranked|
  {
    seq(|ranked|, i requires 0 <= i < |ranked| => if ranked[i] in q then q[ranked[i]] else 0)
  }

  function PositiveDocuments(q: map<string, nat>, ranked: seq<string>): (r: seq<string>)
    ensures forall x <- r :: x in q
  {
    if ranked == [] then []
    else
      var x := ranked[|ranked|-1];
      PositiveDocuments(q, ranked[..|ranked|-1]) + if x in q && q[x] > 0 then [x] else []
  }

  lemma {:induction false} PositiveGrades(q: map<string, nat>, ranked: seq<string>)
    ensures NonZero(RunGrades(q, ranked)) == ValuesOf(q, PositiveDocuments(q, ranked))
    ensures forall x <- PositiveDocuments(q, ranked) :: x in ranked
  {
    if ranked != [] {
      var n := |ranked| - 1;
      PositiveGrades(q, ranked[..n]);
      var x := if ranked[n] in q then q[ranked[n]] else 0;
      assert RunGrades(q, ranked) == RunGrades(q, ranked[..n]) + [x];
      NonZeroAppend(RunGrades(q, ranked[..n]), x);
      var front := PositiveDocuments(q, ranked[..n]);
      if x > 0 {
        assert ValuesOf(q, front + [ranked[n]]) == ValuesOf(q, front) + [x];
      } else {
        assert PositiveDocuments(q, ranked) == front;
      }
    }
  }

  lemma {:induction false} PositiveDistinct(q: map<string, nat>, ranked: seq<string>)
    requires Distinct(ranked)
    ensures Distinct(PositiveDocuments(q, ranked))
  {
    if ranked != [] {
      var n := |ranked| - 1;
      PositiveDistinct(q, ranked[..n]);
      PositiveGrades(q, ranked[..n]);
      var front := PositiveDocuments(q, ranked[..n]);
      assert ranked[n] !in ranked[..n] && ranked[n] !in front;
      if PositiveDocuments(q, ranked) == front {
      } else {
        assert PositiveDocuments(q, ranked) == front + [ranked[n]];
      }
    }
  }

  /** A retrieval run without repeated documents has nDCG in [0, 1] at every cutoff. */
  lemma RunNdcgBounded(d: Discount, q: map<string, nat>, ranked: seq<string>, cutoff: nat)
    requires Discounts(d) && Distinct(ranked) && cutoff > 0 && exists x :: x in q && q[x] > 0
    ensures 0.0 <= NdcgAt(d, RunGrades(q, ranked), Ideal(q), cutoff) <= 1.0
    ensures NdcgAt(d, RunGrades(q, ranked), Ideal(q), cutoff) == 1.0 <==> SamePadded(RunGrades(q, ranked), Ideal(q), cutoff)
  {
    PositiveDistinct(q, ranked);
    PositiveGrades(q, ranked);
    ValuesWithin(q, PositiveDocuments(q, ranked), SortedKeys(q));
    IdealFacts(q);
    NdcgBounds(d, RunGrades(q, ranked), Ideal(q), cutoff);
    var x :| x in q && q[x] > 0;
    LeadingGrade(q, x);
  }

  lemma LeadingGrade(table: map<string, nat>, g: string)
    requires g in table
    ensures Padded(Ideal(table), 0) >= table[g]
  {
    var keys := SortedKeys(table);
    var i :| 0 <= i < |keys| && keys[i] == g;
    IdealFacts(table);
    assert ValuesOf(table, keys)[i] == table[g];
    assert table[g] in multiset(Ideal(table));
    var j :| 0 <= j < |Ideal(table)| && Ideal(table)[j] == table[g];
  }
}
