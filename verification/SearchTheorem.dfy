/** What a search returns: the top of a unique order, pointers that satisfy the whole filter, and
    a fused score that respects both lists. */
module SearchTheorem {
  import opened Ordering
  import opened Wrappers
  import opened Grouping
  import opened SearchTypes
  import opened SearchScoring
  import opened SearchIndex

  // --------------------------------------------------------------------- score rows

  ghost predicate UniqueRows(rows: seq<ScoreRow>) {
    Distinct(rows) && forall a, b :: a in rows && b in rows && a.id == b.id ==> a == b
  }

  /** There is one row for each document scored, under its identity. */
  lemma {:induction false} ScoreIds(s: Scorer, q: Query, documents: map<string, Document>, ids: seq<string>)
    requires (forall id <- ids :: id in documents) && Scores(s, q, documents, ids).Some?
    ensures var rows := Scores(s, q, documents, ids).value;
      |rows| == |ids| && forall i :: 0 <= i < |rows| ==> rows[i].id == ids[i] && Score(s, q, ids[i], documents[ids[i]]) == Some(rows[i])
  {
    if ids != [] { ScoreIds(s, q, documents, ids[..|ids|-1]); }
  }

  lemma ScoresUnique(s: Scorer, q: Query, documents: map<string, Document>, ids: seq<string>)
    requires Distinct(ids) && (forall id <- ids :: id in documents) && Scores(s, q, documents, ids).Some?
    ensures UniqueRows(Scores(s, q, documents, ids).value)
  {
    ScoreIds(s, q, documents, ids);
    var rows := Scores(s, q, documents, ids).value;
    forall a, b | a in rows && b in rows && a.id == b.id ensures a == b {
      var i :| 0 <= i < |rows| && rows[i] == a;
      var k :| 0 <= k < |rows| && rows[k] == b;
    }
  }

  // ---------------------------------------------------------------------- rankings

  lemma AheadPreorder(score: ScoreRow -> int)
    ensures TotalPreorder((a: ScoreRow, b: ScoreRow) => RowAhead(score, a, b))
  {
    StringTotalOrder();
  }

  lemma AheadNoTies(score: ScoreRow -> int, rows: seq<ScoreRow>)
    requires UniqueRows(rows)
    ensures NoTies((a: ScoreRow, b: ScoreRow) => RowAhead(score, a, b), rows)
  {
    StringTotalOrder();
  }

  lemma ListedFacts(score: ScoreRow -> int, keep: ScoreRow -> bool, rows: seq<ScoreRow>)
    requires UniqueRows(rows)
    ensures var list := Listed(score, keep, rows);
      && SortedBy((a: ScoreRow, b: ScoreRow) => RowAhead(score, a, b), list) && Distinct(list)
      && forall r :: r in list <==> r in rows && keep(r)
  {
    var le := (a: ScoreRow, b: ScoreRow) => RowAhead(score, a, b);
    var kept := Select(rows, keep, true);
    SelectMembers(rows, keep, true);
    SelectUniqueBy(rows, keep, true, (r: ScoreRow) => r);
    AheadPreorder(score);
    SortSorted(le, kept);
    SortMembers(le, kept);
    DistinctSort(le, kept);
  }

  /** The list is the only ordering of its rows by score descending, identity ascending. */
  lemma ListedUnique(score: ScoreRow -> int, keep: ScoreRow -> bool, rows: seq<ScoreRow>, other: seq<ScoreRow>)
    requires UniqueRows(rows) && multiset(other) == multiset(Listed(score, keep, rows))
    requires SortedBy((a: ScoreRow, b: ScoreRow) => RowAhead(score, a, b), other)
    ensures other == Listed(score, keep, rows)
  {
    var le := (a: ScoreRow, b: ScoreRow) => RowAhead(score, a, b);
    ListedFacts(score, keep, rows);
    var list := Listed(score, keep, rows);
    assert UniqueRows(list);
    AheadNoTies(score, list);
    SortedUnique(le, list, other);
  }

  /** In every mode the answer is the first n of that order: what is returned was scored, its length
      is what the limit allows, and nothing left out is ahead of anything returned. */
  lemma TopOfTheOrder(mode: Mode, rows: seq<ScoreRow>, n: nat)
    requires UniqueRows(rows)
    ensures var top, keep, score := TopRows(mode, rows, n), KeptIn(mode), ScoreIn(mode, rows);
      && |top| == (if n <= |Select(rows, keep, true)| then n else |Select(rows, keep, true)|)
      && (forall a <- top :: a in rows && keep(a))
      && (forall a, b :: a in top && b in rows && keep(b) && b !in top ==> RowAhead(score, a, b) && a.id != b.id)
  {
    var keep, score := KeptIn(mode), ScoreIn(mode, rows);
    var list, top := Listed(score, keep, rows), TopRows(mode, rows, n);
    ListedFacts(score, keep, rows);
    forall a | a in top ensures a in list {}
    forall a, b | a in top && b in rows && keep(b) && b !in top ensures RowAhead(score, a, b) && a.id != b.id {
      var i :| 0 <= i < |top| && top[i] == a;
      var k :| 0 <= k < |list| && list[k] == b;
      TopIsPrefix(list, n, k);
    }
  }

  lemma TopIsPrefix(list: seq<ScoreRow>, n: nat, k: nat)
    requires k < |list| && list[k] !in Take(list, n)
    ensures k >= |Take(list, n)|
  {
    assert forall j :: 0 <= j < |Take(list, n)| ==> Take(list, n)[j] == list[j];
  }

  /** The reported rows carry the score they are ordered by, in that order. */
  lemma ReportedInOrder(mode: Mode, rows: seq<ScoreRow>, n: nat)
    requires UniqueRows(rows)
    ensures var r := Ranking(mode, rows, n); forall i, k :: 0 <= i < k < |r| ==> Ahead(r[i], r[k]) && r[i].id != r[k].id
  {
    ListedFacts(ScoreIn(mode, rows), KeptIn(mode), rows);
    var list, top := Listed(ScoreIn(mode, rows), KeptIn(mode), rows), TopRows(mode, rows, n);
    forall i, k | 0 <= i < k < |top|
      ensures Ahead(Report(mode, rows, top[i]), Report(mode, rows, top[k])) && top[i].id != top[k].id
    {
      assert top[i] == list[i] && top[k] == list[k] && list[i] in rows && list[k] in rows;
      assert RowAhead(ScoreIn(mode, rows), list[i], list[k]);
    }
  }

  // ------------------------------------------------------------------------ fusion

  lemma {:induction false} RowNumberAt(list: seq<ScoreRow>, i: nat)
    requires Distinct(list) && i < |list|
    ensures RowNumber(list, list[i]) == i + 1
  {
    if i > 0 {
      assert list[1..][i-1] == list[i];
      RowNumberAt(list[1..], i - 1);
    }
  }

  lemma AheadHasLowerNumber(score: ScoreRow -> int, keep: ScoreRow -> bool, rows: seq<ScoreRow>, a: ScoreRow, b: ScoreRow)
    requires UniqueRows(rows) && a in rows && b in rows && keep(a) && keep(b) && RowAhead(score, a, b)
    ensures RowNumber(Listed(score, keep, rows), a) <= RowNumber(Listed(score, keep, rows), b)
  {
    ListedFacts(score, keep, rows);
    var list := Listed(score, keep, rows);
    var i :| 0 <= i < |list| && list[i] == a;
    var k :| 0 <= k < |list| && list[k] == b;
    RowNumberAt(list, i);
    RowNumberAt(list, k);
    StringTotalOrder();
    assert k < i ==> RowAhead(score, list[k], list[i]);
  }

  lemma ReciprocalFalls(m: nat, n: nat)
    requires 1 <= m <= n
    ensures Reciprocal(n) <= Reciprocal(m) <= 1.0 / 61.0 && 0.0 < Reciprocal(n)
  {
    Divide((60 + m) as real, (60 + n) as real);
    Divide(61.0, (60 + m) as real);
  }

  lemma Divide(x: real, y: real)
    requires 0.0 < x <= y
    ensures 0.0 < 1.0 / y <= 1.0 / x
  {
    assert 1.0 / x - 1.0 / y == (y - x) / (x * y);
  }

  /** a stands ahead of b in a list, or b is not on it. */
  predicate NotBehind(score: ScoreRow -> int, keep: ScoreRow -> bool, a: ScoreRow, b: ScoreRow) {
    keep(b) ==> keep(a) && RowAhead(score, a, b)
  }

  lemma RoundMonotone(x: real, y: real)
    requires x <= y
    ensures Round(x) <= Round(y)
  {}

  lemma ListShare(score: ScoreRow -> int, keep: ScoreRow -> bool, rows: seq<ScoreRow>, a: ScoreRow, b: ScoreRow)
    requires UniqueRows(rows) && a in rows && b in rows && NotBehind(score, keep, a, b)
    ensures (if keep(b) then Reciprocal(RowNumber(Listed(score, keep, rows), b)) else 0.0)
         <= (if keep(a) then Reciprocal(RowNumber(Listed(score, keep, rows), a)) else 0.0)
  {
    if keep(b) {
      AheadHasLowerNumber(score, keep, rows, a, b);
      ReciprocalFalls(RowNumber(Listed(score, keep, rows), a), RowNumber(Listed(score, keep, rows), b));
    } else if keep(a) {
      ReciprocalFalls(1, RowNumber(Listed(score, keep, rows), a));
    }
  }

  /** A document ahead of another in both lists never has a lower fused score. */
  lemma FusionIsMonotone(rows: seq<ScoreRow>, a: ScoreRow, b: ScoreRow)
    requires UniqueRows(rows) && a in rows && b in rows
    requires NotBehind(DenseScore, HasDense, a, b) && NotBehind(LexicalValue, HasLexical, a, b)
    ensures Fused(rows, b) <= Fused(rows, a)
  {
    ListShare(DenseScore, HasDense, rows, a, b);
    ListShare(LexicalValue, HasLexical, rows, a, b);
    RoundMonotone(1000000.0 * FusedReal(rows, b), 1000000.0 * FusedReal(rows, a));
  }

  /** Fused scores lie between 0 and 32787, and the bound is reached by a document that leads both lists. */
  lemma FusedBounded(rows: seq<ScoreRow>, r: ScoreRow)
    ensures 0 <= Fused(rows, r) <= 32787
    ensures HasDense(r) && HasLexical(r) && RowNumber(DenseList(rows), r) == 1 == RowNumber(LexicalList(rows), r) ==>
      Fused(rows, r) == 32787
  {
    ReciprocalFalls(1, RowNumber(DenseList(rows), r));
    ReciprocalFalls(1, RowNumber(LexicalList(rows), r));
    assert 0.0 <= 1000000.0 * FusedReal(rows, r) <= 2000000.0 / 61.0;
    assert 2000000.0 / 61.0 + 0.5 < 32788.0 && 32787.0 <= 2000000.0 / 61.0 + 0.5;
  }

  // ---------------------------------------------------------------------- pointers

  lemma OccurrenceLinks(eligible: seq<Link>, id: string)
    ensures |OccurrencesOf(eligible, id)| == |Select(eligible, (l: Link) => l.document, id)|
    ensures forall x :: x in OccurrencesOf(eligible, id) <==> Link(id, x) in eligible
  {
    var f := (l: Link) => l.document;
    var links := Select(eligible, f, id);
    var names := seq(|links|, i requires 0 <= i < |links| => links[i].occurrence);
    SelectMembers(eligible, f, id);
    SortMembers(StringLe, names);
    forall x ensures x in names <==> Link(id, x) in eligible {
      if Link(id, x) in eligible {
        assert Link(id, x) in links;
        var i :| 0 <= i < |links| && links[i] == Link(id, x);
        assert names[i] == x;
      }
      if x in names {
        var i :| 0 <= i < |names| && names[i] == x;
        assert links[i] in links;
      }
    }
  }

  lemma CandidatePointers(c: Corpus, f: Filters, rank: nat, row: Ranked, limit: nat)
    ensures var x := CandidateOf(Eligible(c, f), rank, row, limit);
      && (forall o <- x.occurrences :: Link(row.id, o) in c.links && Joined(c, f, Link(row.id, o)))
      && (x.exhausted ==> forall l <- c.links :: l.document == row.id && Joined(c, f, l) ==> l.occurrence in x.occurrences)
  {
    var eligible := Eligible(c, f);
    SelectMembers(c.links, (l: Link) => Joined(c, f, l), true);
    OccurrenceLinks(eligible, row.id);
    var all := OccurrencesOf(eligible, row.id);
    forall o | o in Take(all, limit) ensures Link(row.id, o) in eligible {
      assert o in all;
    }
    if |Take(all, limit)| == |all| {
      assert Take(all, limit) == all;
      forall l | l in c.links && l.document == row.id && Joined(c, f, l) ensures l.occurrence in all {
        assert l == Link(row.id, l.occurrence) && l in eligible;
      }
    }
  }

  /** Every pointer returned belongs to its document and satisfies the whole filter; a
      candidate that calls them exhausted returns all that match. */
  lemma PointersSatisfyTheFilter(c: Corpus, s: Scorer, request: Request, vector: Option<Vector>, limit: nat, k: nat)
    requires request.topN >= 0 && SearchOf(c, s, request, vector, limit).Found?
    requires k < |SearchOf(c, s, request, vector, limit).answer.candidates|
    ensures var x := SearchOf(c, s, request, vector, limit).answer.candidates[k];
      && x.rank == k + 1
      && (forall o <- x.occurrences :: Link(x.row.id, o) in c.links && Joined(c, request.filters, Link(x.row.id, o)))
      && (x.exhausted ==> forall l <- c.links :: l.document == x.row.id && Joined(c, request.filters, l) ==> l.occurrence in x.occurrences)
  {
    var rows := AnswerRanksEligible(c, s, request, vector, limit);
    CandidatePointers(c, request.filters, k + 1, Ranking(ModeOf(request.methods), rows, request.topN)[k], limit);
  }

  /** The rows of the eligible documents: one each. */
  ghost predicate RowsOfEligible(c: Corpus, f: Filters, rows: seq<ScoreRow>) {
    && UniqueRows(rows)
    && (forall r: ScoreRow :: r in rows ==> r.id in DocumentsIn(Eligible(c, f)))
    && forall id :: id in DocumentsIn(Eligible(c, f)) ==> exists r: ScoreRow :: r in rows && r.id == id
  }

  /** A search that answers ranks the eligible documents' unique rows. */
  lemma AnswerRanksEligible(c: Corpus, s: Scorer, request: Request, vector: Option<Vector>, limit: nat) returns (rows: seq<ScoreRow>)
    requires request.topN >= 0 && SearchOf(c, s, request, vector, limit).Found?
    ensures RowsOfEligible(c, request.filters, rows)
    ensures SearchOf(c, s, request, vector, limit).answer.candidates
      == CandidatesOf(Eligible(c, request.filters), Ranking(ModeOf(request.methods), rows, request.topN), limit)
  {
    var ids := EligibleIds(c, request.filters);
    var q := QueryOf(s, request, vector, TextsOf(c.documents, ids));
    rows := Scores(s, q, c.documents, ids).value;
    ScoreIds(s, q, c.documents, ids);
    ScoresUnique(s, q, c.documents, ids);
    forall r: ScoreRow | r in rows ensures r.id in DocumentsIn(Eligible(c, request.filters)) {
      var i :| 0 <= i < |rows| && rows[i] == r;
      assert ids[i] in ids;
    }
    forall id | id in DocumentsIn(Eligible(c, request.filters)) ensures exists r: ScoreRow :: r in rows && r.id == id {
      var i :| 0 <= i < |ids| && ids[i] == id;
      assert rows[i] in rows;
    }
  }
}
