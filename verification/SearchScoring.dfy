/** Two-pass scoring of the eligible documents, fetched in chunks. */
module SearchScoring {
  import opened Wrappers
  import opened Grouping
  import opened SearchTypes

  const MAX_DISTANCE := 2000000

  /** Foreign numerics: tokenisation, the distance in millionths before clamping, the natural
      logarithm and the rounding of a positive score to millionths. */
  datatype Scorer = Scorer(tokens: string -> seq<string>, distance: (Vector, Vector) -> int, ln: real -> real, round: real -> int)

  datatype ScoreRow = ScoreRow(id: string, dense: Option<int>, lexical: Option<int>)

  /** A term of the query with its frequency there. */
  datatype Term = Term(text: string, frequency: nat)

  /** What the first pass learns. */
  datatype Statistics = Statistics(frequency: multiset<string>, length: nat)

  // -------------------------------------------------------------------- first pass

  function Contains(tokens: seq<string>, terms: seq<Term>): multiset<string> {
    if terms == [] then multiset{}
    else
      var t := terms[|terms|-1].text;
      Contains(tokens, terms[..|terms|-1]) + if t in tokens then multiset{t} else multiset{}
  }

  function AddText(s: Scorer, terms: seq<Term>, stats: Statistics, text: string): Statistics {
    var tokens := s.tokens(text);
    Statistics(stats.frequency + Contains(tokens, terms), stats.length + |tokens|)
  }

  function StatisticsOf(s: Scorer, terms: seq<Term>, texts: seq<string>): Statistics {
    if texts == [] then Statistics(multiset{}, 0)
    else AddText(s, terms, StatisticsOf(s, terms, texts[..|texts|-1]), texts[|texts|-1])
  }

  // ------------------------------------------------------------------- second pass

  function Clamp(distance: int): int { if distance < 0 then 0 else if distance > MAX_DISTANCE then MAX_DISTANCE else distance }

  function Occurrences(tokens: seq<string>, term: string): nat { multiset(tokens)[term] }

  function Average(stats: Statistics, documents: nat): real {
    if documents == 0 then 0.0 else stats.length as real / documents as real
  }

  function Inverse(s: Scorer, documents: nat, df: nat): real {
    s.ln(1.0 + (documents as real - df as real + 0.5) / (df as real + 0.5))
  }

  function Denominator(frequency: nat, length: nat, average: real): real
    requires average > 0.0
  {
    frequency as real + 1.2 * (1.0 - 0.75 + 0.75 * (length as real) / average)
  }

  /** One term's share; `d` is its denominator. */
  function Share(query: nat, inverse: real, frequency: nat, d: real): real
    requires d > 0.0
  {
    query as real * inverse * frequency as real * 2.2 / d
  }

  lemma DenominatorPositive(frequency: nat, length: nat, average: real)
    requires average > 0.0
    ensures Denominator(frequency, length, average) > 0.0
  {
    assert 0.75 * (length as real) / average >= 0.0;
  }

  function TermScore(s: Scorer, stats: Statistics, documents: nat, tokens: seq<string>, t: Term): real
    requires Average(stats, documents) > 0.0
  {
    var f := Occurrences(tokens, t.text);
    if f == 0 then 0.0
    else
      DenominatorPositive(f, |tokens|, Average(stats, documents));
      Share(t.frequency, Inverse(s, documents, stats.frequency[t.text]), f, Denominator(f, |tokens|, Average(stats, documents)))
  }

  function TextScore(s: Scorer, stats: Statistics, documents: nat, tokens: seq<string>, terms: seq<Term>): real
    requires Average(stats, documents) > 0.0
  {
    if terms == [] then 0.0
    else TextScore(s, stats, documents, tokens, terms[..|terms|-1]) + TermScore(s, stats, documents, tokens, terms[|terms|-1])
  }

  function LexicalScore(s: Scorer, stats: Statistics, documents: nat, text: string, terms: seq<Term>): Option<int> {
    if Average(stats, documents) == 0.0 then None
    else
      AveragePositive(stats, documents);
      var score := TextScore(s, stats, documents, s.tokens(text), terms);
      if score > 0.0 then Some(s.round(score)) else None
  }

  lemma AveragePositive(stats: Statistics, documents: nat)
    ensures Average(stats, documents) >= 0.0
  {}

  /** What scoring is asked for: the query's terms, its vector if dense, and the corpus statistics. */
  datatype Query = Query(terms: seq<Term>, vector: Option<Vector>, lexical: bool, stats: Statistics, documents: nat)

  function Score(s: Scorer, q: Query, id: string, d: Document): Option<ScoreRow> {
    if q.vector.Some? && d.vector.None? then None
    else
      Some(ScoreRow(id, if q.vector.Some? then Some(Clamp(s.distance(d.vector.value, q.vector.value))) else None,
                    if q.lexical then LexicalScore(s, q.stats, q.documents, d.text, q.terms) else None))
  }

  /** All score rows in identity order; None when an eligible document lacks its embedding. */
  function Scores(s: Scorer, q: Query, documents: map<string, Document>, ids: seq<string>): Option<seq<ScoreRow>>
    requires forall id <- ids :: id in documents
  {
    if ids == [] then Some([])
    else
      var n := |ids| - 1;
      var front, last := Scores(s, q, documents, ids[..n]), Score(s, q, ids[n], documents[ids[n]]);
      if front.None? || last.None? then None else Some(front.value + [last.value])
  }

  function TextsOf(documents: map<string, Document>, ids: seq<string>): seq<string>
    requires forall id <- ids :: id in documents
  {
    seq(|ids|, i requires 0 <= i < |ids| => documents[ids[i]].text)
  }

  // --------------------------------------------------------------- the chunked loops

  method CountChunk(s: Scorer, terms: seq<Term>, chunk: seq<string>, before: Statistics, ghost seen: seq<string>) returns (stats: Statistics)
    requires before == StatisticsOf(s, terms, seen)
    ensures stats == StatisticsOf(s, terms, seen + chunk)
  {
    stats := before;
    assert seen + [] == seen && chunk[..0] == [];
    for i := 0 to |chunk|
      invariant stats == StatisticsOf(s, terms, seen + chunk[..i])
    {
      PrefixStep(chunk, i);
      assert seen + chunk[..i+1] == (seen + chunk[..i]) + [chunk[i]];
      assert (seen + chunk[..i+1])[..|seen| + i] == seen + chunk[..i];
      stats := AddText(s, terms, stats, chunk[i]);
    }
    TakeAll(chunk);
  }

  /** First pass: document frequencies and the total length, whatever the chunk size. */
  method CountTexts(s: Scorer, terms: seq<Term>, texts: seq<string>, size: nat) returns (stats: Statistics)
    requires size >= 1
    ensures stats == StatisticsOf(s, terms, texts)
  {
    stats := Statistics(multiset{}, 0);
    var at := 0;
    while at < |texts|
      invariant at <= |texts| && stats == StatisticsOf(s, terms, texts[..at])
    {
      var end := if at + size <= |texts| then at + size else |texts|;
      assert texts[..end] == texts[..at] + texts[at..end];
      stats := CountChunk(s, terms, texts[at..end], stats, texts[..at]);
      at := end;
    }
    TakeAll(texts);
  }

  method ScoreChunk(s: Scorer, q: Query, documents: map<string, Document>, chunk: seq<string>) returns (rows: Option<seq<ScoreRow>>)
    requires forall id <- chunk :: id in documents
    ensures rows == Scores(s, q, documents, chunk)
  {
    var found: seq<ScoreRow> := [];
    for i := 0 to |chunk|
      invariant Scores(s, q, documents, chunk[..i]) == Some(found)
    {
      PrefixStep(chunk, i);
      var row := Score(s, q, chunk[i], documents[chunk[i]]);
      if row.None? {
        ScoresMissing(s, q, documents, chunk, i + 1);
        return None;
      }
      found := found + [row.value];
    }
    TakeAll(chunk);
    rows := Some(found);
  }

  lemma {:induction false} ScoresMissing(s: Scorer, q: Query, documents: map<string, Document>, ids: seq<string>, i: nat)
    requires (forall id <- ids :: id in documents) && i <= |ids| && Scores(s, q, documents, ids[..i]).None?
    ensures Scores(s, q, documents, ids).None?
  {
    if i < |ids| {
      var n := |ids| - 1;
      assert ids[..n][..i] == ids[..i];
      ScoresMissing(s, q, documents, ids[..n], i);
    } else {
      TakeAll(ids);
    }
  }

  lemma {:induction false} ScoresConcat(s: Scorer, q: Query, documents: map<string, Document>, a: seq<string>, b: seq<string>)
    requires (forall id <- a :: id in documents) && forall id <- b :: id in documents
    ensures Scores(s, q, documents, a).None? || Scores(s, q, documents, b).None? ==> Scores(s, q, documents, a + b).None?
    ensures Scores(s, q, documents, a).Some? && Scores(s, q, documents, b).Some? ==>
      Scores(s, q, documents, a + b) == Some(Scores(s, q, documents, a).value + Scores(s, q, documents, b).value)
  {
    if b == [] {
      assert a + b == a;
      if Scores(s, q, documents, a).Some? { assert Scores(s, q, documents, a).value + [] == Scores(s, q, documents, a).value; }
    } else {
      var n := |b| - 1;
      ScoresConcat(s, q, documents, a, b[..n]);
      assert (a + b)[..|a + b| - 1] == a + b[..n];
      if Scores(s, q, documents, a).Some? && Scores(s, q, documents, b).Some? {
        var x, y := Scores(s, q, documents, a).value, Scores(s, q, documents, b[..n]).value;
        var z := Score(s, q, b[n], documents[b[n]]).value;
        assert x + (y + [z]) == (x + y) + [z];
      }
    }
  }

  /** Second pass: one row per document in order, whatever the chunk size. */
  method ScoreDocuments(s: Scorer, q: Query, documents: map<string, Document>, ids: seq<string>, size: nat) returns (rows: Option<seq<ScoreRow>>)
    requires size >= 1 && forall id <- ids :: id in documents
    ensures rows == Scores(s, q, documents, ids)
  {
    var table: seq<ScoreRow> := [];
    var at := 0;
    while at < |ids|
      invariant at <= |ids| && Scores(s, q, documents, ids[..at]) == Some(table)
    {
      var end := if at + size <= |ids| then at + size else |ids|;
      var chunk := ScoreChunk(s, q, documents, ids[at..end]);
      assert ids[..end] == ids[..at] + ids[at..end];
      ScoresConcat(s, q, documents, ids[..at], ids[at..end]);
      if chunk.None? {
        ScoresMissing(s, q, documents, ids, end);
        return None;
      }
      table := table + chunk.value;
      at := end;
    }
    TakeAll(ids);
    rows := Some(table);
  }

  // ------------------------------------------------------- who is scored lexically

  /** The logarithm is positive above one. */
  ghost predicate LogPositive(s: Scorer) { forall x: real :: x > 1.0 ==> s.ln(x) > 0.0 }

  lemma {:induction false} ContainsCount(tokens: seq<string>, terms: seq<Term>, text: string)
    requires forall i, j :: 0 <= i < j < |terms| ==> terms[i].text != terms[j].text
    ensures Contains(tokens, terms)[text] <= if exists i :: 0 <= i < |terms| && terms[i].text == text then 1 else 0
  {
    if terms != [] { ContainsCount(tokens, terms[..|terms|-1], text); }
  }

  /** A term's document frequency never exceeds the number of documents. */
  lemma {:induction false} FrequencyBounded(s: Scorer, terms: seq<Term>, texts: seq<string>, text: string)
    requires forall i, j :: 0 <= i < j < |terms| ==> terms[i].text != terms[j].text
    ensures StatisticsOf(s, terms, texts).frequency[text] <= |texts|
  {
    if texts != [] {
      FrequencyBounded(s, terms, texts[..|texts|-1], text);
      ContainsCount(s.tokens(texts[|texts|-1]), terms, text);
    }
  }

  lemma SharePositive(query: nat, inverse: real, frequency: nat, d: real)
    requires query >= 1 && inverse > 0.0 && frequency >= 1 && d > 0.0
    ensures Share(query, inverse, frequency, d) > 0.0
  {
    var a := query as real * inverse;
    assert a > 0.0;
    var b := a * frequency as real;
    assert b > 0.0;
  }

  lemma TermPositive(s: Scorer, stats: Statistics, documents: nat, tokens: seq<string>, t: Term)
    requires LogPositive(s) && Average(stats, documents) > 0.0 && t.frequency >= 1 && stats.frequency[t.text] <= documents
    ensures TermScore(s, stats, documents, tokens, t) >= 0.0
    ensures TermScore(s, stats, documents, tokens, t) > 0.0 <==> t.text in tokens
  {
    var f, df := Occurrences(tokens, t.text), stats.frequency[t.text];
    assert f > 0 <==> t.text in tokens;
    if f > 0 {
      var x := (documents as real - df as real + 0.5) / (df as real + 0.5);
      QuotientPositive(documents as real - df as real + 0.5, df as real + 0.5);
      assert s.ln(1.0 + x) > 0.0;
      DenominatorPositive(f, |tokens|, Average(stats, documents));
      SharePositive(t.frequency, Inverse(s, documents, df), f, Denominator(f, |tokens|, Average(stats, documents)));
    }
  }

  lemma QuotientPositive(a: real, b: real)
    requires a > 0.0 && b > 0.0
    ensures a / b > 0.0
  {}

  /** A document is ranked lexically exactly when it contains a term of the query. */
  lemma {:induction false} ScoredIffMatching(s: Scorer, stats: Statistics, documents: nat, tokens: seq<string>, terms: seq<Term>)
    requires LogPositive(s) && Average(stats, documents) > 0.0
    requires forall i :: 0 <= i < |terms| ==> terms[i].frequency >= 1 && stats.frequency[terms[i].text] <= documents
    ensures TextScore(s, stats, documents, tokens, terms) >= 0.0
    ensures TextScore(s, stats, documents, tokens, terms) > 0.0 <==> exists i :: 0 <= i < |terms| && terms[i].text in tokens
  {
    if terms != [] {
      var n := |terms| - 1;
      ScoredIffMatching(s, stats, documents, tokens, terms[..n]);
      TermPositive(s, stats, documents, tokens, terms[n]);
      if exists i :: 0 <= i < n && terms[i].text in tokens {
        var i :| 0 <= i < n && terms[i].text in tokens;
        assert terms[..n][i].text in tokens;
      }
    }
  }
}
