/** The search operation: filter, score, rank, fuse, and point back at occurrences. */
module SearchIndex {
  import opened Ordering
  import opened Wrappers
  import opened Grouping
  import opened SearchTypes
  import opened SearchScoring

  const FETCH := 4096

  datatype SearchError = InvalidMethods | IncompatibleFusion | InvalidLimit | Closed | InvalidTopN | EntityFilterUnavailable
                       | MissingQueryVector | InvalidQueryVector | MissingEmbedding

  // -------------------------------------------------------------------- the orders

  datatype Ranked = Ranked(id: string, score: int, dense: Option<int>, lexical: Option<int>, fused: Option<int>)

  /** ranking_score_desc_document_id_asc */
  predicate Ahead(a: Ranked, b: Ranked) { a.score > b.score || (a.score == b.score && StringLe(a.id, b.id)) }

  /** The same order on rows, by any integer score. */
  predicate RowAhead(score: ScoreRow -> int, a: ScoreRow, b: ScoreRow) {
    score(a) > score(b) || (score(a) == score(b) && StringLe(a.id, b.id))
  }

  function DenseScore(r: ScoreRow): int { if r.dense.Some? then MAX_DISTANCE - r.dense.value else 0 }

  function LexicalValue(r: ScoreRow): int { if r.lexical.Some? then r.lexical.value else 0 }

  function Listed(score: ScoreRow -> int, keep: ScoreRow -> bool, rows: seq<ScoreRow>): seq<ScoreRow> {
    Sort((a: ScoreRow, b: ScoreRow) => RowAhead(score, a, b), Select(rows, keep, true))
  }

  predicate HasDense(r: ScoreRow) { r.dense.Some? }

  predicate HasLexical(r: ScoreRow) { r.lexical.Some? }

  predicate HasAny(r: ScoreRow) { r.dense.Some? || r.lexical.Some? }

  function DenseList(rows: seq<ScoreRow>): seq<ScoreRow> { Listed(DenseScore, HasDense, rows) }

  function LexicalList(rows: seq<ScoreRow>): seq<ScoreRow> { Listed(LexicalValue, HasLexical, rows) }

  // ------------------------------------------------------- reciprocal rank fusion

  /** row_number(): the place of x in a list, from 1. */
  function RowNumber(list: seq<ScoreRow>, x: ScoreRow): (n: nat)
    ensures 1 <= n
    ensures x in list ==> n <= |list| && list[n-1] == x
  {
    if list == [] || list[0] == x then 1 else 1 + RowNumber(list[1..], x)
  }

  function Reciprocal(rank: nat): real { 1.0 / (60 + rank) as real }

  function FusedReal(rows: seq<ScoreRow>, r: ScoreRow): real {
    (if HasDense(r) then Reciprocal(RowNumber(DenseList(rows), r)) else 0.0)
    + if HasLexical(r) then Reciprocal(RowNumber(LexicalList(rows), r)) else 0.0
  }

  /** CAST(round(x) AS BIGINT) for x >= 0 */
  function Round(x: real): int { (x + 0.5).Floor }

  function Fused(rows: seq<ScoreRow>, r: ScoreRow): int { Round(1000000.0 * FusedReal(rows, r)) }

  // --------------------------------------------------------------------- rankings

  datatype Mode = DenseOnly | LexicalOnly | FusedBoth

  function ModeOf(methods: seq<Method>): Mode {
    if methods == [Dense] then DenseOnly else if methods == [Lexical] then LexicalOnly else FusedBoth
  }

  function ScoreIn(mode: Mode, rows: seq<ScoreRow>): ScoreRow -> int {
    match mode
    case DenseOnly => DenseScore
    case LexicalOnly => LexicalValue
    case FusedBoth => (r: ScoreRow) => Fused(rows, r)
  }

  function KeptIn(mode: Mode): ScoreRow -> bool {
    match mode
    case DenseOnly => HasDense
    case LexicalOnly => HasLexical
    case FusedBoth => HasAny
  }

  function Report(mode: Mode, rows: seq<ScoreRow>, r: ScoreRow): Ranked {
    match mode
    case DenseOnly => Ranked(r.id, DenseScore(r), r.dense, None, None)
    case LexicalOnly => Ranked(r.id, LexicalValue(r), None, r.lexical, None)
    case FusedBoth => Ranked(r.id, Fused(rows, r), r.dense, r.lexical, Some(Fused(rows, r)))
  }

  function TopRows(mode: Mode, rows: seq<ScoreRow>, n: nat): seq<ScoreRow> {
    Take(Listed(ScoreIn(mode, rows), KeptIn(mode), rows), n)
  }

  function Ranking(mode: Mode, rows: seq<ScoreRow>, n: nat): seq<Ranked> {
    var top := TopRows(mode, rows, n);
    seq(|top|, i requires 0 <= i < |top| => Report(mode, rows, top[i]))
  }

  // -------------------------------------------------------------------- the answer

  datatype Candidate = Candidate(rank: nat, row: Ranked, matching: nat, occurrences: seq<string>, exhausted: bool)

  datatype Answer = Answer(candidates: seq<Candidate>, eligibleDocuments: nat, eligibleOccurrences: nat)

  datatype SearchResult = Found(answer: Answer) | Refused(error: SearchError)

  function OccurrencesOf(eligible: seq<Link>, id: string): seq<string> {
    var links := Select(eligible, (l: Link) => l.document, id);
    Sort(StringLe, seq(|links|, i requires 0 <= i < |links| => links[i].occurrence))
  }

  function CandidateOf(eligible: seq<Link>, rank: nat, row: Ranked, limit: nat): Candidate {
    var all := OccurrencesOf(eligible, row.id);
    Candidate(rank, row, |all|, Take(all, limit), |Take(all, limit)| == |all|)
  }

  function CandidatesOf(eligible: seq<Link>, ranked: seq<Ranked>, limit: nat): (r: seq<Candidate>)
    ensures |r| == |ranked| && forall i :: 0 <= i < |r| ==> r[i] == CandidateOf(eligible, i + 1, ranked[i], limit)
  {
    seq(|ranked|, i requires 0 <= i < |ranked| => CandidateOf(eligible, i + 1, ranked[i], limit))
  }

  /** Query terms with their multiplicity, as the Counter of the query's tokens. */
  function TermsOf(s: Scorer, query: string): seq<Term> {
    var counts := multiset(s.tokens(query));
    var words := SortedNames(set w | w in s.tokens(query));
    seq(|words|, i requires 0 <= i < |words| => Term(words[i], counts[words[i]]))
  }

  function QueryOf(s: Scorer, request: Request, vector: Option<Vector>, texts: seq<string>): Query {
    var terms := TermsOf(s, request.query);
    var lexical := Lexical in request.methods;
    Query(terms, if Dense in request.methods then vector else None, lexical,
          if lexical then StatisticsOf(s, terms, texts) else Statistics(multiset{}, 0), |texts|)
  }

  lemma EligibleKnown(c: Corpus, f: Filters)
    ensures forall id :: id in DocumentsIn(Eligible(c, f)) ==> id in c.documents
  {
    SelectMembers(c.links, (l: Link) => Joined(c, f, l), true);
  }

  function EligibleIds(c: Corpus, f: Filters): (r: seq<string>)
    ensures Distinct(r) && forall id <- r :: id in c.documents
    ensures forall id :: id in r <==> id in DocumentsIn(Eligible(c, f))
  {
    EligibleKnown(c, f);
    SortedNames(DocumentsIn(Eligible(c, f)))
  }

  /** The specification of a search. */
  function SearchOf(c: Corpus, s: Scorer, request: Request, vector: Option<Vector>, limit: nat): SearchResult
    requires request.topN >= 0
  {
    var eligible, ids := Eligible(c, request.filters), EligibleIds(c, request.filters);
    match Scores(s, QueryOf(s, request, vector, TextsOf(c.documents, ids)), c.documents, ids)
    case None => Refused(MissingEmbedding)
    case Some(rows) =>
      var ranked := Ranking(ModeOf(request.methods), rows, request.topN);
      Found(Answer(CandidatesOf(eligible, ranked, limit), |ids|, |eligible|))
  }

  /** The refusals, in the order in which they are noticed; those about the query vector come after
      the eligible table has been replaced. */
  function Refusal(c: Corpus, closed: bool, request: Request, vector: Option<Vector>, valid: Vector -> bool, limit: int): Option<SearchError> {
    if request.methods == [] then Some(InvalidMethods)
    else if (|request.methods| == 1 && request.reciprocalRank) || (|request.methods| == 2 && !request.reciprocalRank) then
      Some(IncompatibleFusion)
    else if limit < 1 then Some(InvalidLimit)
    else if closed then Some(Closed)
    else if !(1 <= request.topN <= 1000) then Some(InvalidTopN)
    else if request.filters.entities != {} && c.entities == {} then Some(EntityFilterUnavailable)
    else if Dense in request.methods && vector.None? then Some(MissingQueryVector)
    else if Dense in request.methods && !valid(vector.value) then Some(InvalidQueryVector)
    else None
  }

  // ---------------------------------------------------------------------- the index

  /** An open index with its two scratch tables. */
  class EvidenceIndex {
    const corpus: Corpus
    const scorer: Scorer
    var closed: bool
    var eligible: seq<Link>
    var scores: seq<ScoreRow>

    constructor (corpus: Corpus, scorer: Scorer)
      ensures this.corpus == corpus && this.scorer == scorer && !closed
    {
      this.corpus, this.scorer := corpus, scorer;
      closed, eligible, scores := false, [], [];
    }

    method Close()
      modifies this`closed
      ensures closed
    {
      closed := true;
    }

    /** Materialise the occurrence-first universe. */
    method PrepareEligible(f: Filters) returns (occurrences: nat, documents: nat)
      modifies this`eligible
      ensures eligible == Eligible(corpus, f)
      ensures occurrences == |eligible| && documents == |DocumentsIn(eligible)|
    {
      eligible := [];
      for i := 0 to |corpus.links|
        invariant eligible == Select(corpus.links[..i], (l: Link) => Joined(corpus, f, l), true)
      {
        PrefixStep(corpus.links, i);
        if Joined(corpus, f, corpus.links[i]) {
          eligible := eligible + [corpus.links[i]];
        }
      }
      TakeAll(corpus.links);
      occurrences, documents := |eligible|, |DocumentsIn(eligible)|;
    }

    method ScoreEligible(request: Request, vector: Option<Vector>) returns (ok: bool)
      modifies this`scores
      ensures var ids := EligibleIds(corpus, request.filters);
        var rows := Scores(scorer, QueryOf(scorer, request, vector, TextsOf(corpus.documents, ids)), corpus.documents, ids);
        ok == rows.Some? && (ok ==> scores == rows.value)
    {
      var ids := EligibleIds(corpus, request.filters);
      var texts := TextsOf(corpus.documents, ids);
      var terms := TermsOf(scorer, request.query);
      var stats := Statistics(multiset{}, 0);
      if Lexical in request.methods {
        stats := CountTexts(scorer, terms, texts, FETCH);
      }
      var q := Query(terms, if Dense in request.methods then vector else None, Lexical in request.methods, stats, |texts|);
      var rows := ScoreDocuments(scorer, q, corpus.documents, ids, FETCH);
      ok := rows.Some?;
      scores := if ok then rows.value else [];
    }

    method Search(request: Request, vector: Option<Vector>, valid: Vector -> bool, limit: int) returns (r: SearchResult)
      modifies this`eligible, this`scores
      ensures var refusal := Refusal(corpus, closed, request, vector, valid, limit);
        r == if refusal.Some? then Refused(refusal.value) else SearchOf(corpus, scorer, request, vector, limit)
    {
      var refusal := Refusal(corpus, closed, request, vector, valid, limit);
      if refusal.Some? {
        return Refused(refusal.value);
      }
      var occurrences, documents := PrepareEligible(request.filters);
      var ok := ScoreEligible(request, vector);
      if !ok {
        return Refused(MissingEmbedding);
      }
      var ranked := Ranking(ModeOf(request.methods), scores, request.topN);
      var candidates := PointBack(ranked, limit);
      r := Found(Answer(candidates, documents, occurrences));
    }

    method PointBack(ranked: seq<Ranked>, limit: nat) returns (candidates: seq<Candidate>)
      ensures candidates == CandidatesOf(eligible, ranked, limit)
    {
      candidates := [];
      for i := 0 to |ranked|
        invariant |candidates| == i
        invariant forall k :: 0 <= k < i ==> candidates[k] == CandidateOf(eligible, k + 1, ranked[k], limit)
      {
        candidates := candidates + [CandidateOf(eligible, i + 1, ranked[i], limit)];
      }
    }
  }

  /** One search from the command line: open, search, and close whatever the outcome. */
  method SearchOnce(corpus: Corpus, scorer: Scorer, request: Request, vector: Option<Vector>, valid: Vector -> bool, limit: int)
    returns (r: SearchResult, index: EvidenceIndex)
    ensures fresh(index) && index.closed
    ensures var refusal := Refusal(corpus, false, request, vector, valid, limit);
      r == if refusal.Some? then Refused(refusal.value) else SearchOf(corpus, scorer, request, vector, limit)
  {
    index := new EvidenceIndex(corpus, scorer);
    r := index.Search(request, vector, valid, limit);
    index.Close();
  }
}
