/** Resumable embedding refines plain embedding: whatever was interrupted before, a complete run
    yields the embedder applied pointwise, and what was committed is never asked for again. */
module EmbeddingTheorem {
  import opened Ordering
  import opened Grouping
  import opened EmbeddingRun

  // -------------------------------------------------------------------- coherence

  /** The check covers the shape, and cache keys are collision free. */
  ghost predicate Sound(m: Model) {
    && (forall v :: m.valid(v) ==> |v| == m.dimensions)
    && forall a, b, c, x, y, z :: m.key(a, b, c) == m.key(x, y, z) ==> a == x && b == y && c == z
  }

  /** Every cached row under this profile's keys is what the embedder answers. */
  ghost predicate Coherent(m: Model, cache: Cache) {
    forall id, sha, text :: m.key(id, sha, text) in cache ==>
      cache[m.key(id, sha, text)] == Cached(m.dimensions, m.embed(text)) && m.valid(m.embed(text))
  }

  predicate Acceptable(m: Model, d: Document) {
    d.text != "" && m.bytes(TextOf(m, d)) <= m.maximumTokens && m.valid(m.embed(TextOf(m, d)))
  }

  /** Plain embedding. */
  function Pointwise(m: Model, documents: seq<Document>): (r: seq<Embedding>)
    ensures |r| == |documents|
  {
    seq(|documents|, i requires 0 <= i < |documents| => Embedding(documents[i].id, documents[i].sha, m.embed(TextOf(m, documents[i]))))
  }

  ghost predicate Includes(big: Cache, small: Cache) {
    forall k :: k in small ==> k in big && big[k] == small[k]
  }

  ghost predicate HasAll(m: Model, cache: Cache, documents: seq<Document>) {
    forall i :: 0 <= i < |documents| ==> KeyOf(m, documents[i]) in cache
  }

  // --------------------------------------------------------------------- one page

  lemma {:induction false} FilledKeeps(m: Model, cache: Cache, misses: seq<Document>)
    requires forall i :: 0 <= i < |misses| ==> KeyOf(m, misses[i]) !in cache
    ensures Includes(Filled(m, cache, misses), cache) && HasAll(m, Filled(m, cache, misses), misses)
  {
    if misses != [] { FilledKeeps(m, cache, misses[..|misses|-1]); }
  }

  lemma FilledOne(m: Model, cache: Cache, d: Document)
    requires Sound(m) && Coherent(m, cache) && m.valid(m.embed(TextOf(m, d)))
    ensures Coherent(m, cache[KeyOf(m, d) := Cached(m.dimensions, m.embed(TextOf(m, d)))])
  {}

  lemma {:induction false} FilledCoherent(m: Model, cache: Cache, misses: seq<Document>)
    requires Sound(m) && Coherent(m, cache)
    requires forall i :: 0 <= i < |misses| ==> m.valid(m.embed(TextOf(m, misses[i])))
    ensures Coherent(m, Filled(m, cache, misses))
  {
    if misses != [] {
      var n := |misses| - 1;
      FilledCoherent(m, cache, misses[..n]);
      FilledOne(m, Filled(m, cache, misses[..n]), misses[n]);
    }
  }

  lemma MissFacts(m: Model, cache: Cache, page: seq<Document>)
    ensures forall d :: d in Misses(m, cache, page) <==> d in page && KeyOf(m, d) !in cache
  {
    SelectMembers(page, (d: Document) => KeyOf(m, d) in cache, false);
  }

  lemma MissesFresh(m: Model, cache: Cache, page: seq<Document>)
    ensures var misses := Misses(m, cache, page);
      forall i :: 0 <= i < |misses| ==> KeyOf(m, misses[i]) !in cache && misses[i] in page
  {
    MissFacts(m, cache, page);
    var misses := Misses(m, cache, page);
    forall i | 0 <= i < |misses| ensures KeyOf(m, misses[i]) !in cache && misses[i] in page {
      assert misses[i] in misses;
    }
  }

  lemma PageFilled(m: Model, cache: Cache, page: seq<Document>)
    ensures var after := Filled(m, cache, Misses(m, cache, page)); Includes(after, cache) && HasAll(m, after, page)
  {
    var misses := Misses(m, cache, page);
    MissesFresh(m, cache, page);
    FilledKeeps(m, cache, misses);
    MissFacts(m, cache, page);
    forall i | 0 <= i < |page| ensures KeyOf(m, page[i]) in Filled(m, cache, misses) {
      if KeyOf(m, page[i]) !in cache {
        assert page[i] in misses;
        var k :| 0 <= k < |misses| && misses[k] == page[i];
      }
    }
  }

  /** A page never breaks the cache, never forgets, and asks only for what is missing. */
  lemma StepKeeps(m: Model, cache: Cache, page: seq<Document>)
    requires Sound(m) && Coherent(m, cache)
    ensures Kept(m, cache, StepPage(m, cache, page).cache, StepPage(m, cache, page).sent)
  {
    var misses := Misses(m, cache, page);
    MissesFresh(m, cache, page);
    forall k | k in KeysOf(m, misses) ensures k !in cache {
      var i :| 0 <= i < |misses| && KeyOf(m, misses[i]) == k;
    }
    if AllValid(m, Responses(m, misses)) {
      forall i | 0 <= i < |misses| ensures m.valid(m.embed(TextOf(m, misses[i]))) {
        assert m.valid(Responses(m, misses)[i]);
      }
      FilledCoherent(m, cache, misses);
      FilledKeeps(m, cache, misses);
    }
  }

  lemma VectorIs(m: Model, cache: Cache, d: Document)
    requires Coherent(m, cache)
    ensures VectorFor(m, cache, d) == m.embed(TextOf(m, d))
    ensures KeyOf(m, d) in cache ==> m.valid(m.embed(TextOf(m, d))) && cache[KeyOf(m, d)].dimensions == m.dimensions
  {}

  lemma RowFaultIs(m: Model, cache: Cache, d: Document)
    requires Sound(m) && Coherent(m, cache)
    ensures RowFault(m, cache, d).None? <==> d.text != "" && m.bytes(TextOf(m, d)) <= m.maximumTokens
  {
    VectorIs(m, cache, d);
  }

  lemma {:induction false} NoRowFault(m: Model, cache: Cache, page: seq<Document>)
    requires Sound(m) && Coherent(m, cache)
    ensures FirstFault(m, cache, page).None?
      <==> forall i :: 0 <= i < |page| ==> page[i].text != "" && m.bytes(TextOf(m, page[i])) <= m.maximumTokens
  {
    if page != [] {
      var n := |page| - 1;
      NoRowFault(m, cache, page[..n]);
      RowFaultIs(m, cache, page[n]);
    }
  }

  ghost predicate AllAcceptable(m: Model, documents: seq<Document>) {
    forall i :: 0 <= i < |documents| ==> Acceptable(m, documents[i])
  }

  lemma RowsArePointwise(m: Model, cache: Cache, page: seq<Document>)
    requires Coherent(m, cache)
    ensures Embeddings(m, cache, page) == Pointwise(m, page)
  {
    forall i | 0 <= i < |page| ensures Embeddings(m, cache, page)[i] == Pointwise(m, page)[i] {
      VectorIs(m, cache, page[i]);
    }
  }

  lemma ResponsesValid(m: Model, cache: Cache, page: seq<Document>)
    requires Sound(m) && Coherent(m, cache)
    ensures AllValid(m, Responses(m, Misses(m, cache, page))) <==>
      forall i :: 0 <= i < |page| ==> m.valid(m.embed(TextOf(m, page[i])))
  {
    var misses := Misses(m, cache, page);
    MissFacts(m, cache, page);
    MissesFresh(m, cache, page);
    if AllValid(m, Responses(m, misses)) {
      forall i | 0 <= i < |page| ensures m.valid(m.embed(TextOf(m, page[i]))) {
        if KeyOf(m, page[i]) in cache {
          VectorIs(m, cache, page[i]);
        } else {
          assert page[i] in misses;
          var k :| 0 <= k < |misses| && misses[k] == page[i];
          assert m.valid(Responses(m, misses)[k]);
        }
      }
    } else {
      var k :| 0 <= k < |misses| && !m.valid(Responses(m, misses)[k]);
      var i :| 0 <= i < |page| && page[i] == misses[k];
    }
  }

  /** Over a coherent cache a page succeeds exactly when each of its documents is acceptable, and
      then its rows are the plain embeddings and all of it is committed. */
  lemma StepRefines(m: Model, cache: Cache, page: seq<Document>)
    requires Sound(m) && Coherent(m, cache)
    ensures var step := StepPage(m, cache, page);
      && (step.result.PageOk? <==> AllAcceptable(m, page))
      && (step.result.PageOk? ==> step.result.rows == Pointwise(m, page) && HasAll(m, step.cache, page))
  {
    NoRowFault(m, cache, page);
    ResponsesValid(m, cache, page);
    RowsArePointwise(m, cache, page);
    PageFilled(m, cache, page);
    var rows := Pointwise(m, page);
    forall i | 0 <= i < |page| ensures m.valid(Vectors(rows)[i]) <==> m.valid(m.embed(TextOf(m, page[i]))) {}
  }

  // ----------------------------------------------------------------------- a run

  ghost predicate Kept(m: Model, cache: Cache, cache': Cache, sent: seq<string>) {
    Coherent(m, cache') && Includes(cache', cache) && forall k :: k in sent ==> k !in cache
  }

  lemma KeptThen(m: Model, a: Cache, b: Cache, c: Cache, sent: seq<string>, more: seq<string>)
    requires Kept(m, a, b, sent) && Kept(m, b, c, more)
    ensures Kept(m, a, c, sent + more)
  {
    forall k | k in sent + more ensures k !in a {}
  }

  /** The three ways a run over some documents can go on. */
  lemma RunUnfolds(m: Model, cache: Cache, documents: seq<Document>, batch: nat, crash: Crash, page: seq<Document>, step: PageStep)
    requires batch >= 1 && documents != [] && page == Take(documents, batch) && step == StepPage(m, cache, page)
    ensures |page| >= 1 && page == documents[..|page|]
    ensures crash.pages == 0 ==>
      Run(m, cache, documents, batch, crash) == RunResult(cache, if crash.midPage then step.sent else [], [], Crashed)
    ensures crash.pages > 0 && step.result.PageFault? ==>
      Run(m, cache, documents, batch, crash) == RunResult(step.cache, step.sent, [], Failed(step.result.fault))
    ensures crash.pages > 0 && step.result.PageOk? ==>
      var rest := Run(m, step.cache, documents[|page|..], batch, Crash(crash.pages - 1, crash.midPage));
      Run(m, cache, documents, batch, crash) == RunResult(rest.cache, step.sent + rest.sent, step.result.rows + rest.rows, rest.end)
  {}

  /** Every run keeps the cache coherent, forgets nothing and asks only for what was not committed. */
  lemma {:induction false} RunKeeps(m: Model, cache: Cache, documents: seq<Document>, batch: nat, crash: Crash)
    requires batch >= 1 && Sound(m) && Coherent(m, cache)
    ensures Kept(m, cache, Run(m, cache, documents, batch, crash).cache, Run(m, cache, documents, batch, crash).sent)
    decreases |documents|
  {
    if documents != [] {
      var page := Take(documents, batch);
      var step := StepPage(m, cache, page);
      StepKeeps(m, cache, page);
      RunUnfolds(m, cache, documents, batch, crash, page, step);
      if crash.pages > 0 && step.result.PageOk? {
        var rest := Run(m, step.cache, documents[|page|..], batch, Crash(crash.pages - 1, crash.midPage));
        RunKeeps(m, step.cache, documents[|page|..], batch, Crash(crash.pages - 1, crash.midPage));
        KeptThen(m, cache, step.cache, rest.cache, step.sent, rest.sent);
      }
    }
  }

  lemma SplitDocuments(m: Model, documents: seq<Document>, n: nat)
    requires n <= |documents|
    ensures Pointwise(m, documents) == Pointwise(m, documents[..n]) + Pointwise(m, documents[n..])
    ensures AllAcceptable(m, documents) <==> AllAcceptable(m, documents[..n]) && AllAcceptable(m, documents[n..])
  {
    forall i | 0 <= i < |documents|
      ensures documents[i] == if i < n then documents[..n][i] else documents[n..][i - n]
    {}
    if AllAcceptable(m, documents[..n]) && AllAcceptable(m, documents[n..]) {
      forall i | 0 <= i < |documents| ensures Acceptable(m, documents[i]) {
        if i < n { assert Acceptable(m, documents[..n][i]); } else { assert Acceptable(m, documents[n..][i - n]); }
      }
    }
  }

  lemma HasAllSplit(m: Model, cache: Cache, big: Cache, documents: seq<Document>, n: nat)
    requires n <= |documents| && Includes(big, cache) && HasAll(m, cache, documents[..n]) && HasAll(m, big, documents[n..])
    ensures HasAll(m, big, documents)
  {
    forall i | 0 <= i < |documents| ensures KeyOf(m, documents[i]) in big {
      if i < n { assert documents[..n][i] == documents[i]; } else { assert documents[n..][i - n] == documents[i]; }
    }
  }

  /** What a complete run over the documents ends with. */
  ghost predicate Refined(m: Model, documents: seq<Document>, r: RunResult) {
    && (r.end == Finished <==> AllAcceptable(m, documents))
    && (r.end == Finished ==> r.rows == Pointwise(m, documents) && HasAll(m, r.cache, documents))
  }

  lemma RefinedThen(m: Model, documents: seq<Document>, n: nat, step: PageStep, rest: RunResult, r: RunResult)
    requires n <= |documents| && step.result.PageOk? && step.result.rows == Pointwise(m, documents[..n])
    requires AllAcceptable(m, documents[..n]) && HasAll(m, step.cache, documents[..n])
    requires Refined(m, documents[n..], rest) && Includes(rest.cache, step.cache)
    requires r.cache == rest.cache && r.rows == step.result.rows + rest.rows && r.end == rest.end
    ensures Refined(m, documents, r)
  {
    SplitDocuments(m, documents, n);
    if r.end == Finished { HasAllSplit(m, step.cache, rest.cache, documents, n); }
  }

  /** An uninterrupted run ends well exactly when all documents are acceptable, and then it equals
      plain embedding, from every coherent cache and for every batch size. */
  lemma {:induction false} RunRefines(m: Model, cache: Cache, documents: seq<Document>, batch: nat, crash: Crash)
    requires batch >= 1 && Sound(m) && Coherent(m, cache) && crash.pages >= |documents|
    ensures Refined(m, documents, Run(m, cache, documents, batch, crash))
    decreases |documents|
  {
    if documents != [] {
      var page := Take(documents, batch);
      var step := StepPage(m, cache, page);
      RunUnfolds(m, cache, documents, batch, crash, page, step);
      StepRefines(m, cache, page);
      StepKeeps(m, cache, page);
      if step.result.PageOk? {
        var rest := Run(m, step.cache, documents[|page|..], batch, Crash(crash.pages - 1, crash.midPage));
        RunRefines(m, step.cache, documents[|page|..], batch, Crash(crash.pages - 1, crash.midPage));
        RunKeeps(m, step.cache, documents[|page|..], batch, Crash(crash.pages - 1, crash.midPage));
        RefinedThen(m, documents, |page|, step, rest, Run(m, cache, documents, batch, crash));
      } else {
        SplitDocuments(m, documents, |page|);
      }
    }
  }

  /** A run that got past its first page: the cache at its end is that of the run over the rest. */
  lemma PastFirstPage(m: Model, cache: Cache, documents: seq<Document>, batch: nat, crash: Crash)
    returns (page: seq<Document>, next: Cache, fewer: Crash)
    requires batch >= 1 && Sound(m) && Coherent(m, cache) && documents != [] && crash.pages > 0
    requires AllAcceptable(m, Take(documents, batch))
    ensures page == Take(documents, batch) && page != [] && fewer == Crash(crash.pages - 1, crash.midPage)
    ensures Coherent(m, next) && HasAll(m, next, page)
    ensures Run(m, cache, documents, batch, crash).cache == Run(m, next, documents[|page|..], batch, fewer).cache
    ensures Includes(Run(m, cache, documents, batch, crash).cache, next)
  {
    page, fewer := Take(documents, batch), Crash(crash.pages - 1, crash.midPage);
    var step := StepPage(m, cache, page);
    next := step.cache;
    RunUnfolds(m, cache, documents, batch, crash, page, step);
    StepRefines(m, cache, page);
    StepKeeps(m, cache, page);
    RunKeeps(m, step.cache, documents[|page|..], batch, fewer);
  }

  /** The documents of the first pages. */
  function Reached(pages: nat, batch: nat): nat { if pages == 0 then 0 else batch + Reached(pages - 1, batch) }

  lemma PagesThen(m: Model, documents: seq<Document>, batch: nat, pages: nat, fewer: Crash, page: seq<Document>, next: Cache, last: Cache)
    requires pages == fewer.pages + 1 && page == Take(documents, batch) && Includes(last, next) && HasAll(m, next, page)
    requires HasAll(m, last, Take(documents[|page|..], Reached(fewer.pages, batch)))
    ensures HasAll(m, last, Take(documents, Reached(pages, batch)))
  {
    var more := Take(documents[|page|..], Reached(fewer.pages, batch));
    assert Take(documents, Reached(pages, batch)) == page + more;
  }

  lemma AcceptablePages(m: Model, documents: seq<Document>, batch: nat, pages: nat, left: nat, page: seq<Document>)
    requires pages == left + 1 && page == Take(documents, batch) && AllAcceptable(m, Take(documents, Reached(pages, batch)))
    ensures AllAcceptable(m, page) && AllAcceptable(m, Take(documents[|page|..], Reached(left, batch)))
  {
    var more := Take(documents[|page|..], Reached(left, batch));
    var all := Take(documents, Reached(pages, batch));
    assert all == page + more && all[..|page|] == page && all[|page|..] == more;
    SplitDocuments(m, all, |page|);
  }

  /** A run that crashes after p acceptable pages has committed every document of those pages. */
  lemma {:induction false} CrashKeepsPages(m: Model, cache: Cache, documents: seq<Document>, batch: nat, crash: Crash, last: Cache)
    requires batch >= 1 && Sound(m) && Coherent(m, cache) && AllAcceptable(m, Take(documents, Reached(crash.pages, batch)))
    requires last == Run(m, cache, documents, batch, crash).cache
    ensures HasAll(m, last, Take(documents, Reached(crash.pages, batch)))
    decreases |documents|
  {
    if documents != [] && crash.pages > 0 {
      AcceptablePages(m, documents, batch, crash.pages, crash.pages - 1, Take(documents, batch));
      var page, next, fewer := PastFirstPage(m, cache, documents, batch, crash);
      AcceptablePages(m, documents, batch, crash.pages, fewer.pages, page);
      CrashKeepsPages(m, next, documents[|page|..], batch, fewer, last);
      PagesThen(m, documents, batch, crash.pages, fewer, page, next, last);
    }
  }

  // ------------------------------------------------------------- crashes and reruns

  datatype Attempt = Attempt(batch: nat, crash: Crash)

  /** The committed cache after a sequence of attempts, however each of them ends. */
  function CacheAfter(m: Model, cache: Cache, documents: seq<Document>, plan: seq<Attempt>): Cache
    requires forall a <- plan :: a.batch >= 1
  {
    if plan == [] then cache
    else
      var n := |plan| - 1;
      Run(m, CacheAfter(m, cache, documents, plan[..n]), documents, plan[n].batch, plan[n].crash).cache
  }

  lemma {:induction false} HistoryCoherent(m: Model, cache: Cache, documents: seq<Document>, plan: seq<Attempt>)
    requires Sound(m) && Coherent(m, cache) && forall a <- plan :: a.batch >= 1
    ensures Coherent(m, CacheAfter(m, cache, documents, plan))
  {
    if plan != [] {
      var n := |plan| - 1;
      HistoryCoherent(m, cache, documents, plan[..n]);
      RunKeeps(m, CacheAfter(m, cache, documents, plan[..n]), documents, plan[n].batch, plan[n].crash);
    }
  }

  lemma {:induction false} HistoryGrows(m: Model, cache: Cache, documents: seq<Document>, plan: seq<Attempt>, i: nat)
    requires Sound(m) && Coherent(m, cache) && i <= |plan| && forall a <- plan :: a.batch >= 1
    ensures Includes(CacheAfter(m, cache, documents, plan), CacheAfter(m, cache, documents, plan[..i]))
  {
    if i < |plan| {
      var n := |plan| - 1;
      assert plan[..n][..i] == plan[..i];
      HistoryGrows(m, cache, documents, plan[..n], i);
      HistoryCoherent(m, cache, documents, plan[..n]);
      RunKeeps(m, CacheAfter(m, cache, documents, plan[..n]), documents, plan[n].batch, plan[n].crash);
    } else {
      assert plan[..i] == plan;
    }
  }

  /** Whatever is committed after attempt i is not sent to the embedder by any later attempt j. */
  lemma NeverAskedAgain(m: Model, cache: Cache, documents: seq<Document>, plan: seq<Attempt>, i: nat, j: nat, k: string)
    requires Sound(m) && Coherent(m, cache) && i <= j < |plan| && forall a <- plan :: a.batch >= 1
    requires k in CacheAfter(m, cache, documents, plan[..i])
    ensures k !in Run(m, CacheAfter(m, cache, documents, plan[..j]), documents, plan[j].batch, plan[j].crash).sent
  {
    assert plan[..j][..i] == plan[..i];
    HistoryGrows(m, cache, documents, plan[..j], i);
    HistoryCoherent(m, cache, documents, plan[..j]);
    RunKeeps(m, CacheAfter(m, cache, documents, plan[..j]), documents, plan[j].batch, plan[j].crash);
  }

  /** After any sequence of crashes and reruns a complete run equals plain embedding. */
  lemma ResumedEqualsPlain(m: Model, cache: Cache, documents: seq<Document>, plan: seq<Attempt>, batch: nat, crash: Crash)
    requires Sound(m) && Coherent(m, cache) && batch >= 1 && crash.pages >= |documents|
    requires (forall a <- plan :: a.batch >= 1) && AllAcceptable(m, documents)
    ensures var r := Run(m, CacheAfter(m, cache, documents, plan), documents, batch, crash);
      r.end == Finished && r.rows == Pointwise(m, documents)
  {
    HistoryCoherent(m, cache, documents, plan);
    RunRefines(m, CacheAfter(m, cache, documents, plan), documents, batch, crash);
  }

  /** The resume database over a sequence of processes: each reopens it and runs until it ends or crashes. */
  method RunAttempts(m: Model, store: ResumeStore, rows: seq<Document>, plan: seq<Attempt>)
    requires Table(rows) && forall a <- plan :: a.batch >= 1
    modifies store
    ensures store.committed == CacheAfter(m, old(store.committed), Ordered(rows), plan)
  {
    for i := 0 to |plan|
      invariant store.committed == CacheAfter(m, old(store.committed), Ordered(rows), plan[..i])
    {
      PrefixStep(plan, i);
      store.Reopen();
      assert plan[i] in plan;
      var end, table, sent := EmbedDocuments(m, store, rows, plan[i].batch, plan[i].crash);
    }
    TakeAll(plan);
  }
}
