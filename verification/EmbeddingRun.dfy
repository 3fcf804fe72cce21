/** Embedding the searchable documents page by page over a persistent vector cache. */
module EmbeddingRun {
  import opened Ordering
  import opened Wrappers
  import opened Grouping

  datatype Document = Document(id: string, sha: string, text: string, searchable: bool)

  type Vector = seq<real>

  /** The embedding profile and its pure functions: the embedder, the check of one vector against
      the bound dimensions and norm, the length of a text in UTF-8 bytes and the cache key. */
  datatype Model = Model(prefix: string, maximumTokens: nat, dimensions: nat,
                         embed: string -> Vector, valid: Vector -> bool, bytes: string -> nat,
                         key: (string, string, string) -> string)

  datatype Cached = Cached(dimensions: nat, vector: Vector)

  type Cache = map<string, Cached>

  datatype Embedding = Embedding(id: string, sha: string, vector: Vector)

  datatype Fault = EmptyText | TooLong | CorruptCache | InvalidResponse

  function TextOf(m: Model, d: Document): string { m.prefix + d.text }

  function KeyOf(m: Model, d: Document): string { m.key(d.id, d.sha, TextOf(m, d)) }

  // -------------------------------------------------------------- keyset pagination

  predicate IdLe(a: Document, b: Document) { StringLe(a.id, b.id) }

  function After(prior: Option<string>, d: Document): bool { d.searchable && (prior.Some? ==> StringLt(prior.value, d.id)) }

  /** SELECT ... WHERE searchable AND document_id > prior ORDER BY document_id LIMIT n */
  function PageAfter(rows: seq<Document>, prior: Option<string>, n: nat): seq<Document> {
    Take(Sort(IdLe, Select(rows, (d: Document) => After(prior, d), true)), n)
  }

  /** All searchable documents in identity order. */
  function Ordered(rows: seq<Document>): seq<Document> { Sort(IdLe, Select(rows, (d: Document) => After(None, d), true)) }

  ghost predicate UniqueIds(rows: seq<Document>) {
    forall a, b :: a in rows && b in rows && a.id == b.id ==> a == b
  }

  ghost predicate Table(rows: seq<Document>) { UniqueIds(rows) && Distinct(rows) }

  // -------------------------------------------------------------------------- one page

  function RowFault(m: Model, cache: Cache, d: Document): Option<Fault> {
    if d.text == "" then Some(EmptyText)
    else if m.bytes(TextOf(m, d)) > m.maximumTokens then Some(TooLong)
    else if KeyOf(m, d) in cache && !WellSized(m, cache[KeyOf(m, d)]) then Some(CorruptCache)
    else None
  }

  predicate WellSized(m: Model, c: Cached) { c.dimensions == m.dimensions == |c.vector| }

  function FirstFault(m: Model, cache: Cache, page: seq<Document>): Option<Fault> {
    if page == [] then None
    else
      var earlier := FirstFault(m, cache, page[..|page|-1]);
      if earlier.Some? then earlier else RowFault(m, cache, page[|page|-1])
  }

  function Misses(m: Model, cache: Cache, page: seq<Document>): seq<Document> {
    Select(page, (d: Document) => KeyOf(m, d) in cache, false)
  }

  function KeysOf(m: Model, documents: seq<Document>): seq<string> {
    seq(|documents|, i requires 0 <= i < |documents| => KeyOf(m, documents[i]))
  }

  /** The committed rows of one page: every miss under its key. */
  function Filled(m: Model, cache: Cache, misses: seq<Document>): Cache {
    if misses == [] then cache
    else
      var d := misses[|misses|-1];
      Filled(m, cache, misses[..|misses|-1])[KeyOf(m, d) := Cached(m.dimensions, m.embed(TextOf(m, d)))]
  }

  function VectorFor(m: Model, cache: Cache, d: Document): Vector {
    if KeyOf(m, d) in cache then cache[KeyOf(m, d)].vector else m.embed(TextOf(m, d))
  }

  function Embeddings(m: Model, cache: Cache, page: seq<Document>): (r: seq<Embedding>)
    ensures |r| == |page|
  {
    seq(|page|, i requires 0 <= i < |page| => Embedding(page[i].id, page[i].sha, VectorFor(m, cache, page[i])))
  }

  predicate AllValid(m: Model, vectors: seq<Vector>) { forall i :: 0 <= i < |vectors| ==> m.valid(vectors[i]) }

  function Vectors(rows: seq<Embedding>): seq<Vector> { seq(|rows|, i requires 0 <= i < |rows| => rows[i].vector) }

  function Responses(m: Model, misses: seq<Document>): seq<Vector> {
    seq(|misses|, i requires 0 <= i < |misses| => m.embed(TextOf(m, misses[i])))
  }

  datatype PageResult = PageOk(rows: seq<Embedding>) | PageFault(fault: Fault)

  datatype PageStep = PageStep(cache: Cache, sent: seq<string>, result: PageResult)

  /** One page: the texts sent, the cache after the commit, and the rows or the error. */
  function StepPage(m: Model, cache: Cache, page: seq<Document>): PageStep {
    var misses := Misses(m, cache, page);
    match FirstFault(m, cache, page)
    case Some(fault) => PageStep(cache, [], PageFault(fault))
    case None =>
      if !AllValid(m, Responses(m, misses)) then PageStep(cache, KeysOf(m, misses), PageFault(InvalidResponse))
      else
        var rows := Embeddings(m, cache, page);
        PageStep(Filled(m, cache, misses), KeysOf(m, misses),
                 if AllValid(m, Vectors(rows)) then PageOk(rows) else PageFault(InvalidResponse))
  }

  // --------------------------------------------------------------------------- a run

  datatype End = Finished | Crashed | Failed(fault: Fault)

  datatype RunResult = RunResult(cache: Cache, sent: seq<string>, rows: seq<Embedding>, end: End)

  /** Where a run is cut short: after `pages` commits, with or without an uncommitted request. */
  datatype Crash = Crash(pages: nat, midPage: bool)

  /** A run over the remaining documents. */
  function Run(m: Model, cache: Cache, documents: seq<Document>, batch: nat, crash: Crash): RunResult
    requires batch >= 1
    decreases |documents|
  {
    if documents == [] then RunResult(cache, [], [], Finished)
    else
      var page := Take(documents, batch);
      var step := StepPage(m, cache, page);
      if crash.pages == 0 then RunResult(cache, if crash.midPage then step.sent else [], [], Crashed)
      else if step.result.PageFault? then RunResult(step.cache, step.sent, [], Failed(step.result.fault))
      else
        var rest := Run(m, step.cache, documents[|page|..], batch, crash.(pages := crash.pages - 1));
        RunResult(rest.cache, step.sent + rest.sent, step.result.rows + rest.rows, rest.end)
  }

  // ------------------------------------------------------------- the resumable store

  /** The resume database: what is committed, and what the open transaction sees. */
  class ResumeStore {
    var committed: Cache
    var working: Cache

    constructor ()
      ensures committed == working == map[]
    {
      committed, working := map[], map[];
    }

    method Insert(key: string, row: Cached)
      modifies this`working
      ensures working == old(working)[key := row]
    {
      working := working[key := row];
    }

    method Commit()
      modifies this`committed
      ensures committed == old(working)
    {
      committed := working;
    }

    /** A new process sees the committed rows only. */
    method Reopen()
      modifies this`working
      ensures working == committed
    {
      working := committed;
    }
  }

  method InsertMisses(m: Model, store: ResumeStore, misses: seq<Document>, responses: seq<Vector>)
    requires responses == Responses(m, misses)
    modifies store`working
    ensures store.working == Filled(m, old(store.working), misses)
  {
    for i := 0 to |misses|
      invariant store.working == Filled(m, old(store.working), misses[..i])
    {
      PrefixStep(misses, i);
      store.Insert(KeyOf(m, misses[i]), Cached(m.dimensions, responses[i]));
    }
    TakeAll(misses);
  }

  method ReadPage(m: Model, cache: Cache, page: seq<Document>) returns (fault: Option<Fault>, misses: seq<Document>)
    ensures fault == FirstFault(m, cache, page)
    ensures fault.None? ==> misses == Misses(m, cache, page)
  {
    misses, fault := [], None;
    for i := 0 to |page|
      invariant fault.None? && FirstFault(m, cache, page[..i]) == None
      invariant misses == Misses(m, cache, page[..i])
    {
      PrefixStep(page, i);
      fault := RowFault(m, cache, page[i]);
      if fault.Some? {
        FaultPersists(m, cache, page, i + 1);
        return;
      }
      if KeyOf(m, page[i]) !in cache {
        misses := misses + [page[i]];
      }
    }
    TakeAll(page);
  }

  lemma {:induction false} FaultPersists(m: Model, cache: Cache, page: seq<Document>, i: nat)
    requires i <= |page| && FirstFault(m, cache, page[..i]).Some?
    ensures FirstFault(m, cache, page) == FirstFault(m, cache, page[..i])
  {
    if i < |page| {
      var n := |page| - 1;
      assert page[..n][..i] == page[..i];
      FaultPersists(m, cache, page[..n], i);
    } else {
      TakeAll(page);
    }
  }

  /** Ask the embedder for the misses of one page and commit its answer. */
  method EmbedMisses(m: Model, store: ResumeStore, misses: seq<Document>) returns (ok: bool)
    requires store.working == store.committed
    modifies store
    ensures ok <==> AllValid(m, Responses(m, misses))
    ensures store.committed == if ok then Filled(m, old(store.committed), misses) else old(store.committed)
    ensures store.working == store.committed
  {
    if misses == [] {
      return true;
    }
    var responses := Responses(m, misses);
    if !AllValid(m, responses) {
      return false;
    }
    InsertMisses(m, store, misses, responses);
    store.Commit();
    ok := true;
  }

  method EmbedPage(m: Model, store: ResumeStore, page: seq<Document>) returns (result: PageResult, ghost sent: seq<string>)
    requires store.working == store.committed
    modifies store
    ensures PageStep(store.committed, sent, result) == StepPage(m, old(store.committed), page)
    ensures store.working == store.committed
  {
    var fault, misses := ReadPage(m, store.working, page);
    if fault.Some? {
      return PageFault(fault.value), [];
    }
    sent := KeysOf(m, misses);
    var rows := Embeddings(m, store.working, page);
    var ok := EmbedMisses(m, store, misses);
    result := if ok && AllValid(m, Vectors(rows)) then PageOk(rows) else PageFault(InvalidResponse);
  }

  /** A run with what went before it. */
  ghost function Resumed(sent: seq<string>, table: seq<Embedding>, r: RunResult): RunResult {
    RunResult(r.cache, sent + r.sent, table + r.rows, r.end)
  }

  lemma ResumeStep(m: Model, cache: Cache, documents: seq<Document>, batch: nat, crash: Crash, sent: seq<string>, table: seq<Embedding>)
    requires batch >= 1 && documents != [] && crash.pages > 0
    requires StepPage(m, cache, Take(documents, batch)).result.PageOk?
    ensures var page := Take(documents, batch); var step := StepPage(m, cache, page);
      Resumed(sent, table, Run(m, cache, documents, batch, crash))
        == Resumed(sent + step.sent, table + step.result.rows,
                   Run(m, step.cache, documents[|page|..], batch, crash.(pages := crash.pages - 1)))
  {
    var page := Take(documents, batch);
    var step := StepPage(m, cache, page);
    var rest := Run(m, step.cache, documents[|page|..], batch, crash.(pages := crash.pages - 1));
    Associative(sent, step.sent, rest.sent);
    Associative(table, step.result.rows, rest.rows);
  }

  lemma Associative<T>(a: seq<T>, b: seq<T>, c: seq<T>)
    ensures a + (b + c) == (a + b) + c
  {}

  // ------------------------------------------------- pages of the table, in order

  lemma {:induction false} SelectCount<T>(rows: seq<T>, p: T -> bool, x: T)
    ensures multiset(Select(rows, p, true))[x] == if p(x) then multiset(rows)[x] else 0
  {
    if rows != [] {
      var n := |rows| - 1;
      SelectCount(rows[..n], p, x);
      assert rows == rows[..n] + [rows[n]];
    }
  }

  lemma IdOrder(rows: seq<Document>)
    requires UniqueIds(rows)
    ensures TotalPreorder(IdLe) && NoTies(IdLe, rows)
  {
    StringTotalOrder();
  }

  lemma OrderedFacts(rows: seq<Document>)
    requires Table(rows)
    ensures SortedBy(IdLe, Ordered(rows)) && NoTies(IdLe, Ordered(rows)) && Distinct(Ordered(rows))
    ensures forall d :: d in Ordered(rows) <==> d in rows && d.searchable
  {
    var p := (d: Document) => After(None, d);
    var kept := Select(rows, p, true);
    SelectMembers(rows, p, true);
    SelectUniqueBy(rows, p, true, (d: Document) => d);
    IdOrder(kept);
    SortSorted(IdLe, kept);
    SortMembers(IdLe, kept);
    DistinctSort(IdLe, kept);
    IdOrder(Ordered(rows));
  }

  /** Strictly below in the identity order. */
  lemma OrderedStrict(rows: seq<Document>, i: nat, k: nat)
    requires Table(rows) && i < |Ordered(rows)| && k < |Ordered(rows)|
    ensures StringLt(Ordered(rows)[i].id, Ordered(rows)[k].id) <==> i < k
  {
    var ordered := Ordered(rows);
    OrderedFacts(rows);
    StringTotalOrder();
    if i < k {
      assert IdLe(ordered[i], ordered[k]) && ordered[i] != ordered[k];
    } else if k < i {
      assert IdLe(ordered[k], ordered[i]);
    }
  }

  /** The keyset position after the first `done` documents. */
  function PriorAt(ordered: seq<Document>, done: nat): Option<string>
    requires done <= |ordered|
  {
    if done == 0 then None else Some(ordered[done - 1].id)
  }

  /** What the query still sees is exactly the part of the table not yet read. */
  lemma RemainderIsSuffix(rows: seq<Document>, done: nat)
    requires Table(rows) && done <= |Ordered(rows)|
    ensures Sort(IdLe, Select(rows, (d: Document) => After(PriorAt(Ordered(rows), done), d), true)) == Ordered(rows)[done..]
  {
    var prior := PriorAt(Ordered(rows), done);
    var p := (d: Document) => After(prior, d);
    var kept, suffix := Select(rows, p, true), Ordered(rows)[done..];
    OrderedFacts(rows);
    SelectMembers(rows, p, true);
    SelectUniqueBy(rows, p, true, (d: Document) => d);
    forall d ensures d in suffix <==> d in kept {
      SuffixMember(rows, done, d);
    }
    DistinctSameMembers(kept, suffix);
    IdOrder(kept);
    SortSorted(IdLe, kept);
    SortMembers(IdLe, kept);
    SortedUnique(IdLe, Sort(IdLe, kept), suffix);
  }

  lemma SuffixMember(rows: seq<Document>, done: nat, d: Document)
    requires Table(rows) && done <= |Ordered(rows)|
    ensures d in Ordered(rows)[done..] <==> d in rows && After(PriorAt(Ordered(rows), done), d)
  {
    var ordered := Ordered(rows);
    OrderedFacts(rows);
    if d in ordered {
      var i :| 0 <= i < |ordered| && ordered[i] == d;
      if done > 0 { OrderedStrict(rows, done - 1, i); }
      if i >= done {
        assert ordered[done..][i - done] == d;
      }
    }
  }

  /** Pagination by keyset reads the table in order, page by page. */
  ghost predicate Pages(query: Option<string> -> seq<Document>, ordered: seq<Document>, batch: nat) {
    forall done: nat, prior :: ReadUpTo(ordered, done, prior) ==> query(prior) == Take(ordered[done..], batch)
  }

  /** The keyset position `prior` stands for the first `done` documents. */
  ghost predicate ReadUpTo(ordered: seq<Document>, done: nat, prior: Option<string>) {
    done <= |ordered| && prior == PriorAt(ordered, done)
  }

  lemma PagesInOrder(rows: seq<Document>, batch: nat)
    requires Table(rows)
    ensures Pages((prior: Option<string>) => PageAfter(rows, prior, batch), Ordered(rows), batch)
  {
    forall done: nat, prior | ReadUpTo(Ordered(rows), done, prior)
      ensures PageAfter(rows, prior, batch) == Take(Ordered(rows)[done..], batch)
    {
      RemainderIsSuffix(rows, done);
    }
  }

  lemma LoopFails(m: Model, cache: Cache, documents: seq<Document>, page: seq<Document>, batch: nat, crash: Crash,
                  sent: seq<string>, table: seq<Embedding>, step: PageStep)
    requires batch >= 1 && documents != [] && crash.pages > 0 && page == Take(documents, batch)
    requires step == StepPage(m, cache, page) && step.result.PageFault?
    ensures Resumed(sent, table, Run(m, cache, documents, batch, crash))
      == RunResult(step.cache, sent + step.sent, table, Failed(step.result.fault))
  {
    assert table + [] == table;
  }

  lemma LoopCrashes(m: Model, cache: Cache, documents: seq<Document>, page: seq<Document>, batch: nat, crash: Crash,
                    sent: seq<string>, table: seq<Embedding>)
    requires batch >= 1 && documents != [] && crash.pages == 0 && page == Take(documents, batch)
    ensures Resumed(sent, table, Run(m, cache, documents, batch, crash))
      == RunResult(cache, sent + if crash.midPage then StepPage(m, cache, page).sent else [], table, Crashed)
  {
    assert table + [] == table;
  }

  /** The whole run is what was done so far followed by the run over what remains. */
  ghost predicate Remains(goal: RunResult, sent: seq<string>, table: seq<Embedding>, m: Model, cache: Cache, ordered: seq<Document>,
                          done: nat, batch: nat, pages: int, midPage: bool)
  {
    batch >= 1 && done <= |ordered| && pages >= 0
    && goal == Resumed(sent, table, Run(m, cache, ordered[done..], batch, Crash(pages, midPage)))
  }

  lemma RemainsStep(goal: RunResult, sent: seq<string>, table: seq<Embedding>, m: Model, cache: Cache, ordered: seq<Document>, done: nat,
                    page: seq<Document>, batch: nat, pages: nat, midPage: bool, step: PageStep, done': nat, left: nat)
    requires Remains(goal, sent, table, m, cache, ordered, done, batch, pages, midPage)
    requires done < |ordered| && pages > 0 && page == Take(ordered[done..], batch) && done' == done + |page| && left == pages - 1
    requires step == StepPage(m, cache, page) && step.result.PageOk?
    ensures Remains(goal, sent + step.sent, table + step.result.rows, m, step.cache, ordered, done', batch, left, midPage)
  {
    ResumeStep(m, cache, ordered[done..], batch, Crash(pages, midPage), sent, table);
    assert ordered[done..][|page|..] == ordered[done'..];
  }

  lemma RemainsFault(goal: RunResult, sent: seq<string>, table: seq<Embedding>, m: Model, cache: Cache, ordered: seq<Document>, done: nat,
                     page: seq<Document>, batch: nat, pages: nat, midPage: bool, step: PageStep)
    requires Remains(goal, sent, table, m, cache, ordered, done, batch, pages, midPage)
    requires done < |ordered| && pages > 0 && page == Take(ordered[done..], batch)
    requires step == StepPage(m, cache, page) && step.result.PageFault?
    ensures goal == RunResult(step.cache, sent + step.sent, table, Failed(step.result.fault))
  {
    LoopFails(m, cache, ordered[done..], page, batch, Crash(pages, midPage), sent, table, step);
  }

  /** One turn of the loop, with the run that remains. */
  method EmbedNext(m: Model, store: ResumeStore, page: seq<Document>, ghost ordered: seq<Document>, ghost done: nat, batch: nat,
                   ghost pages: nat, ghost midPage: bool, ghost sent: seq<string>, ghost table: seq<Embedding>, ghost goal: RunResult)
    returns (result: PageResult, ghost asked: seq<string>, ghost done': nat, ghost left: nat)
    requires batch >= 1 && done < |ordered| && pages > 0 && page == Take(ordered[done..], batch)
    requires Remains(goal, sent, table, m, store.committed, ordered, done, batch, pages, midPage) && store.working == store.committed
    modifies store
    ensures store.working == store.committed
    ensures done' == done + |page| && left == pages - 1
    ensures result.PageOk? ==> Remains(goal, sent + asked, table + result.rows, m, store.committed, ordered, done', batch, left, midPage)
    ensures result.PageFault? ==> goal == RunResult(store.committed, sent + asked, table, Failed(result.fault))
  {
    ghost var before := store.committed;
    done', left := done + |page|, pages - 1;
    result, asked := EmbedPage(m, store, page);
    if result.PageOk? {
      RemainsStep(goal, sent, table, m, before, ordered, done, page, batch, pages, midPage, PageStep(store.committed, asked, result), done', left);
    } else {
      RemainsFault(goal, sent, table, m, before, ordered, done, page, batch, pages, midPage, PageStep(store.committed, asked, result));
    }
  }

  lemma RemainsCrash(goal: RunResult, sent: seq<string>, table: seq<Embedding>, m: Model, cache: Cache, ordered: seq<Document>,
                     done: nat, page: seq<Document>, batch: nat, midPage: bool)
    requires Remains(goal, sent, table, m, cache, ordered, done, batch, 0, midPage)
    requires page == Take(ordered[done..], batch) && page != []
    ensures goal == RunResult(cache, sent + if midPage then StepPage(m, cache, page).sent else [], table, Crashed)
  {
    LoopCrashes(m, cache, ordered[done..], page, batch, Crash(0, midPage), sent, table);
  }

  lemma RemainsNothing(goal: RunResult, sent: seq<string>, table: seq<Embedding>, m: Model, cache: Cache, ordered: seq<Document>,
                       done: nat, batch: nat, pages: nat, midPage: bool)
    requires Remains(goal, sent, table, m, cache, ordered, done, batch, pages, midPage) && done == |ordered|
    ensures goal == RunResult(cache, sent, table, Finished)
  {
    assert sent + [] == sent && table + [] == table;
  }

  lemma RemainsAll(m: Model, cache: Cache, ordered: seq<Document>, batch: nat, crash: Crash)
    requires batch >= 1
    ensures Remains(Run(m, cache, ordered, batch, crash), [], [], m, cache, ordered, 0, batch, crash.pages, crash.midPage)
  {
    var r := Run(m, cache, ordered, batch, crash);
    assert ordered[0..] == ordered && [] + r.sent == r.sent && [] + r.rows == r.rows;
  }

  lemma PriorStep(ordered: seq<Document>, done: nat, page: seq<Document>, batch: nat)
    requires done <= |ordered| && page == Take(ordered[done..], batch) && page != []
    ensures ReadUpTo(ordered, done + |page|, Some(page[|page|-1].id))
  {}

  method EmbedPages(m: Model, store: ResumeStore, query: Option<string> -> seq<Document>, batch: nat, crash: Crash, ghost ordered: seq<Document>,
                    ghost goal: RunResult)
    returns (end: End, table: seq<Embedding>, ghost sent: seq<string>)
    requires batch >= 1 && Pages(query, ordered, batch) && store.working == store.committed
    requires Remains(goal, [], [], m, store.committed, ordered, 0, batch, crash.pages, crash.midPage)
    modifies store
    ensures RunResult(store.committed, sent, table, end) == goal
    ensures store.working == store.committed
  {
    end, table, sent := Finished, [], [];
    var prior: Option<string> := None;
    var pages := crash.pages;
    ghost var done: nat, left: nat := 0, crash.pages;
    while true
      invariant store.working == store.committed && end == Finished && left == pages && ReadUpTo(ordered, done, prior)
      invariant Remains(goal, sent, table, m, store.committed, ordered, done, batch, left, crash.midPage)
      decreases |ordered| - done
    {
      var page := query(prior);
      if page == [] {
        RemainsNothing(goal, sent, table, m, store.committed, ordered, done, batch, left, crash.midPage);
        return;
      }
      if pages == 0 {
        RemainsCrash(goal, sent, table, m, store.committed, ordered, done, page, batch, crash.midPage);
        sent := sent + if crash.midPage then StepPage(m, store.committed, page).sent else [];
        end := Crashed;
        return;
      }
      PriorStep(ordered, done, page, batch);
      prior := Some(page[|page|-1].id);
      var result;
      ghost var asked, next, fewer;
      result, asked, next, fewer := EmbedNext(m, store, page, ordered, done, batch, left, crash.midPage, sent, table, goal);
      if result.PageFault? {
        sent, end := sent + asked, Failed(result.fault);
        return;
      }
      sent, table := sent + asked, table + result.rows;
      pages := pages - 1;
      done, left := next, fewer;
    }
  }

  /** The embedding loop, cut short where `crash` says; a crash loses the open transaction. */
  method EmbedDocuments(m: Model, store: ResumeStore, rows: seq<Document>, batch: nat, crash: Crash)
    returns (end: End, table: seq<Embedding>, ghost sent: seq<string>)
    requires batch >= 1 && Table(rows) && store.working == store.committed
    modifies store
    ensures RunResult(store.committed, sent, table, end) == Run(m, old(store.committed), Ordered(rows), batch, crash)
    ensures store.working == store.committed
  {
    PagesInOrder(rows, batch);
    RemainsAll(m, store.committed, Ordered(rows), batch, crash);
    end, table, sent := EmbedPages(m, store, (prior: Option<string>) => PageAfter(rows, prior, batch), batch, crash, Ordered(rows),
                                   Run(m, store.committed, Ordered(rows), batch, crash));
  }
}
