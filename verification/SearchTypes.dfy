/** Requests, corpora and the occurrence-first filter of evidence search. */
module SearchTypes {
  import opened Wrappers
  import opened Grouping

  type Vector = seq<real>

  datatype Identity = Identity(category: Option<int>, class_: Option<int>, activity: Option<int>)

  datatype Document = Document(kind: string, identities: seq<Identity>, text: string, vector: Option<Vector>)

  datatype Value = VBool(flag: bool) | VNumber(number: real) | VText(text: string)

  datatype Attribute = Attribute(namespace: string, path: string, value: Value)

  datatype Occurrence = Occurrence(namespace: string, relation: string, time: Option<int>, snapshot: string,
                                   attributes: seq<Attribute>)

  datatype Operator = Eq | NotEq | Lt | Lte | Gt | Gte

  datatype AttributePredicate = AttributePredicate(namespace: string, path: string, operator: Operator, value: Value)

  /** An empty set filters nothing. */
  datatype Filters = Filters(entities: set<string>, time: Option<(int, int)>, relations: set<(string, string)>, snapshots: set<string>,
                             kinds: set<string>, excluded: set<string>, categories: set<int>, classes: set<int>, activities: set<int>,
                             attributes: seq<AttributePredicate>)

  /** A link joins a document identity and an occurrence identity. */
  datatype Link = Link(document: string, occurrence: string)

  /** The sealed tables; `compare` is the database's comparison of JSON values. */
  datatype Corpus = Corpus(documents: map<string, Document>, occurrences: map<string, Occurrence>, links: seq<Link>,
                           entities: set<(string, string)>, compare: (Value, Operator, Value) -> bool)

  datatype Method = Dense | Lexical

  datatype Request = Request(query: string, methods: seq<Method>, reciprocalRank: bool, topN: int, filters: Filters)

  // -------------------------------------------------------------------- the filter

  predicate TimePasses(f: Filters, o: Occurrence) {
    f.time.Some? ==> o.time.Some? && f.time.value.0 <= o.time.value < f.time.value.1
  }

  predicate IdentityPasses(wanted: set<int>, identities: seq<Identity>, read: Identity -> Option<int>) {
    wanted != {} ==> exists x <- identities :: read(x).Some? && read(x).value in wanted
  }

  function Category(i: Identity): Option<int> { i.category }

  function Class(i: Identity): Option<int> { i.class_ }

  function Activity(i: Identity): Option<int> { i.activity }

  predicate AttributePasses(c: Corpus, p: AttributePredicate, o: Occurrence) {
    exists a <- o.attributes :: a.namespace == p.namespace && a.path == p.path && c.compare(a.value, p.operator, p.value)
  }

  predicate EntityPasses(c: Corpus, f: Filters, occurrence: string) {
    f.entities != {} ==> exists e <- f.entities :: (occurrence, e) in c.entities
  }

  /** The whole filter, on one joined row. */
  predicate Passes(c: Corpus, f: Filters, l: Link)
    requires l.document in c.documents && l.occurrence in c.occurrences
  {
    var d, o := c.documents[l.document], c.occurrences[l.occurrence];
    && EntityPasses(c, f, l.occurrence) && TimePasses(f, o)
    && (f.relations != {} ==> (o.namespace, o.relation) in f.relations)
    && (f.snapshots != {} ==> o.snapshot in f.snapshots)
    && (f.kinds != {} ==> d.kind in f.kinds)
    && l.document !in f.excluded
    && IdentityPasses(f.categories, d.identities, Category)
    && IdentityPasses(f.classes, d.identities, Class)
    && IdentityPasses(f.activities, d.identities, Activity)
    && forall p <- f.attributes :: AttributePasses(c, p, o)
  }

  predicate Joined(c: Corpus, f: Filters, l: Link) {
    l.document in c.documents && l.occurrence in c.occurrences && Passes(c, f, l)
  }

  function Eligible(c: Corpus, f: Filters): seq<Link> { Select(c.links, (l: Link) => Joined(c, f, l), true) }

  function DocumentsIn(links: seq<Link>): set<string> { set l | l in links :: l.document }
}
