/** Rows, documents and occurrences of an evidence projection pack. */
module PackTypes {
  import opened Ordering
  import opened Wrappers
  import opened Grouping
  import opened JsonPointer

  // -------------------------------------------------------------- source pointers

  const SHA256_LENGTH := 64

  predicate IsSha256(s: string) {
    |s| == SHA256_LENGTH && forall i :: 0 <= i < |s| ==> '0' <= s[i] <= '9' || 'a' <= s[i] <= 'f'
  }

  /** What a locator binds; a locator that is absent or no mapping has no kind. */
  datatype Locator = Locator(kind: Json, relation: Json, file: Json, group: Json, ordinal: Json)

  /** A pointer's members, JNull where absent; `rest` stands for its other canonical bytes. */
  datatype Pointer = Pointer(schema: Json, snapshot: Json, profile: Json, record: Json, digest: Json, locator: Locator,
                             supports: Json, rest: string)

  const POINTER_SCHEMA := JString("livefire.source-record-pointer/1")
  const PARQUET_ROW := JString("parquet_row")

  /** A fixture row may bring its own pointer. */
  datatype Brought = Nothing | NoMapping | Given(pointer: Pointer)

  datatype InputRow = InputRow(relation: string, event: string, typedEvent: string, support: string,
                               file: Json, group: Json, ordinal: Json, supplied: Brought)

  const MAX_INTEGRAL_TEXT := 1_000_000_000_000_000_000_000

  /** A number as section 3.2.2.3 of RFC 8785 writes it and a parser reads it back: an integral
      float below 10^21 comes back as an integer. */
  function Reread(j: Json): Json {
    if j.JFloat? && j.float.Finite? && j.float.value.Floor as real == j.float.value
       && -MAX_INTEGRAL_TEXT < j.float.value.Floor < MAX_INTEGRAL_TEXT
    then JInt(j.float.value.Floor)
    else j
  }

  /** The pointer that the pack holds. */
  function Stored(p: Pointer): Pointer {
    p.(locator := p.locator.(group := Reread(p.locator.group), ordinal := Reread(p.locator.ordinal)))
  }

  /** Numbers outside the safe range, and non-finite ones, have no canonical form. */
  predicate Encodable(j: Json) {
    (j.JInt? ==> -MAX_JCS_SAFE_INTEGER <= j.number <= MAX_JCS_SAFE_INTEGER) && (j.JFloat? ==> j.float.Finite?)
  }

  predicate HexDigest(j: Json) { j.JString? && IsSha256(j.text) }

  predicate Text(j: Json) { j.JString? && j.text != "" }

  /** A row number that the pack can hold and the verifier takes. */
  predicate Ordinal(j: Json) { j.JInt? && 0 <= j.number <= MAX_JCS_SAFE_INTEGER }

  predicate Supports(j: Json) { j.JList? && j.items != [] && forall i :: 0 <= i < |j.items| ==> Text(j.items[i]) }

  datatype Disposition = DirectSemanticDocument | SemanticGroupOccurrence | DerivedDocumentInput
                       | StructuredOnlyOccurrence | Rejected

  predicate NamesDocument(d: Disposition) {
    d.DirectSemanticDocument? || d.SemanticGroupOccurrence? || d.DerivedDocumentInput?
  }

  /** What the projector may answer; StructuredOnly is an accepted older spelling. */
  datatype Terminal = Terminal(disposition: Disposition) | StructuredOnly

  datatype Kind = Activity | State | StateTransition | MetricWindow | NetworkWindow | Entity | Detection | StructuredOnlyKind

  /** A document without its identity, digest and count; `content` stands for its other canonical bytes. */
  datatype Body = Body(kind: Kind, searchable: bool, relation: string, content: string)

  datatype Projected = Projected(terminal: Terminal, group: string, kind: Kind, text: string, reasons: seq<string>, content: string)

  datatype PackDocument = PackDocument(id: string, body: Body, count: int)

  datatype PackOccurrence = PackOccurrence(id: string, relation: string, pointer: Pointer, disposition: Disposition,
                                           documents: seq<string>, reasons: seq<string>, content: string)

  /** The projector (None where the normalisation of its answer raises), the two digests, and the
      snapshot and record profile that pointers must name. */
  datatype Environment = Environment(project: InputRow -> Option<Projected>, sha: string -> string, pointerSha: Pointer -> string,
                                     snapshot: Json, profile: Json)

  /** Digests are rendered as SHA-256 hexadecimal text. */
  ghost predicate Hexadecimal(env: Environment) {
    (forall s :: IsSha256(env.sha(s))) && forall p :: IsSha256(env.pointerSha(p))
  }

  datatype BuildError = InvalidRow | InvalidPointer | InvalidProjection | GroupCollision | DuplicateOccurrence | ClosureFailure

  // -------------------------------------------------------------------- one row

  /** The pack stores every document-bearing row as a semantic group occurrence. */
  function PackDisposition(t: Terminal): Disposition {
    match t
    case StructuredOnly => StructuredOnlyOccurrence
    case Terminal(d) => if NamesDocument(d) then SemanticGroupOccurrence else d
  }

  /** The kinds that a base document may have. */
  predicate DirectKind(k: Kind) { k.Activity? || k.State? || k.Detection? }

  /** A supplied pointer is taken once it binds the record, the snapshot and a Parquet row; a
      derived one needs the row's admission metadata. */
  function PointerOf(env: Environment, row: InputRow): Option<Pointer> {
    match row.supplied
    case NoMapping => None
    case Given(p) =>
      if p.record == JString(row.event) && p.digest == JString(env.sha(row.typedEvent)) && p.snapshot == env.snapshot
         && p.locator.kind == PARQUET_ROW && Encodable(p.locator.group) && Encodable(p.locator.ordinal)
      then Some(Stored(p)) else None
    case Nothing =>
      if HexDigest(row.file) && Ordinal(row.group) && Ordinal(row.ordinal)
      then Some(Pointer(POINTER_SCHEMA, env.snapshot, env.profile, JString(row.event), JString(env.sha(row.typedEvent)),
                        Locator(PARQUET_ROW, JString(row.relation), row.file, row.group, row.ordinal),
                        JList([JString(row.support)]), ""))
      else None
  }

  /** The place in the source that a row names, as the pack holds it. */
  function PlaceOf(row: InputRow): Locator {
    if row.supplied.Given? then Stored(row.supplied.pointer).locator
    else Locator(PARQUET_ROW, JString(row.relation), row.file, row.group, row.ordinal)
  }

  predicate Identity(prefix: string, id: string) { prefix <= id && IsSha256(id[|prefix|..]) }

  function DocumentId(group: string): string { "doc-" + group }

  function OccurrenceId(env: Environment, p: Pointer): string { "occ-" + env.pointerSha(p) }

  datatype NormalRow = NormalRow(document: Option<(string, Body)>, occurrence: PackOccurrence)

  datatype Normalised = Normal(row: NormalRow) | Invalid(error: BuildError)

  function Normalise(env: Environment, row: InputRow): Normalised {
    if row.relation == "" || row.event == "" || row.support == "" then Invalid(InvalidRow)
    else
      match PointerOf(env, row)
      case None => Invalid(InvalidPointer)
      case Some(p) =>
        match env.project(row)
        case None => Invalid(InvalidProjection)
        case Some(x) =>
          var d := PackDisposition(x.terminal);
          var id := DocumentId(x.group);
          if !IsSha256(x.group) || "" in x.reasons || (NamesDocument(d) && !DirectKind(x.kind)) then Invalid(InvalidProjection)
          else
            Normal(NormalRow(if NamesDocument(d) then Some((id, Body(x.kind, true, row.relation, x.text))) else None,
                             PackOccurrence(OccurrenceId(env, p), row.relation, p, d, if NamesDocument(d) then [id] else [],
                                            x.reasons, x.content)))
  }

  // -------------------------------------------------------------------- counters

  function RelationKey(o: PackOccurrence): multiset<string> { multiset{o.relation} }

  function DispositionKey(o: PackOccurrence): multiset<Disposition> { multiset{o.disposition} }

  function RelationDispositionKey(o: PackOccurrence): multiset<(string, Disposition)> { multiset{(o.relation, o.disposition)} }

  function ReasonKeys(o: PackOccurrence): multiset<(Disposition, string)> { Reasons(o.disposition, o.reasons) }

  function Reasons(d: Disposition, reasons: seq<string>): multiset<(Disposition, string)> {
    if reasons == [] then multiset{} else Reasons(d, reasons[..|reasons|-1]) + multiset{(d, reasons[|reasons|-1])}
  }

  function MentionKeys(o: PackOccurrence): multiset<string> { multiset(o.documents) }

  function KindKey(d: PackDocument): multiset<Kind> { multiset{d.body.kind} }

  function SearchableKey(d: PackDocument): multiset<bool> { if d.body.searchable then multiset{true} else multiset{} }

  datatype Counters = Counters(inputs: multiset<string>, byRelation: multiset<(string, Disposition)>,
                               byDisposition: multiset<Disposition>, reasons: multiset<(Disposition, string)>)

  function Count(occurrences: seq<PackOccurrence>): Counters {
    Counters(TallyOf(occurrences, RelationKey), TallyOf(occurrences, RelationDispositionKey),
             TallyOf(occurrences, DispositionKey), TallyOf(occurrences, ReasonKeys))
  }

  /** The counters do not depend on the order of the stream. */
  lemma CountPermutation(a: seq<PackOccurrence>, b: seq<PackOccurrence>)
    requires multiset(a) == multiset(b)
    ensures Count(a) == Count(b)
  {
    TallyPermutation(a, b, RelationKey);
    TallyPermutation(a, b, RelationDispositionKey);
    TallyPermutation(a, b, DispositionKey);
    TallyPermutation(a, b, ReasonKeys);
  }

  // -------------------------------------------------------------------- coverage

  datatype RelationRow = RelationRow(relation: string, records: nat, dispositioned: nat, byDisposition: map<Disposition, nat>)

  datatype Coverage = Coverage(records: nat, dispositioned: nat, byDisposition: multiset<Disposition>,
                               documents: nat, searchable: nat, byKind: multiset<Kind>, relations: seq<RelationRow>,
                               reasons: multiset<(Disposition, string)>, pointers: nat, resolved: nat)

  datatype Pack = Pack(documents: seq<PackDocument>, occurrences: seq<PackOccurrence>, coverage: Coverage)

  function ByDisposition(byRelation: multiset<(string, Disposition)>, relation: string): map<Disposition, nat> {
    map[DirectSemanticDocument := byRelation[(relation, DirectSemanticDocument)],
        SemanticGroupOccurrence := byRelation[(relation, SemanticGroupOccurrence)],
        DerivedDocumentInput := byRelation[(relation, DerivedDocumentInput)],
        StructuredOnlyOccurrence := byRelation[(relation, StructuredOnlyOccurrence)],
        Rejected := byRelation[(relation, Rejected)]]
  }

  function RelationRowOf(c: Counters, relation: string): RelationRow {
    RelationRow(relation, c.inputs[relation], c.inputs[relation], ByDisposition(c.byRelation, relation))
  }

  function RelationRows(c: Counters, names: seq<string>): (r: seq<RelationRow>)
    ensures |r| == |names| && forall i :: 0 <= i < |r| ==> r[i] == RelationRowOf(c, names[i])
  {
    seq(|names|, i requires 0 <= i < |names| => RelationRowOf(c, names[i]))
  }

  function DocumentIds(documents: seq<PackDocument>): seq<string> {
    seq(|documents|, i requires 0 <= i < |documents| => documents[i].id)
  }

  function OccurrenceIds(occurrences: seq<PackOccurrence>): seq<string> {
    seq(|occurrences|, i requires 0 <= i < |occurrences| => occurrences[i].id)
  }

  /** Python's order check on a stream of identities: each above its predecessor. */
  ghost predicate Increasing(ids: seq<string>) {
    forall i :: 0 < i < |ids| ==> StringLt(ids[i-1], ids[i])
  }
}
