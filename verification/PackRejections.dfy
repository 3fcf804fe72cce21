/** Fixture rows that build and whose pack the verifier then refuses. */
module PackRejections {
  import opened Wrappers
  import opened JsonPointer
  import opened PackTypes
  import opened PackBuilder
  import opened PackVerifier
  import opened PackTheorem

  function Digits(c: char): (s: string)
    requires '0' <= c <= '9'
    ensures IsSha256(s) && s[0] == c
  {
    seq(SHA256_LENGTH, _ => c)
  }

  /** A projector that keeps every row out of the documents, and digests that tell two records apart. */
  function Sandbox(): (env: Environment)
    ensures Hexadecimal(env)
  {
    Environment((row: InputRow) => Some(Projected(StructuredOnly, Digits('0'), Activity, "", ["kept"], "")),
                (s: string) => Digits('0'), (p: Pointer) => if p.record == JString("second") then Digits('1') else Digits('0'),
                JString("snapshot"), JString("profile"))
  }

  function Fixture(event: string, supplied: Brought): InputRow {
    InputRow("relation", event, "{}", "support", JString(Digits('0')), JInt(0), JInt(0), supplied)
  }

  function Bring(schema: Json, group: Json): Brought {
    Given(Pointer(schema, JString("snapshot"), JString("profile"), JString("first"), JString(Digits('0')),
                  Locator(PARQUET_ROW, JString("relation"), JString(Digits('0')), group, JInt(0)),
                  JList([JString("support")]), ""))
  }

  /** The rows build, and no pack built from them verifies. */
  ghost predicate BuiltAndRefused(env: Environment, rows: seq<InputRow>) {
    && (exists normals :: Normalises(env, rows, normals) && Clean(normals))
    && forall declared, normals, pack :: Normalises(env, rows, normals) && Clean(normals) && IsPack(pack, normals, declared) ==>
         !Reconciles(env, pack)
  }

  lemma Refused(env: Environment, rows: seq<InputRow>, normals: seq<NormalRow>)
    requires Hexadecimal(env) && Normalises(env, rows, normals) && Clean(normals) && !RowsVerify(env, rows)
    ensures BuiltAndRefused(env, rows)
  {
    forall declared, ns, pack | Normalises(env, rows, ns) && Clean(ns) && IsPack(pack, ns, declared) ensures !Reconciles(env, pack) {
      BuiltVerifies(env, declared, rows, ns, pack);
    }
  }

  /** Two rows derive pointers to one place. */
  lemma OnePlaceTwice()
    ensures BuiltAndRefused(Sandbox(), [Fixture("first", Nothing), Fixture("second", Nothing)])
  {
    var env, rows := Sandbox(), [Fixture("first", Nothing), Fixture("second", Nothing)];
    var normals := [Normalise(env, rows[0]).row, Normalise(env, rows[1]).row];
    assert PlaceOf(rows[0]) == PlaceOf(rows[1]);
    DistinctRecords(env, normals);
    Refused(env, rows, normals);
  }

  lemma DistinctRecords(env: Environment, normals: seq<NormalRow>)
    requires env == Sandbox() && |normals| == 2 && normals[0].document == normals[1].document == None
    requires normals[0].occurrence.id == OccurrenceId(env, normals[0].occurrence.pointer)
    requires normals[1].occurrence.id == OccurrenceId(env, normals[1].occurrence.pointer)
    requires normals[0].occurrence.pointer.record == JString("first") && normals[1].occurrence.pointer.record == JString("second")
    ensures Clean(normals)
  {
    assert normals[0].occurrence.id[4] == '0' && normals[1].occurrence.id[4] == '1';
  }

  lemma SuppliedRefused(supplied: Brought)
    requires supplied.Given? && PointerOf(Sandbox(), Fixture("first", supplied)).Some?
    requires !SuppliedOk(Sandbox(), Fixture("first", supplied))
    ensures BuiltAndRefused(Sandbox(), [Fixture("first", supplied)])
  {
    var env, rows := Sandbox(), [Fixture("first", supplied)];
    assert rows[0] in rows;
    Refused(env, rows, [Normalise(env, rows[0]).row]);
  }

  /** A supplied pointer may count row groups below zero. */
  lemma NegativeRowGroup()
    ensures BuiltAndRefused(Sandbox(), [Fixture("first", Bring(POINTER_SCHEMA, JInt(-1)))])
  {
    SuppliedRefused(Bring(POINTER_SCHEMA, JInt(-1)));
  }

  /** A supplied pointer may lack its schema version. */
  lemma NoSchemaVersion()
    ensures BuiltAndRefused(Sandbox(), [Fixture("first", Bring(JNull, JInt(0)))])
  {
    SuppliedRefused(Bring(JNull, JInt(0)));
  }
}
