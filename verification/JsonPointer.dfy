/** Parsed JSON and RFC 6901 pointers: how the projector writes them and how the builder reads
    them back (sections 3 and 4 of RFC 6901). */
module JsonPointer {
  import opened Wrappers

  // ------------------------------------------------------------------- values

  /** 2^53 - 1, the largest integer that section 2.2 of RFC 7493 vouches for. */
  const MAX_JCS_SAFE_INTEGER := 9007199254740991

  /** A parsed number with a fraction or exponent; NaN and the infinities keep only their text. */
  datatype Float = Finite(value: real) | NonFinite(text: string)

  datatype Field = Field(key: string, value: Json)

  datatype Json =
    | JNull
    | JBool(flag: bool)
    | JInt(number: int)
    | JFloat(float: Float)
    | JString(text: string)
    | JList(items: seq<Json>)
    | JObject(fields: seq<Field>)
  {
    predicate Scalar() { !JList? && !JObject? }
  }

  /** A parsed object has each key once, in document order. */
  ghost predicate UniqueKeys(j: Json) {
    match j
    case JObject(fields) =>
      && (forall i, k :: 0 <= i < k < |fields| ==> fields[i].key != fields[k].key)
      && forall i :: 0 <= i < |fields| ==> UniqueKeys(fields[i].value)
    case JList(items) => forall i :: 0 <= i < |items| ==> UniqueKeys(items[i])
    case _ => true
  }

  // ------------------------------------------------------------------ locations

  datatype Token = Key(name: string) | Index(at: nat)

  function Lookup(fields: seq<Field>, name: string): Option<Json> {
    if fields == [] then None
    else if fields[0].key == name then Some(fields[0].value)
    else Lookup(fields[1..], name)
  }

  lemma {:induction false} LookupFound(fields: seq<Field>, name: string)
    requires Lookup(fields, name).Some?
    ensures Field(name, Lookup(fields, name).value) in fields
  {
    if fields[0].key != name { LookupFound(fields[1..], name); }
  }

  lemma {:induction false} LookupUnique(fields: seq<Field>, i: nat)
    requires i < |fields| && forall a, b :: 0 <= a < b < |fields| ==> fields[a].key != fields[b].key
    ensures Lookup(fields, fields[i].key) == Some(fields[i].value)
  {
    if i > 0 { LookupUnique(fields[1..], i - 1); }
  }

  function Child(j: Json, t: Token): Option<Json> {
    match t
    case Key(name) => if j.JObject? then Lookup(j.fields, name) else None
    case Index(at) => if j.JList? && at < |j.items| then Some(j.items[at]) else None
  }

  /** The value at a location, independently of any rendering of the location. */
  function At(j: Json, tokens: seq<Token>): Option<Json>
    decreases tokens
  {
    if tokens == [] then Some(j)
    else
      match Child(j, tokens[0])
      case None => None
      case Some(child) => At(child, tokens[1..])
  }

  ghost predicate IsLeaf(j: Json, tokens: seq<Token>, value: Json) {
    At(j, tokens) == Some(value) && value.Scalar()
  }

  lemma {:induction false} AtAppend(j: Json, tokens: seq<Token>, t: Token)
    ensures At(j, tokens + [t]) == match At(j, tokens) case None => None case Some(v) => Child(v, t)
    decreases tokens
  {
    if tokens == [] {
      assert (tokens + [t])[1..] == [];
    } else {
      assert (tokens + [t])[1..] == tokens[1..] + [t];
      match Child(j, tokens[0])
      case None =>
      case Some(child) => AtAppend(child, tokens[1..], t);
    }
  }

  // ----------------------------------------------------------------- escaping

  /** Python's s.replace(c, "~" + d) for a one-character pattern. */
  function ReplaceChar(s: string, c: char, d: char): string {
    if s == [] then []
    else (if s[0] == c then ['~', d] else [s[0]]) + ReplaceChar(s[1..], c, d)
  }

  /** Python's s.replace("~" + d, c): leftmost, non-overlapping. */
  function ReplacePair(s: string, d: char, c: char): string {
    if s == [] then []
    else if |s| >= 2 && s[0] == '~' && s[1] == d then [c] + ReplacePair(s[2..], d, c)
    else [s[0]] + ReplacePair(s[1..], d, c)
  }

  /** str(key).replace("~", "~0").replace("/", "~1") */
  function Escape(s: string): string { ReplaceChar(ReplaceChar(s, '~', '0'), '/', '1') }

  /** encoded.replace("~1", "/").replace("~0", "~") */
  function Unescape(s: string): string { ReplacePair(ReplacePair(s, '1', '/'), '0', '~') }

  /** Each "~" is followed by "0" or "1". */
  predicate ValidEscapes(s: string) {
    forall i :: 0 <= i < |s| && s[i] == '~' ==> i + 1 < |s| && s[i + 1] in {'0', '1'}
  }

  /** Escaping, one character at a time. */
  function EscapeChar(c: char): string { if c == '~' then "~0" else if c == '/' then "~1" else [c] }

  lemma {:induction false} ReplaceCharConcat(a: string, b: string, c: char, d: char)
    ensures ReplaceChar(a + b, c, d) == ReplaceChar(a, c, d) + ReplaceChar(b, c, d)
  {
    if a == [] {
      assert a + b == b;
    } else {
      ReplaceCharConcat(a[1..], b, c, d);
      assert (a + b)[0] == a[0] && (a + b)[1..] == a[1..] + b;
      var head := if a[0] == c then ['~', d] else [a[0]];
      Concat3(head, ReplaceChar(a[1..], c, d), ReplaceChar(b, c, d));
    }
  }

  lemma EscapeStep(s: string)
    requires s != []
    ensures Escape(s) == EscapeChar(s[0]) + Escape(s[1..])
  {
    var rest := ReplaceChar(s[1..], '~', '0');
    if s[0] == '~' {
      ReplaceCharConcat("~0", rest, '/', '1');
      assert ReplaceChar("~0", '/', '1') == ['~'] + ReplaceChar("0", '/', '1');
      assert ReplaceChar("0", '/', '1') == ['0'] + ReplaceChar("", '/', '1');
    } else {
      ReplaceCharConcat([s[0]], rest, '/', '1');
      assert ReplaceChar([s[0]], '/', '1') == EscapeChar(s[0]) + ReplaceChar([], '/', '1');
    }
  }

  lemma PairReplaced(e: string, d: char, c: char)
    ensures ReplacePair(['~', d] + e, d, c) == [c] + ReplacePair(e, d, c)
  {
    assert (['~', d] + e)[2..] == e;
  }

  lemma CharKept(x: char, e: string, d: char, c: char)
    requires x == '~' ==> e == [] || e[0] != d
    ensures ReplacePair([x] + e, d, c) == [x] + ReplacePair(e, d, c)
  {
    assert ([x] + e)[1..] == e;
  }

  /** After the first replacement only "~0" pairs are left. */
  lemma {:induction false} FirstPass(s: string)
    ensures ReplacePair(Escape(s), '1', '/') == ReplaceChar(s, '~', '0')
  {
    if s != [] {
      EscapeStep(s);
      FirstPass(s[1..]);
      FirstPassChar(s[0], Escape(s[1..]));
    }
  }

  lemma FirstPassChar(x: char, e: string)
    ensures ReplacePair(EscapeChar(x) + e, '1', '/') == (if x == '~' then "~0" else [x]) + ReplacePair(e, '1', '/')
  {
    if x == '~' {
      assert EscapeChar(x) + e == ['~'] + (['0'] + e);
      CharKept('~', ['0'] + e, '1', '/');
      CharKept('0', e, '1', '/');
    } else if x == '/' {
      PairReplaced(e, '1', '/');
    } else {
      CharKept(x, e, '1', '/');
    }
  }

  lemma {:induction false} SecondPass(s: string)
    ensures ReplacePair(ReplaceChar(s, '~', '0'), '0', '~') == s
  {
    if s != [] {
      SecondPass(s[1..]);
      var rest := ReplaceChar(s[1..], '~', '0');
      if s[0] == '~' {
        PairReplaced(rest, '0', '~');
      } else {
        CharKept(s[0], rest, '0', '~');
      }
    }
  }

  /** The builder's unescaping undoes the projector's escaping, for every key. */
  lemma UnescapeEscape(s: string)
    ensures Unescape(Escape(s)) == s
  {
    FirstPass(s);
    SecondPass(s);
  }

  lemma {:induction false} EscapeShape(s: string)
    ensures ValidEscapes(Escape(s)) && '/' !in Escape(s)
  {
    if s != [] {
      EscapeStep(s);
      EscapeShape(s[1..]);
    }
  }

  // ----------------------------------------------------------------- decimals

  function Digit(d: nat): char
    requires d < 10
  {
    "0123456789"[d]
  }

  /** str(n) */
  function Decimal(n: nat): string {
    if n < 10 then [Digit(n)] else Decimal(n / 10) + [Digit(n % 10)]
  }

  predicate IsDigit(c: char) { '0' <= c <= '9' }

  function DigitValue(c: char): nat
    requires IsDigit(c)
  {
    (c as int) - ('0' as int)
  }

  /** int(segment) for a string of digits. */
  function Parse(s: string): nat
    requires forall c <- s :: IsDigit(c)
  {
    if s == [] then 0 else 10 * Parse(s[..|s|-1]) + DigitValue(s[|s|-1])
  }

  lemma DigitFacts(d: nat)
    requires d < 10
    ensures IsDigit(Digit(d)) && DigitValue(Digit(d)) == d && (Digit(d) == '0' <==> d == 0)
  {}

  lemma {:induction false} DecimalFacts(n: nat)
    ensures Decimal(n) != [] && (forall c <- Decimal(n) :: IsDigit(c))
    ensures |Decimal(n)| > 1 ==> Decimal(n)[0] != '0'
    ensures n > 0 ==> Decimal(n)[0] != '0'
    ensures Parse(Decimal(n)) == n
  {
    DigitFacts(n % 10);
    if n >= 10 {
      DecimalFacts(n / 10);
      assert Decimal(n)[..|Decimal(n)|-1] == Decimal(n / 10);
    } else {
      assert Decimal(n)[..0] == [];
    }
  }

  // ------------------------------------------------------------- dotted paths

  /** f"{parent}.{key}" (or the key alone at the root) and f"{parent}[{index}]". */
  function DottedChild(parent: string, t: Token): string {
    match t
    case Key(name) => if parent == "" then name else parent + "." + name
    case Index(i) => parent + "[" + Decimal(i) + "]"
  }

  /** The dotted path that the projection policy's predicates read. */
  function DottedPath(at: seq<Token>): string {
    if at == [] then "" else DottedChild(DottedPath(at[..|at|-1]), at[|at|-1])
  }

  // ----------------------------------------------------------------- pointers

  function Segment(t: Token): string {
    match t case Key(name) => Escape(name) case Index(at) => Decimal(at)
  }

  /** The projector's path: "/" and the segment, once per token. */
  function Render(tokens: seq<Token>): string {
    if tokens == [] then ""
    else Render(tokens[..|tokens|-1]) + "/" + Segment(tokens[|tokens|-1])
  }

  function Segments(tokens: seq<Token>): seq<string> {
    seq(|tokens|, i requires 0 <= i < |tokens| => Segment(tokens[i]))
  }

  /** Python's s.split("/"). */
  function Split(s: string): (r: seq<string>)
    ensures r != []
  {
    if s == [] then [""]
    else
      var rest := Split(s[1..]);
      if s[0] == '/' then [""] + rest else [[s[0]] + rest[0]] + rest[1..]
  }

  lemma {:induction false} SplitSegment(segment: string, rest: string)
    requires '/' !in segment
    ensures Split(segment + ['/'] + rest) == [segment] + Split(rest)
    ensures Split(segment) == [segment]
  {
    var s := segment + ['/'] + rest;
    if segment == [] {
      assert s[1..] == rest;
    } else {
      SplitSegment(segment[1..], rest);
      assert s[1..] == segment[1..] + ['/'] + rest;
      assert segment == [segment[0]] + segment[1..];
    }
  }

  lemma SegmentShape(t: Token)
    ensures '/' !in Segment(t) && ValidEscapes(Segment(t))
  {
    match t
    case Key(name) => EscapeShape(name);
    case Index(at) =>
      DecimalFacts(at);
      var s := Decimal(at);
      forall i | 0 <= i < |s| ensures s[i] != '~' { assert s[i] in s; }
  }

  lemma RenderLast(tokens: seq<Token>, t: Token)
    ensures Render(tokens + [t]) == Render(tokens) + (['/'] + Segment(t))
  {
    assert (tokens + [t])[..|tokens|] == tokens;
    assert (Render(tokens) + "/") + Segment(t) == Render(tokens) + (['/'] + Segment(t));
  }

  lemma {:induction false} RenderFront(t: Token, rest: seq<Token>)
    ensures Render([t] + rest) == (['/'] + Segment(t)) + Render(rest)
  {
    if rest == [] {
      RenderLast([], t);
      assert [] + [t] == [t] + [];
    } else {
      var n := |rest| - 1;
      RenderFront(t, rest[..n]);
      RenderLast([t] + rest[..n], rest[n]);
      RenderLast(rest[..n], rest[n]);
      assert rest == rest[..n] + [rest[n]];
      assert [t] + rest == ([t] + rest[..n]) + [rest[n]];
      Concat3(['/'] + Segment(t), Render(rest[..n]), ['/'] + Segment(rest[n]));
    }
  }

  lemma Concat3(a: string, b: string, c: string)
    ensures (a + b) + c == a + (b + c)
  {}

  /** Splitting the pointer after its leading "/" gives back the segments. */
  lemma {:induction false} SplitRender(tokens: seq<Token>)
    requires tokens != []
    ensures Render(tokens) != [] && Render(tokens)[0] == '/' && Split(Render(tokens)[1..]) == Segments(tokens)
  {
    var t, rest := tokens[0], tokens[1..];
    assert tokens == [t] + rest;
    RenderFront(t, rest);
    SegmentShape(t);
    assert Segments(tokens) == [Segment(t)] + Segments(rest);
    if rest == [] {
      assert Render(tokens)[1..] == Segment(t);
      SplitSegment(Segment(t), "");
    } else {
      var tail := Render(rest);
      SplitRender(rest);
      SplitStep(t, Render(tokens), tail);
    }
  }

  lemma SplitStep(t: Token, whole: string, tail: string)
    requires tail != [] && tail[0] == '/' && whole == (['/'] + Segment(t)) + tail
    ensures whole != [] && whole[0] == '/' && Split(whole[1..]) == [Segment(t)] + Split(tail[1..])
  {
    SegmentShape(t);
    assert tail == ['/'] + tail[1..];
    assert whole[1..] == Segment(t) + ['/'] + tail[1..];
    SplitSegment(Segment(t), tail[1..]);
  }

  // -------------------------------------------------------------- the resolver

  datatype Resolution = Resolved(value: Json) | Unresolved(error: PointerError)
  datatype PointerError = NotAPointer | BadEscape | MissingKey | BadIndex | IndexOutOfRange | CrossesScalar

  /** One step of the builder's loop over the encoded segments. */
  function Step(current: Json, encoded: string): Resolution {
    if !ValidEscapes(encoded) then Unresolved(BadEscape)
    else
      var segment := Unescape(encoded);
      match current
      case JObject(fields) =>
        (match Lookup(fields, segment) case None => Unresolved(MissingKey) case Some(v) => Resolved(v))
      case JList(items) =>
        if segment == "" || (exists c <- segment :: !IsDigit(c)) || (|segment| > 1 && segment[0] == '0')
        then Unresolved(BadIndex)
        else if Parse(segment) >= |items| then Unresolved(IndexOutOfRange)
        else Resolved(items[Parse(segment)])
      case _ => Unresolved(CrossesScalar)
  }

  function Walk(current: Json, segments: seq<string>): Resolution
    decreases segments
  {
    if segments == [] then Resolved(current)
    else
      match Step(current, segments[0])
      case Unresolved(e) => Unresolved(e)
      case Resolved(v) => Walk(v, segments[1..])
  }

  /** What the builder's resolver answers. */
  function Resolve(j: Json, pointer: string): Resolution {
    if pointer == [] || pointer[0] != '/' then Unresolved(NotAPointer) else Walk(j, Split(pointer[1..]))
  }

  method ResolveExactPointer(j: Json, pointer: string) returns (r: Resolution)
    ensures r == Resolve(j, pointer)
  {
    if pointer == [] || pointer[0] != '/' {
      return Unresolved(NotAPointer);
    }
    var current := j;
    var segments := Split(pointer[1..]);
    for i := 0 to |segments|
      invariant Walk(j, segments) == Walk(current, segments[i..])
    {
      var step := Step(current, segments[i]);
      if step.Unresolved? {
        return step;
      }
      current := step.value;
    }
    return Resolved(current);
  }

  // --------------------------------------------------------------- round trip

  lemma {:induction false} NoEscapes(s: string, d: char, c: char)
    requires '~' !in s
    ensures ReplacePair(s, d, c) == s
  {
    if s != [] { NoEscapes(s[1..], d, c); }
  }

  lemma StepChild(j: Json, t: Token)
    requires Child(j, t).Some?
    ensures Step(j, Segment(t)) == Resolved(Child(j, t).value)
  {
    SegmentShape(t);
    match t
    case Key(name) => UnescapeEscape(name);
    case Index(at) =>
      DecimalFacts(at);
      assert forall c <- Decimal(at) :: c != '~';
      NoEscapes(Decimal(at), '1', '/');
      NoEscapes(Decimal(at), '0', '~');
  }

  lemma {:induction false} WalkTokens(j: Json, tokens: seq<Token>)
    requires At(j, tokens).Some?
    ensures Walk(j, Segments(tokens)) == Resolved(At(j, tokens).value)
    decreases tokens
  {
    if tokens != [] {
      StepChild(j, tokens[0]);
      WalkTokens(Child(j, tokens[0]).value, tokens[1..]);
      assert Segments(tokens)[1..] == Segments(tokens[1..]);
    }
  }

  /** Round trip: a rendered location is resolved to the value at that location. */
  lemma PointerRoundTrip(j: Json, tokens: seq<Token>)
    requires tokens != [] && At(j, tokens).Some?
    ensures Resolve(j, Render(tokens)) == Resolved(At(j, tokens).value)
  {
    SplitRender(tokens);
    WalkTokens(j, tokens);
  }

  lemma SegmentInjective(j: Json, s: Token, t: Token)
    requires Child(j, s).Some? && Child(j, t).Some? && Segment(s) == Segment(t)
    ensures s == t
  {
    match s {
      case Key(name) =>
        UnescapeEscape(name);
        if t.Key? { UnescapeEscape(t.name); }
      case Index(at) =>
        DecimalFacts(at);
        if t.Index? { DecimalFacts(t.at); }
    }
  }

  lemma {:induction false} SegmentsInjective(j: Json, a: seq<Token>, b: seq<Token>)
    requires At(j, a).Some? && At(j, b).Some? && Segments(a) == Segments(b)
    ensures a == b
    decreases a
  {
    if a != [] {
      assert |Segments(a)| == |a| && |Segments(b)| == |b|;
      assert Segments(a)[0] == Segments(b)[0];
      SegmentInjective(j, a[0], b[0]);
      assert Segments(a)[1..] == Segments(a[1..]) && Segments(b)[1..] == Segments(b[1..]);
      SegmentsInjective(Child(j, a[0]).value, a[1..], b[1..]);
      assert a == [a[0]] + a[1..] && b == [b[0]] + b[1..];
    } else {
      assert |Segments(b)| == |b|;
    }
  }

  /** Different locations of one document never share a pointer. */
  lemma PointersDiffer(j: Json, a: seq<Token>, b: seq<Token>)
    requires a != [] && b != [] && At(j, a).Some? && At(j, b).Some? && Render(a) == Render(b)
    ensures a == b
  {
    SplitRender(a);
    SplitRender(b);
    SegmentsInjective(j, a, b);
  }
}
