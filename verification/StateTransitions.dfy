/** State transitions of one series: consecutive observed instants, ambiguity resets and the
    five-way outcome accounting. */
module StateTransitions {
  import opened Ordering
  import opened Wrappers

  /** One eligible observation; the signature is the digest of its non-volatile state. */
  datatype Row = Row(eventId: string, occurrenceId: string, time: int, signature: string)

  datatype Transition = Transition(before: Row, after: Row)

  datatype Outcome = AmbiguousSameTime | DuplicateSameState | NoPredecessor | Unchanged | Changed

  /** The family's outcome counter. */
  datatype Tally = Tally(ambiguousSameTime: nat, duplicateSameState: nat, noPredecessor: nat, sameState: nat, changed: nat) {
    function Bump(o: Outcome, n: nat): Tally {
      match o
      case AmbiguousSameTime => this.(ambiguousSameTime := ambiguousSameTime + n)
      case DuplicateSameState => this.(duplicateSameState := duplicateSameState + n)
      case NoPredecessor => this.(noPredecessor := noPredecessor + n)
      case Unchanged => this.(sameState := sameState + n)
      case Changed => this.(changed := changed + n)
    }

    function Sum(): nat { ambiguousSameTime + duplicateSameState + noPredecessor + sameState + changed }
  }

  const EMPTY_TALLY := Tally(0, 0, 0, 0, 0)

  /** The sort key (time, event_id). */
  predicate RowLe(a: Row, b: Row) {
    a.time < b.time || (a.time == b.time && StringLe(a.eventId, b.eventId))
  }

  lemma RowPreorder()
    ensures TotalPreorder(RowLe)
  {
    StringTotalOrder();
  }

  /** Each event contributes at most one row to a series. */
  ghost predicate UniqueEvents(rows: seq<Row>) {
    forall i, j :: 0 <= i < j < |rows| ==> rows[i].eventId != rows[j].eventId
  }

  lemma UniqueEventsNoTies(rows: seq<Row>)
    requires UniqueEvents(rows)
    ensures NoTies(RowLe, rows)
  {
    StringTotalOrder();
  }

  // ------------------------------------------------------- declarative reading

  /** All observations at that instant agree. */
  ghost predicate Unanimous(rows: seq<Row>, t: int) {
    forall r, r' :: r in rows && r' in rows && r.time == t && r'.time == t ==> r.signature == r'.signature
  }

  /** The observation that stands for its instant: the least event id. */
  ghost predicate Represents(rows: seq<Row>, r: Row) {
    r in rows && forall x :: x in rows && x.time == r.time ==> StringLe(r.eventId, x.eventId)
  }

  /** t and u are consecutive observed instants. */
  ghost predicate Consecutive(rows: seq<Row>, t: int, u: int) {
    t < u && forall r :: r in rows ==> !(t < r.time < u)
  }

  /** b stands for the unanimous instant right before r. */
  ghost predicate Precedes(rows: seq<Row>, b: Row, r: Row) {
    Represents(rows, b) && Consecutive(rows, b.time, r.time) && Unanimous(rows, b.time)
  }

  ghost predicate HasPredecessor(rows: seq<Row>, r: Row) { exists b :: Precedes(rows, b, r) }

  ghost function PredecessorOf(rows: seq<Row>, r: Row): (b: Row)
    requires HasPredecessor(rows, r)
    ensures Precedes(rows, b, r)
  {
    var b :| Precedes(rows, b, r);
    b
  }

  /** Every eligible observation has exactly one outcome. */
  ghost function OutcomeOf(rows: seq<Row>, r: Row): Outcome {
    if !Unanimous(rows, r.time) then AmbiguousSameTime
    else if !Represents(rows, r) then DuplicateSameState
    else if !HasPredecessor(rows, r) then NoPredecessor
    else if PredecessorOf(rows, r).signature == r.signature then Unchanged
    else Changed
  }

  /** A document is due for exactly these pairs. */
  ghost predicate IsTransition(rows: seq<Row>, t: Transition) {
    && Represents(rows, t.after)
    && Unanimous(rows, t.after.time)
    && Precedes(rows, t.before, t.after)
    && t.before.signature != t.after.signature
  }

  ghost function TallyBy(outcome: Row -> Outcome, part: seq<Row>): Tally {
    if part == [] then EMPTY_TALLY
    else TallyBy(outcome, part[..|part|-1]).Bump(outcome(part[|part|-1]), 1)
  }

  ghost function TallyOf(rows: seq<Row>, part: seq<Row>): Tally { TallyBy(r => OutcomeOf(rows, r), part) }

  /** The documents due for the observations in part, in the order of part. */
  ghost function Documents(rows: seq<Row>, part: seq<Row>): seq<Transition> {
    if part == [] then []
    else
      var r := part[|part|-1];
      Documents(rows, part[..|part|-1])
      + if OutcomeOf(rows, r) == Changed then [Transition(PredecessorOf(rows, r), r)] else []
  }

  datatype SeriesResult = SeriesResult(documents: seq<Transition>, outcomes: Tally)

  ghost function Derived(rows: seq<Row>): SeriesResult {
    var s := Sort(RowLe, rows);
    SeriesResult(Documents(s, s), TallyOf(s, s))
  }

  // ------------------------------------------------------------------ lemmas

  lemma PrecedesUnique(rows: seq<Row>, b: Row, b': Row, r: Row)
    requires UniqueEvents(rows) && Precedes(rows, b, r) && Precedes(rows, b', r)
    ensures b == b'
  {
    assert b.time == b'.time;
    RepresentsUnique(rows, b, b');
  }

  lemma RepresentsUnique(rows: seq<Row>, b: Row, b': Row)
    requires UniqueEvents(rows) && Represents(rows, b) && Represents(rows, b') && b.time == b'.time
    ensures b == b'
  {
    StringTotalOrder();
    assert b.eventId == b'.eventId;
  }

  lemma BumpSum(t: Tally, o: Outcome, n: nat)
    ensures t.Bump(o, n).Sum() == t.Sum() + n
  {}

  lemma {:induction false} TallySum(outcome: Row -> Outcome, part: seq<Row>)
    ensures TallyBy(outcome, part).Sum() == |part|
  {
    if part != [] {
      TallySum(outcome, part[..|part|-1]);
      BumpSum(TallyBy(outcome, part[..|part|-1]), outcome(part[|part|-1]), 1);
    }
  }

  lemma {:induction false} DocumentsMembers(rows: seq<Row>, part: seq<Row>, t: Transition)
    requires UniqueEvents(rows) && forall r <- part :: r in rows
    ensures t in Documents(rows, part) <==> t.after in part && IsTransition(rows, t)
  {
    if part != [] {
      var r := part[|part|-1];
      DocumentsMembers(rows, part[..|part|-1], t);
      assert part == part[..|part|-1] + [r];
      if t.after == r && HasPredecessor(rows, r) && Precedes(rows, t.before, r) {
        PrecedesUnique(rows, t.before, PredecessorOf(rows, r), r);
      }
    }
  }

  /** The emitted documents are exactly the declared pairs. */
  lemma EmitsExactlyTheTransitions(rows: seq<Row>, t: Transition)
    requires UniqueEvents(rows)
    ensures t in Derived(rows).documents <==> IsTransition(rows, t)
  {
    var s := Sort(RowLe, rows);
    SortedSeries(rows);
    DocumentsMembers(s, s, t);
    assert IsTransition(s, t) == IsTransition(rows, t) by { SameReading(s, rows, t); }
  }

  lemma SameReading(s: seq<Row>, rows: seq<Row>, t: Transition)
    requires forall r :: r in s <==> r in rows
    ensures IsTransition(s, t) == IsTransition(rows, t)
  {}

  lemma SortedSeries(rows: seq<Row>)
    requires UniqueEvents(rows)
    ensures var s := Sort(RowLe, rows);
      SortedBy(RowLe, s) && UniqueEvents(s) && |s| == |rows| && forall r :: r in s <==> r in rows
  {
    RowPreorder();
    SortSorted(RowLe, rows);
    SortMembers(RowLe, rows);
    var s := Sort(RowLe, rows);
    DistinctMultiset(s);
    DistinctMultiset(rows);
    forall i, j | 0 <= i < j < |s| ensures s[i].eventId != s[j].eventId {
      assert s[i] != s[j];
      assert s[i] in rows && s[j] in rows;
    }
  }

  /** The five outcome counters add up to the eligible observations. */
  lemma OutcomesPartition(rows: seq<Row>)
    ensures Derived(rows).outcomes.Sum() == |rows|
  {
    var s := Sort(RowLe, rows);
    TallySum(r => OutcomeOf(s, r), s);
  }

  /** The result does not depend on the order in which the observations arrive. */
  lemma ArrivalOrderIrrelevant(rows: seq<Row>, rows': seq<Row>)
    requires UniqueEvents(rows) && multiset(rows) == multiset(rows')
    ensures Derived(rows) == Derived(rows')
  {
    RowPreorder();
    UniqueEventsNoTies(rows);
    SortPermutation(RowLe, rows, rows');
  }

  // ------------------------------------------------------------------- chains

  /** No document and no ambiguity lies strictly between the two instants. */
  ghost predicate Quiet(rows: seq<Row>, t: int, u: int) {
    && (forall r :: r in rows && t < r.time < u ==> Unanimous(rows, r.time))
    && (forall x :: IsTransition(rows, x) ==> !(t < x.after.time < u))
  }

  /** Some instant of the series directly precedes r, provided an earlier one exists. */
  lemma {:induction false} LatestBefore(rows: seq<Row>, part: seq<Row>, a: Row, t: int) returns (m: Row)
    requires a in part && a.time < t && forall r <- part :: r in rows
    ensures m in part && a.time <= m.time < t
    ensures forall r :: r in part ==> !(m.time < r.time < t)
  {
    var n := |part| - 1;
    assert part == part[..n] + [part[n]];
    if a in part[..n] {
      m := LatestBefore(rows, part[..n], a, t);
      if m.time < part[n].time < t { m := part[n]; }
    } else if b :| b in part[..n] && a.time < b.time < t {
      m := LatestBefore(rows, part[..n], b, t);
    } else {
      m := a;
    }
  }

  lemma {:induction false} RepresentativeExists(rows: seq<Row>, part: seq<Row>, r: Row) returns (m: Row)
    requires r in part
    ensures m in part && m.time == r.time
    ensures forall x :: x in part && x.time == r.time ==> StringLe(m.eventId, x.eventId)
  {
    StringTotalOrder();
    var n := |part| - 1;
    assert part == part[..n] + [part[n]];
    if x :| x in part[..n] && x.time == r.time {
      m := RepresentativeExists(rows, part[..n], x);
      if part[n].time == r.time && StringLe(part[n].eventId, m.eventId) { m := part[n]; }
    } else {
      m := r;
    }
  }

  /** Between two ambiguity resets the state carries over: whatever the last document left is
      still the state of every later unanimous instant before the next document. */
  lemma {:induction false} StateCarries(rows: seq<Row>, a: Row, r: Row)
    requires UniqueEvents(rows) && Represents(rows, a) && Unanimous(rows, a.time)
    requires Represents(rows, r) && Unanimous(rows, r.time) && a.time <= r.time
    requires Quiet(rows, a.time, r.time + 1)
    ensures r.signature == a.signature
    decreases r.time - a.time
  {
    if a.time < r.time {
      var m := LatestBefore(rows, rows, a, r.time);
      var b := RepresentativeExists(rows, rows, m);
      assert Represents(rows, b);
      assert Precedes(rows, b, r) by {
        assert Unanimous(rows, b.time);
      }
      assert !IsTransition(rows, Transition(b, r));
      assert b.signature == r.signature;
      StateCarries(rows, a, b);
    }
  }

  /** Successive documents with no ambiguity in between chain: after-state is before-state. */
  lemma TransitionsChain(rows: seq<Row>, x: Transition, y: Transition)
    requires UniqueEvents(rows) && IsTransition(rows, x) && IsTransition(rows, y)
    requires x.after.time < y.after.time && Quiet(rows, x.after.time, y.after.time)
    ensures x.after.signature == y.before.signature
  {
    assert !(y.before.time < x.after.time < y.after.time);
    StateCarries(rows, x.after, y.before);
  }

  // --------------------------------------------------------------- the series loop

  ghost predicate Series(s: seq<Row>) { SortedBy(RowLe, s) && UniqueEvents(s) }

  /** offset is the start of an instant, or the end of the series. */
  ghost predicate Boundary(s: seq<Row>, offset: nat) {
    offset <= |s| && (0 < offset < |s| ==> s[offset - 1].time < s[offset].time)
  }

  /** s[offset..end] is one whole instant. */
  ghost predicate Instant(s: seq<Row>, offset: nat, end: nat) {
    && Boundary(s, offset) && Boundary(s, end) && offset < end
    && forall i :: offset <= i < end ==> s[i].time == s[offset].time
  }

  lemma InstantRows(s: seq<Row>, offset: nat, end: nat)
    requires Series(s) && Instant(s, offset, end)
    ensures forall i :: 0 <= i < |s| ==> (s[i].time == s[offset].time <==> offset <= i < end)
    ensures Unanimous(s, s[offset].time) <==> forall i :: offset <= i < end ==> s[i].signature == s[offset].signature
    ensures forall i :: offset <= i < end ==> (Represents(s, s[i]) <==> i == offset)
  {
    StringTotalOrder();
    forall i | 0 <= i < offset ensures s[i].time < s[offset].time {
      assert RowLe(s[i], s[offset - 1]) || i == offset - 1;
    }
    forall i | end <= i < |s| ensures s[i].time > s[offset].time {
      assert RowLe(s[end], s[i]) || i == end;
    }
    assert Represents(s, s[offset]);
    forall i | offset < i < end ensures !Represents(s, s[i]) {
      if Represents(s, s[i]) { RepresentsUnique(s, s[offset], s[i]); }
    }
  }

  /** What the loop variable `previous` stands for. */
  ghost predicate PreviousOk(s: seq<Row>, offset: nat, previous: Option<Row>) {
    offset < |s| ==>
      match previous
      case None => !HasPredecessor(s, s[offset])
      case Some(b) => Precedes(s, b, s[offset])
  }

  lemma AfterInstant(s: seq<Row>, offset: nat, end: nat)
    requires Series(s) && Instant(s, offset, end)
    ensures Unanimous(s, s[offset].time) ==> PreviousOk(s, end, Some(s[offset]))
    ensures !Unanimous(s, s[offset].time) ==> PreviousOk(s, end, None)
  {
    if end < |s| {
      InstantRows(s, offset, end);
      var r := s[end];
      forall i | 0 <= i < |s| ensures !(s[offset].time < s[i].time < r.time) {
        assert i < offset ==> RowLe(s[i], s[offset]);
        assert i > end ==> RowLe(s[end], s[i]);
      }
      assert Consecutive(s, s[offset].time, r.time);
      forall b | Precedes(s, b, r) ensures b.time == s[offset].time {}
    }
  }

  lemma {:induction false} AppendUniform(outcome: Row -> Outcome, part: seq<Row>, seg: seq<Row>, o: Outcome)
    requires forall i :: 0 <= i < |seg| ==> outcome(seg[i]) == o
    ensures TallyBy(outcome, part + seg) == TallyBy(outcome, part).Bump(o, |seg|)
  {
    if seg == [] {
      assert part + seg == part;
    } else {
      var n := |seg| - 1;
      AppendUniform(outcome, part, seg[..n], o);
      assert (part + seg)[..|part + seg| - 1] == part + seg[..n];
    }
  }

  lemma {:induction false} AppendQuiet(rows: seq<Row>, part: seq<Row>, seg: seq<Row>)
    requires forall i :: 0 <= i < |seg| ==> OutcomeOf(rows, seg[i]) != Changed
    ensures Documents(rows, part + seg) == Documents(rows, part)
  {
    if seg == [] {
      assert part + seg == part;
    } else {
      var n := |seg| - 1;
      AppendQuiet(rows, part, seg[..n]);
      assert (part + seg)[..|part + seg| - 1] == part + seg[..n];
    }
  }

  lemma AppendOne(rows: seq<Row>, part: seq<Row>, r: Row)
    ensures TallyOf(rows, part + [r]) == TallyOf(rows, part).Bump(OutcomeOf(rows, r), 1)
    ensures OutcomeOf(rows, r) != Changed ==> Documents(rows, part + [r]) == Documents(rows, part)
    ensures OutcomeOf(rows, r) == Changed ==>
      Documents(rows, part + [r]) == Documents(rows, part) + [Transition(PredecessorOf(rows, r), r)]
  {
    assert (part + [r])[..|part|] == part;
  }

  /** The outcome of the row that stands for a unanimous instant, seen from `previous`. */
  function Verdict(previous: Option<Row>, r: Row): Outcome {
    match previous
    case None => NoPredecessor
    case Some(b) => if b.signature == r.signature then Unchanged else Changed
  }

  lemma InstantOutcomes(s: seq<Row>, offset: nat, end: nat, previous: Option<Row>)
    requires Series(s) && Instant(s, offset, end) && PreviousOk(s, offset, previous)
    ensures !Unanimous(s, s[offset].time) ==> forall i :: offset <= i < end ==> OutcomeOf(s, s[i]) == AmbiguousSameTime
    ensures Unanimous(s, s[offset].time) ==> forall i :: offset < i < end ==> OutcomeOf(s, s[i]) == DuplicateSameState
    ensures Unanimous(s, s[offset].time) ==> OutcomeOf(s, s[offset]) == Verdict(previous, s[offset])
    ensures previous.Some? ==> HasPredecessor(s, s[offset]) && PredecessorOf(s, s[offset]) == previous.value
  {
    InstantRows(s, offset, end);
    if previous.Some? {
      PrecedesUnique(s, previous.value, PredecessorOf(s, s[offset]), s[offset]);
    }
  }

  /** The accounting of one whole instant. */
  lemma AmbiguousAccount(s: seq<Row>, offset: nat, end: nat, previous: Option<Row>)
    requires Series(s) && Instant(s, offset, end) && PreviousOk(s, offset, previous)
    requires !Unanimous(s, s[offset].time)
    ensures TallyOf(s, s[..end]) == TallyOf(s, s[..offset]).Bump(AmbiguousSameTime, end - offset)
    ensures Documents(s, s[..end]) == Documents(s, s[..offset])
  {
    InstantOutcomes(s, offset, end, previous);
    assert s[..end] == s[..offset] + s[offset..end];
    AppendUniform(r => OutcomeOf(s, r), s[..offset], s[offset..end], AmbiguousSameTime);
    AppendQuiet(s, s[..offset], s[offset..end]);
  }

  /** The rows of a unanimous instant after its first change no document. */
  lemma DuplicatesAccount(s: seq<Row>, part: seq<Row>, rest: seq<Row>)
    requires forall i :: 0 <= i < |rest| ==> OutcomeOf(s, rest[i]) == DuplicateSameState
    ensures TallyOf(s, part + rest) == TallyOf(s, part).Bump(DuplicateSameState, |rest|)
    ensures Documents(s, part + rest) == Documents(s, part)
  {
    AppendUniform(r => OutcomeOf(s, r), part, rest, DuplicateSameState);
    AppendQuiet(s, part, rest);
  }

  lemma UnanimousAccount(s: seq<Row>, offset: nat, end: nat, previous: Option<Row>)
    requires Series(s) && Instant(s, offset, end) && PreviousOk(s, offset, previous)
    requires Unanimous(s, s[offset].time)
    ensures TallyOf(s, s[..end])
         == TallyOf(s, s[..offset]).Bump(Verdict(previous, s[offset]), 1).Bump(DuplicateSameState, end - offset - 1)
    ensures Documents(s, s[..end]) == Documents(s, s[..offset])
         + if Verdict(previous, s[offset]) == Changed then [Transition(previous.value, s[offset])] else []
  {
    var part, rest := s[..offset] + [s[offset]], s[offset+1..end];
    assert s[..end] == part + rest;
    InstantOutcomes(s, offset, end, previous);
    AppendOne(s, s[..offset], s[offset]);
    DuplicatesAccount(s, part, rest);
  }

  function Signatures(rows: seq<Row>): set<string> { set r | r in rows :: r.signature }

  lemma OneSignature(rows: seq<Row>)
    requires rows != []
    ensures |Signatures(rows)| > 1 <==> exists r :: r in rows && r.signature != rows[0].signature
  {
    var all := Signatures(rows);
    assert rows[0].signature in all;
    if r :| r in rows && r.signature != rows[0].signature {
      assert r.signature in all;
      assert {rows[0].signature} < all;
      SubsetSize({rows[0].signature}, all);
    } else {
      assert all == {rows[0].signature};
    }
  }

  /** The inner loop: the end of the run of equal times starting at offset. */
  method EndOfInstant(s: seq<Row>, offset: nat) returns (end: nat)
    requires Series(s) && Boundary(s, offset) && offset < |s|
    ensures Instant(s, offset, end)
  {
    end := offset + 1;
    while end < |s| && s[end].time == s[offset].time
      invariant offset < end <= |s|
      invariant forall i :: offset <= i < end ==> s[i].time == s[offset].time
    {
      end := end + 1;
    }
    if end < |s| {
      assert RowLe(s[end - 1], s[end]);
    }
  }

  /** One pass of the outer loop's body over the rows of one instant. */
  method SettleInstant(sameTime: seq<Row>, previous: Option<Row>, documents: seq<Transition>, outcomes: Tally)
    returns (previous': Option<Row>, documents': seq<Transition>, outcomes': Tally)
    requires sameTime != []
    ensures if |Signatures(sameTime)| > 1 then
        previous' == None && documents' == documents && outcomes' == outcomes.Bump(AmbiguousSameTime, |sameTime|)
      else
        && previous' == Some(sameTime[0])
        && outcomes' == outcomes.Bump(Verdict(previous, sameTime[0]), 1).Bump(DuplicateSameState, |sameTime| - 1)
        && documents' == documents + if Verdict(previous, sameTime[0]) == Changed
                                     then [Transition(previous.value, sameTime[0])] else []
  {
    if |Signatures(sameTime)| > 1 {
      return None, documents, outcomes.Bump(AmbiguousSameTime, |sameTime|);
    }
    var current := sameTime[0];
    documents', outcomes' := documents, outcomes;
    if |sameTime| > 1 {
      outcomes' := outcomes'.Bump(DuplicateSameState, |sameTime| - 1);
    }
    if previous.None? {
      outcomes' := outcomes'.Bump(NoPredecessor, 1);
    } else if previous.value.signature == current.signature {
      outcomes' := outcomes'.Bump(Unchanged, 1);
    } else {
      documents' := documents' + [Transition(previous.value, current)];
      outcomes' := outcomes'.Bump(Changed, 1);
    }
    previous' := Some(current);
  }

  /** The loop state after the instants before offset. */
  ghost predicate Settled(s: seq<Row>, offset: nat, previous: Option<Row>, documents: seq<Transition>, outcomes: Tally) {
    && Boundary(s, offset) && PreviousOk(s, offset, previous)
    && documents == Documents(s, s[..offset]) && outcomes == TallyOf(s, s[..offset])
  }

  lemma SettleStep(s: seq<Row>, offset: nat, end: nat, previous: Option<Row>, documents: seq<Transition>, outcomes: Tally)
    requires Series(s) && Instant(s, offset, end) && Settled(s, offset, previous, documents, outcomes)
    ensures var seg := s[offset..end];
      if |Signatures(seg)| > 1 then
        Settled(s, end, None, documents, outcomes.Bump(AmbiguousSameTime, |seg|))
      else
        Settled(s, end, Some(seg[0]),
                documents + (if Verdict(previous, seg[0]) == Changed then [Transition(previous.value, seg[0])] else []),
                outcomes.Bump(Verdict(previous, seg[0]), 1).Bump(DuplicateSameState, |seg| - 1))
  {
    InstantFingerprints(s, offset, end);
    AfterInstant(s, offset, end);
    if Unanimous(s, s[offset].time) {
      UnanimousAccount(s, offset, end, previous);
    } else {
      AmbiguousAccount(s, offset, end, previous);
    }
  }

  method SettleAll(s: seq<Row>) returns (documents: seq<Transition>, outcomes: Tally)
    requires Series(s)
    ensures documents == Documents(s, s) && outcomes == TallyOf(s, s)
  {
    documents, outcomes := [], EMPTY_TALLY;
    var previous: Option<Row> := None;
    var offset := 0;
    while offset < |s|
      invariant offset <= |s| && Settled(s, offset, previous, documents, outcomes)
    {
      var end := EndOfInstant(s, offset);
      SettleStep(s, offset, end, previous, documents, outcomes);
      previous, documents, outcomes := SettleInstant(s[offset..end], previous, documents, outcomes);
      offset := end;
    }
    assert s[..offset] == s;
  }

  method DeriveSeries(rows: seq<Row>) returns (documents: seq<Transition>, outcomes: Tally)
    requires UniqueEvents(rows)
    ensures SeriesResult(documents, outcomes) == Derived(rows)
  {
    SortedSeries(rows);
    documents, outcomes := SettleAll(Sort(RowLe, rows));
  }

  lemma InstantFingerprints(s: seq<Row>, offset: nat, end: nat)
    requires Series(s) && Instant(s, offset, end)
    ensures |Signatures(s[offset..end])| > 1 <==> !Unanimous(s, s[offset].time)
  {
    InstantRows(s, offset, end);
    var seg := s[offset..end];
    OneSignature(seg);
    if i :| offset <= i < end && s[i].signature != s[offset].signature {
      assert seg[i - offset] in seg;
    }
  }

  /** No two documents of a series end at the same instant. */
  lemma {:induction false} DocumentsDistinct(rows: seq<Row>, part: seq<Row>)
    requires UniqueEvents(rows) && Distinct(part) && forall r <- part :: r in rows
    ensures forall i, j :: 0 <= i < j < |Documents(rows, part)| ==>
      Documents(rows, part)[i].after.time != Documents(rows, part)[j].after.time
    ensures forall t <- Documents(rows, part) :: t.after in part && Represents(rows, t.after)
  {
    if part != [] {
      var n := |part| - 1;
      var front, r := part[..n], part[n];
      DocumentsDistinct(rows, front);
      assert part == front + [r] && r !in front;
      if OutcomeOf(rows, r) == Changed {
        forall t <- Documents(rows, front) ensures t.after.time != r.time {
          if t.after.time == r.time { RepresentsUnique(rows, t.after, r); }
        }
      }
    }
  }

  lemma DerivedDistinct(rows: seq<Row>)
    requires UniqueEvents(rows)
    ensures var d := Derived(rows).documents;
      forall i, j :: 0 <= i < j < |d| ==> d[i].after.time != d[j].after.time
  {
    SortedSeries(rows);
    DocumentsDistinct(Sort(RowLe, rows), Sort(RowLe, rows));
  }
}
