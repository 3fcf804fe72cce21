/** The state-transition family: observations filed by series, each series derived on its own. */
module TransitionFamily {
  import opened Ordering
  import opened Grouping
  import opened MembershipDigest
  import opened DerivationTypes
  import opened Families
  import opened StateTransitions

  datatype Observation = Observation(series: SeriesKey, row: Row)

  /** The checks of the state loop, in the order in which the source makes them. */
  function ReadState(a: Adapters, row: Admitted): Reading<Observation> {
    match a.parse(row.payload)
    case None => Rejected("typed_event_unavailable")
    case Some(value) =>
      match a.time(value)
      case NoTime(reason) => Rejected(reason)
      case Time(millis) =>
        if row.scope == {} then Rejected("missing_canonical_scope")
        else
          match a.state(row.relation, value)
          case NoState(reason) => Rejected(reason)
          case State(signature) =>
            match a.discriminator(row.relation, value)
            case NoDiscriminator(reason) => Rejected(reason)
            case Discriminator(material) => Eligible(Observation(
              SeriesKey(row.relation, a.sourceType(value), material, row.scope),
              Row(row.eventId, row.occurrenceId, millis, signature)))
  }

  function SeriesOf(o: Observation): SeriesKey { o.series }

  function AddRow(rows: seq<Row>, o: Observation): seq<Row> { rows + [o.row] }

  function RowsIn(observations: seq<Observation>): seq<Row> { Fold([], AddRow, observations) }

  lemma {:induction false} RowsInAt(observations: seq<Observation>)
    ensures |RowsIn(observations)| == |observations|
    ensures forall i :: 0 <= i < |observations| ==> RowsIn(observations)[i] == observations[i].row
  {
    if observations != [] { RowsInAt(observations[..|observations|-1]); }
  }

  // ----------------------------------------------------- one typed row per event

  function EventOf(r: Admitted): string { r.eventId }

  ghost predicate OneRowPerEvent(rows: seq<Admitted>) { UniqueBy(EventOf, rows) }

  function EventIdOf(o: Observation): string { o.row.eventId }

  ghost predicate UniqueObservations(observations: seq<Observation>) { UniqueBy(EventIdOf, observations) }

  lemma ObservationsUnique(a: Adapters, rows: seq<Admitted>)
    requires OneRowPerEvent(rows)
    ensures UniqueObservations(Observations(a, rows))
  {
    EligibleUniqueBy(rows, r => ReadState(a, r), EventOf, EventIdOf);
  }

  /** The rows of one series carry pairwise different event ids. */
  lemma SeriesRowsUnique(observations: seq<Observation>, k: SeriesKey)
    requires UniqueObservations(observations)
    ensures UniqueEvents(RowsIn(Select(observations, SeriesOf, k)))
  {
    var selected := Select(observations, SeriesOf, k);
    SelectUniqueBy(observations, SeriesOf, k, EventIdOf);
    RowsInAt(selected);
    assert forall i :: 0 <= i < |selected| ==> RowsIn(selected)[i].eventId == EventIdOf(selected[i]);
  }

  // ---------------------------------------------------------------- the documents

  function TransitionGroup(series: SeriesKey, t: Transition): Group {
    Group(
      TransitionKey(series, t.before.time, t.after.time, t.before.signature, t.after.signature),
      TransitionAggregate(t.before.signature, t.after.signature, t.before.time, t.after.time),
      [Member(t.before.occurrenceId, "before"), Member(t.after.occurrenceId, "after")])
  }

  function TransitionGroups(series: SeriesKey, transitions: seq<Transition>): seq<Group> {
    seq(|transitions|, i requires 0 <= i < |transitions| => TransitionGroup(series, transitions[i]))
  }

  datatype States = States(groups: seq<Group>, applicable: nat, eligible: nat, reasons: multiset<string>, outcomes: Tally)

  function AddTallies(t: Tally, u: Tally): Tally {
    Tally(t.ambiguousSameTime + u.ambiguousSameTime, t.duplicateSameState + u.duplicateSameState,
          t.noPredecessor + u.noPredecessor, t.sameState + u.sameState, t.changed + u.changed)
  }

  ghost function DerivedSeries(observations: seq<Observation>, k: SeriesKey): SeriesResult {
    Derived(RowsIn(Select(observations, SeriesOf, k)))
  }

  ghost function GroupsOf(keys: seq<SeriesKey>, observations: seq<Observation>): seq<Group> {
    if keys == [] then []
    else
      var k := keys[|keys|-1];
      GroupsOf(keys[..|keys|-1], observations) + TransitionGroups(k, DerivedSeries(observations, k).documents)
  }

  ghost function OutcomesOf(keys: seq<SeriesKey>, observations: seq<Observation>): Tally {
    if keys == [] then EMPTY_TALLY
    else AddTallies(OutcomesOf(keys[..|keys|-1], observations), DerivedSeries(observations, keys[|keys|-1]).outcomes)
  }

  ghost function Observations(a: Adapters, rows: seq<Admitted>): seq<Observation> {
    EligibleOf(rows, r => ReadState(a, r))
  }

  ghost function StateFamily(a: Adapters, encode: SeriesKey -> string, rows: seq<Admitted>): States
    requires Injective(encode)
  {
    var observations := Observations(a, rows);
    var keys := EmissionOrder(encode, KeySet(observations, SeriesOf));
    States(GroupsOf(keys, observations), |rows|, |observations|, ReasonsOf(rows, r => ReadState(a, r)),
           OutcomesOf(keys, observations))
  }

  method DeriveTransitions(a: Adapters, encode: SeriesKey -> string, rows: seq<Admitted>) returns (family: States)
    requires Injective(encode) && OneRowPerEvent(rows)
    ensures family == StateFamily(a, encode, rows)
  {
    var series, applicable, eligible, reasons := FileRows(rows, r => ReadState(a, r), SeriesOf, [], AddRow);
    ObservationsUnique(a, rows);
    var groups, outcomes := DeriveEach(EmissionOrder(encode, series.Keys), series, Observations(a, rows));
    family := States(groups, applicable, eligible, reasons, outcomes);
  }

  /** `for encoded in sorted(series)`. */
  method DeriveEach(keys: seq<SeriesKey>, series: map<SeriesKey, seq<Row>>, ghost observations: seq<Observation>)
    returns (groups: seq<Group>, outcomes: Tally)
    requires IsTable(series, observations, SeriesOf, [], AddRow) && UniqueObservations(observations)
    requires forall k <- keys :: k in series
    ensures groups == GroupsOf(keys, observations) && outcomes == OutcomesOf(keys, observations)
  {
    groups, outcomes := [], EMPTY_TALLY;
    for i := 0 to |keys|
      invariant groups == GroupsOf(keys[..i], observations) && outcomes == OutcomesOf(keys[..i], observations)
    {
      SeriesRowsUnique(observations, keys[i]);
      var documents, tally := DeriveSeries(series[keys[i]]);
      SeriesStep(keys, observations, i);
      groups := groups + TransitionGroups(keys[i], documents);
      outcomes := AddTallies(outcomes, tally);
    }
    assert keys[..|keys|] == keys;
  }

  lemma SeriesStep(keys: seq<SeriesKey>, observations: seq<Observation>, i: nat)
    requires i < |keys|
    ensures GroupsOf(keys[..i+1], observations)
         == GroupsOf(keys[..i], observations) + TransitionGroups(keys[i], DerivedSeries(observations, keys[i]).documents)
    ensures OutcomesOf(keys[..i+1], observations)
         == AddTallies(OutcomesOf(keys[..i], observations), DerivedSeries(observations, keys[i]).outcomes)
  {
    assert keys[..i+1][..i] == keys[..i];
  }

  // ------------------------------------------------------------------ properties

  lemma {:induction false} OutcomesAddUp(keys: seq<SeriesKey>, observations: seq<Observation>)
    ensures OutcomesOf(keys, observations).Sum() == GroupedTotal(keys, observations)
  {
    if keys != [] {
      var k := keys[|keys|-1];
      OutcomesAddUp(keys[..|keys|-1], observations);
      OutcomesPartition(RowsIn(Select(observations, SeriesOf, k)));
      RowsInAt(Select(observations, SeriesOf, k));
    }
  }

  ghost function GroupedTotal(keys: seq<SeriesKey>, observations: seq<Observation>): int {
    if keys == [] then 0
    else GroupedTotal(keys[..|keys|-1], observations) + |Select(observations, SeriesOf, keys[|keys|-1])|
  }

  lemma {:induction false} GroupedTotalAppend(keys: seq<SeriesKey>, observations: seq<Observation>, o: Observation)
    requires Distinct(keys)
    ensures GroupedTotal(keys, observations + [o]) == GroupedTotal(keys, observations) + if o.series in keys then 1 else 0
  {
    if keys != [] {
      var n := |keys| - 1;
      GroupedTotalAppend(keys[..n], observations, o);
      SelectAppend(observations, o, SeriesOf, keys[n]);
      assert keys == keys[..n] + [keys[n]] && keys[n] !in keys[..n];
    }
  }

  lemma {:induction false} GroupedTotalIsAll(keys: seq<SeriesKey>, observations: seq<Observation>)
    requires Covers(keys, observations, SeriesOf)
    ensures GroupedTotal(keys, observations) == |observations|
  {
    if observations == [] {
      if keys != [] { GroupedTotalIsAll(keys[..|keys|-1], []); }
    } else {
      var n := |observations| - 1;
      GroupedTotalIsAll(keys, observations[..n]);
      GroupedTotalAppend(keys, observations[..n], observations[n]);
      assert observations == observations[..n] + [observations[n]];
    }
  }

  /** Over all series: every eligible record has one of the five outcomes, every record is
      eligible or has a reason. */
  lemma StateConservation(a: Adapters, encode: SeriesKey -> string, rows: seq<Admitted>)
    requires Injective(encode)
    ensures var f := StateFamily(a, encode, rows);
      f.outcomes.Sum() == f.eligible && f.eligible + |f.reasons| == f.applicable
  {
    var observations := Observations(a, rows);
    var keys := EmissionOrder(encode, KeySet(observations, SeriesOf));
    KeySetMembers(observations, SeriesOf);
    OutcomesAddUp(keys, observations);
    GroupedTotalIsAll(keys, observations);
    EligibilityPartition(rows, r => ReadState(a, r));
  }

  // ------------------------------------------------------- what the pack relies on

  ghost predicate TransitionShape(g: Group, k: SeriesKey) {
    g.key.TransitionKey? && g.key.series == k && |g.members| == 2 && Distinct(g.members)
  }

  ghost predicate InSeries(groups: seq<Group>, keys: seq<SeriesKey>) {
    forall i :: 0 <= i < |groups| ==>
      groups[i].key.TransitionKey? && groups[i].key.series in keys && TransitionShape(groups[i], groups[i].key.series)
  }

  lemma OneSeriesFacts(observations: seq<Observation>, k: SeriesKey)
    requires UniqueObservations(observations)
    ensures var gs := TransitionGroups(k, DerivedSeries(observations, k).documents);
      DistinctKeys(gs) && InSeries(gs, [k])
  {
    SeriesRowsUnique(observations, k);
    DerivedDistinct(RowsIn(Select(observations, SeriesOf, k)));
    var d := DerivedSeries(observations, k).documents;
    var gs := TransitionGroups(k, d);
    forall i, j | 0 <= i < j < |gs| ensures gs[i].key != gs[j].key {
      assert gs[i].key.afterTime == d[i].after.time && gs[j].key.afterTime == d[j].after.time;
    }
  }

  /** Each transition document has its own group key and exactly two members. */
  lemma {:induction false} TransitionGroupFacts(keys: seq<SeriesKey>, observations: seq<Observation>)
    requires Distinct(keys) && UniqueObservations(observations)
    ensures DistinctKeys(GroupsOf(keys, observations)) && InSeries(GroupsOf(keys, observations), keys)
  {
    if keys != [] {
      var n := |keys| - 1;
      var front := GroupsOf(keys[..n], observations);
      var last := TransitionGroups(keys[n], DerivedSeries(observations, keys[n]).documents);
      assert DistinctKeys(front) && InSeries(front, keys[..n]) by { TransitionGroupFacts(keys[..n], observations); }
      assert DistinctKeys(last) && InSeries(last, [keys[n]]) by { OneSeriesFacts(observations, keys[n]); }
      SeriesConcat(front, last, keys);
    }
  }

  lemma SeriesConcat(a: seq<Group>, b: seq<Group>, keys: seq<SeriesKey>)
    requires keys != [] && Distinct(keys)
    requires DistinctKeys(a) && InSeries(a, keys[..|keys|-1]) && DistinctKeys(b) && InSeries(b, [keys[|keys|-1]])
    ensures DistinctKeys(a + b) && InSeries(a + b, keys)
  {
    var n := |keys| - 1;
    assert keys == keys[..n] + [keys[n]] && keys[n] !in keys[..n];
    forall i, j | 0 <= i < j < |a + b| ensures (a + b)[i].key != (a + b)[j].key {
      if i < |a| <= j {
        assert a[i].key.series in keys[..n] && b[j - |a|].key.series == keys[n];
      }
    }
  }

  lemma StateFamilyFacts(a: Adapters, encode: SeriesKey -> string, rows: seq<Admitted>)
    requires Injective(encode) && OneRowPerEvent(rows)
    ensures FamilyShape(StateFamily(a, encode, rows).groups, StateTransition, 2 * |StateFamily(a, encode, rows).groups|)
    ensures forall g <- StateFamily(a, encode, rows).groups :: Distinct(g.members)
  {
    var observations := Observations(a, rows);
    var keys := EmissionOrder(encode, KeySet(observations, SeriesOf));
    ObservationsUnique(a, rows);
    TransitionGroupFacts(keys, observations);
    var groups := GroupsOf(keys, observations);
    TotalOfConstant(groups, MemberCount, 2);
  }
}
