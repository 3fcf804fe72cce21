/** The metric and network families: fixed-width windows with conserved aggregates. */
module Windows {
  import opened Ordering
  import opened Wrappers
  import opened Grouping
  import opened MembershipDigest
  import opened DerivationTypes
  import opened Families

  // ---------------------------------------------------------------- windows

  function WindowStart(millis: nat): nat { (millis / WINDOW_MILLIS) * WINDOW_MILLIS }

  predicate InWindow(millis: nat, start: nat) { start <= millis < start + WINDOW_MILLIS }

  /** An instant lies in its own half-open window and in no other aligned window. */
  lemma WindowsPartitionTime(millis: nat, k: nat)
    ensures InWindow(millis, WindowStart(millis))
    ensures InWindow(millis, k * WINDOW_MILLIS) <==> k * WINDOW_MILLIS == WindowStart(millis)
  {}

  // ----------------------------------------------------------- integer samples

  function Sum(values: seq<int>): int { Weigh(values, v => v) }

  function Least(values: seq<int>): (m: int)
    requires values != []
    ensures m in values && forall v <- values :: m <= v
  {
    if |values| == 1 then values[0]
    else
      var m := Least(values[1..]);
      assert forall v <- values :: v == values[0] || v in values[1..];
      if values[0] < m then values[0] else m
  }

  function Greatest(values: seq<int>): (m: int)
    requires values != []
    ensures m in values && forall v <- values :: v <= m
  {
    if |values| == 1 then values[0]
    else
      var m := Greatest(values[1..]);
      assert forall v <- values :: v == values[0] || v in values[1..];
      if values[0] > m then values[0] else m
  }

  function ExtremesOf(values: seq<int>): Extremes
    requires values != []
  {
    Extremes(Least(values), Greatest(values), Sum(values))
  }

  lemma {:induction false} SumWithin(values: seq<int>, lo: int, hi: int)
    requires forall i :: 0 <= i < |values| ==> lo <= values[i] <= hi
    ensures |values| * lo <= Sum(values) <= |values| * hi
  {
    if values != [] {
      SumWithin(values[..|values|-1], lo, hi);
      assert |values| * lo == (|values| - 1) * lo + lo && |values| * hi == (|values| - 1) * hi + hi;
    }
  }

  /** count * minimum <= sum <= count * maximum. */
  lemma ExtremesBoundSum(values: seq<int>)
    requires values != []
    ensures |values| * ExtremesOf(values).minimum <= ExtremesOf(values).sum <= |values| * ExtremesOf(values).maximum
  {
    assert forall i :: 0 <= i < |values| ==> values[i] in values;
    SumWithin(values, Least(values), Greatest(values));
  }

  // ------------------------------------------------------------------- metric

  datatype Sample = Sample(key: GroupKey, value: int, member: Member)

  /** The checks of the metric loop, in the order in which the source makes them. */
  function ReadMetric(a: Adapters, row: Admitted): Reading<Sample> {
    match a.parse(row.payload)
    case None => Rejected("typed_event_unavailable")
    case Some(value) =>
      match a.time(value)
      case NoTime(reason) => Rejected(reason)
      case Time(millis) =>
        match a.metric(value)
        case None => Rejected("missing_metric")
        case Some(metric) =>
          match a.valueMilli(value)
          case None => Rejected("invalid_value")
          case Some(number) =>
            if row.scope == {} then Rejected("missing_canonical_scope")
            else Eligible(Sample(
              MetricKey(a.sourceType(value), metric, a.unit(value), row.scope, WindowStart(millis)),
              number, Member(row.occurrenceId, "sample")))
  }

  function OccurrenceId(r: Admitted): string { r.occurrenceId }
  function SampleOccurrence(s: Sample): string { s.member.occurrenceId }

  function SampleKey(s: Sample): GroupKey { s.key }
  function SampleValue(s: Sample): int { s.value }

  datatype MetricState = MetricState(values: seq<int>, members: seq<Member>)

  const NO_SAMPLES := MetricState([], [])

  function AddSample(g: MetricState, s: Sample): MetricState {
    MetricState(g.values + [s.value], g.members + [s.member])
  }

  function MetricFold(samples: seq<Sample>): MetricState { Fold(NO_SAMPLES, AddSample, samples) }

  lemma {:induction false} MetricFoldFacts(samples: seq<Sample>)
    ensures var g := MetricFold(samples);
      && |g.values| == |g.members| == |samples|
      && Sum(g.values) == Weigh(samples, SampleValue)
      && forall i :: 0 <= i < |samples| ==> g.members[i] == samples[i].member && g.values[i] == samples[i].value
  {
    if samples != [] {
      var n := |samples| - 1;
      MetricFoldFacts(samples[..n]);
      WeighAppend(MetricFold(samples[..n]).values, samples[n].value, v => v);
    }
  }

  function MetricGroup(k: GroupKey, g: MetricState): Group
    requires g.values != []
  {
    Group(k, MetricAggregate(|g.values|, ExtremesOf(g.values)), g.members)
  }

  /** The document of one window. */
  ghost function MetricGroupOf(samples: seq<Sample>, k: GroupKey): Group
    requires k in KeySet(samples, SampleKey)
  {
    KeySetMembers(samples, SampleKey);
    MetricFoldFacts(Select(samples, SampleKey, k));
    MetricGroup(k, MetricFold(Select(samples, SampleKey, k)))
  }

  ghost function MetricGroups(keys: seq<GroupKey>, samples: seq<Sample>): (r: seq<Group>)
    requires forall i :: 0 <= i < |keys| ==> keys[i] in KeySet(samples, SampleKey)
  {
    seq(|keys|, i requires 0 <= i < |keys| => MetricGroupOf(samples, keys[i]))
  }

  /** What the metric family derives from its applicable rows. */
  ghost function MetricFamily(a: Adapters, encode: GroupKey -> string, rows: seq<Admitted>): Family
    requires Injective(encode)
  {
    var samples := MetricSamples(a, rows);
    var keys := EmissionOrder(encode, KeySet(samples, SampleKey));
    Family(MetricGroups(keys, samples), |rows|, |samples|, ReasonsOf(rows, r => ReadMetric(a, r)))
  }

  ghost function MetricSamples(a: Adapters, rows: seq<Admitted>): seq<Sample> {
    EligibleOf(rows, r => ReadMetric(a, r))
  }

  // conservation over the metric windows

  function SampleCount(g: Group): int { if g.aggregate.MetricAggregate? then g.aggregate.sampleCount else 0 }
  function SampleSum(g: Group): int { if g.aggregate.MetricAggregate? then g.aggregate.extremes.sum else 0 }

  lemma {:induction false} MetricTotals(keys: seq<GroupKey>, samples: seq<Sample>, measure: Group -> int, weight: Sample -> int)
    requires forall i :: 0 <= i < |keys| ==> keys[i] in KeySet(samples, SampleKey)
    requires forall i :: 0 <= i < |keys| ==>
      measure(MetricGroupOf(samples, keys[i])) == Weigh(Select(samples, SampleKey, keys[i]), weight)
    ensures TotalOf(MetricGroups(keys, samples), measure) == GroupedWeight(keys, samples, SampleKey, weight)
  {
    if keys != [] {
      MetricTotals(keys[1..], samples, measure, weight);
      assert MetricGroups(keys, samples)[1..] == MetricGroups(keys[1..], samples);
    }
  }

  /** Counts and integer sums over the windows equal the corpus totals; nothing is dropped. */
  lemma MetricConservation(a: Adapters, encode: GroupKey -> string, rows: seq<Admitted>)
    requires Injective(encode)
    ensures var f := MetricFamily(a, encode, rows);
      && TotalOf(f.groups, SampleCount) == f.eligible
      && TotalOf(f.groups, SampleSum) == Weigh(MetricSamples(a, rows), SampleValue)
      && f.eligible + |f.reasons| == f.applicable
  {
    var samples := MetricSamples(a, rows);
    var keys := EmissionOrder(encode, KeySet(samples, SampleKey));
    KeySetMembers(samples, SampleKey);
    forall i | 0 <= i < |keys|
      ensures SampleCount(MetricGroupOf(samples, keys[i])) == Weigh(Select(samples, SampleKey, keys[i]), One)
      ensures SampleSum(MetricGroupOf(samples, keys[i])) == Weigh(Select(samples, SampleKey, keys[i]), SampleValue)
    {
      MetricFoldFacts(Select(samples, SampleKey, keys[i]));
      CountOnes(Select(samples, SampleKey, keys[i]));
    }
    MetricTotals(keys, samples, SampleCount, One);
    MetricTotals(keys, samples, SampleSum, SampleValue);
    Conservation(keys, samples, SampleKey, One);
    Conservation(keys, samples, SampleKey, SampleValue);
    CountOnes(samples);
    EligibilityPartition(rows, r => ReadMetric(a, r));
  }

  /** The time the metric and network loops read from a row. */
  ghost function TimeOf(a: Adapters, row: Admitted): TimeReading {
    match a.parse(row.payload) case None => NoTime("typed_event_unavailable") case Some(value) => a.time(value)
  }

  ghost function WindowOf(k: GroupKey): nat {
    match k
    case MetricKey(_, _, _, _, start) => start
    case NetworkKey(_, _, _, _, _, start) => start
    case _ => 0
  }

  lemma MetricGroupFacts(samples: seq<Sample>, at: nat)
    requires at < |samples|
    ensures samples[at].key in KeySet(samples, SampleKey)
    ensures var g := MetricGroupOf(samples, samples[at].key);
      && g.key == samples[at].key && samples[at].member in g.members && g.aggregate.MetricAggregate?
      && var m := g.aggregate;
        m.sampleCount * m.extremes.minimum <= m.extremes.sum <= m.sampleCount * m.extremes.maximum
  {
    KeySetMembers(samples, SampleKey);
    assert SampleKey(samples[at]) in KeySet(samples, SampleKey);
    var sel := Select(samples, SampleKey, samples[at].key);
    SelectMembers(samples, SampleKey, samples[at].key);
    MetricFoldFacts(sel);
    assert samples[at] in sel;
    ExtremesBoundSum(MetricFold(sel).values);
  }

  lemma OneGroupPerSample(keys: seq<GroupKey>, samples: seq<Sample>, at: nat) returns (i: nat)
    requires Distinct(keys) && (forall k :: k in keys <==> k in KeySet(samples, SampleKey)) && at < |samples|
    ensures i < |keys|
    ensures var groups, s := MetricGroups(keys, samples), samples[at];
      && groups[i].key == s.key && s.member in groups[i].members
      && (forall j :: 0 <= j < |groups| && j != i ==> groups[j].key != s.key)
      && groups[i].aggregate.MetricAggregate?
      && var m := groups[i].aggregate;
        m.sampleCount * m.extremes.minimum <= m.extremes.sum <= m.sampleCount * m.extremes.maximum
  {
    MetricGroupFacts(samples, at);
    i :| 0 <= i < |keys| && keys[i] == samples[at].key;
    forall j | 0 <= j < |keys| && j != i ensures MetricGroupOf(samples, keys[j]).key != samples[at].key {}
  }

  lemma NoOtherGroup(keys: seq<GroupKey>, samples: seq<Sample>, at: nat, i: nat)
    requires Distinct(keys) && (forall k <- keys :: k in KeySet(samples, SampleKey)) && at < |samples|
    requires UniqueBy(SampleOccurrence, samples) && i < |keys| && keys[i] == samples[at].key
    ensures forall j :: 0 <= j < |keys| && j != i ==> samples[at].member !in MetricGroups(keys, samples)[j].members
  {
    forall j | 0 <= j < |keys| && j != i ensures samples[at].member !in MetricGroupOf(samples, keys[j]).members {
      assert keys[j] in keys && samples[at] in samples;
      SampleElsewhere(samples, samples[at], keys[j]);
    }
  }

  lemma MetricReadingWindow(a: Adapters, row: Admitted)
    requires ReadMetric(a, row).Eligible?
    ensures TimeOf(a, row).Time? && InWindow(TimeOf(a, row).millis, WindowOf(ReadMetric(a, row).observation.key))
    ensures ReadMetric(a, row).observation.member == Member(row.occurrenceId, "sample")
  {
    WindowsPartitionTime(TimeOf(a, row).millis, 0);
  }

  /** Samples of different occurrences are members of no group but their own. */
  lemma SampleElsewhere(samples: seq<Sample>, s: Sample, k: GroupKey)
    requires UniqueBy(SampleOccurrence, samples) && s in samples && k in KeySet(samples, SampleKey) && k != s.key
    ensures s.member !in MetricGroupOf(samples, k).members
  {
    var sel := Select(samples, SampleKey, k);
    SelectMembers(samples, SampleKey, k);
    MetricFoldFacts(sel);
    forall i | 0 <= i < |sel| ensures sel[i].member != s.member {
      assert sel[i] in sel;
      if sel[i].member == s.member { UniqueMember(SampleOccurrence, samples, sel[i], s); }
    }
  }

  /** Each eligible row lies in exactly one window document: the only one under its key, whose
      half-open interval holds its time and whose extremes bound its sum. Rows of different
      occurrences are members of no other document. */
  lemma MetricRowHasOneWindow(a: Adapters, encode: GroupKey -> string, rows: seq<Admitted>, row: Admitted)
    returns (i: nat)
    requires Injective(encode) && row in rows && ReadMetric(a, row).Eligible?
    ensures i < |MetricFamily(a, encode, rows).groups|
    ensures var groups, s := MetricFamily(a, encode, rows).groups, ReadMetric(a, row).observation;
      && groups[i].key == s.key && s.member in groups[i].members
      && TimeOf(a, row).Time? && InWindow(TimeOf(a, row).millis, WindowOf(s.key))
      && (forall j :: 0 <= j < |groups| && j != i ==> groups[j].key != s.key)
      && (UniqueBy(OccurrenceId, rows) ==> forall j :: 0 <= j < |groups| && j != i ==> s.member !in groups[j].members)
      && groups[i].aggregate.MetricAggregate?
      && var m := groups[i].aggregate;
        m.sampleCount * m.extremes.minimum <= m.extremes.sum <= m.sampleCount * m.extremes.maximum
  {
    var samples := MetricSamples(a, rows);
    var keys := EmissionOrder(encode, KeySet(samples, SampleKey));
    var at := EligibleMembers(rows, r => ReadMetric(a, r), row);
    i := OneGroupPerSample(keys, samples, at);
    MetricReadingWindow(a, row);
    if UniqueBy(OccurrenceId, rows) {
      MetricOccurrences(a, rows);
      NoOtherGroup(keys, samples, at, i);
    }
  }

  lemma MetricGroupFor(a: Adapters, encode: GroupKey -> string, rows: seq<Admitted>, row: Admitted, groups: seq<Group>)
    returns (i: nat)
    requires Injective(encode) && groups == MetricFamily(a, encode, rows).groups && row in rows && ReadMetric(a, row).Eligible?
    ensures i < |groups| && groups[i].key == ReadMetric(a, row).observation.key
    ensures Member(row.occurrenceId, "sample") in groups[i].members
  {
    var samples := MetricSamples(a, rows);
    var at := EligibleMembers(rows, r => ReadMetric(a, r), row);
    MetricReadingWindow(a, row);
    SampleHere(samples, at);
    var keys := EmissionOrder(encode, KeySet(samples, SampleKey));
    i :| 0 <= i < |keys| && keys[i] == samples[at].key;
  }

  lemma SampleHere(samples: seq<Sample>, at: nat)
    requires at < |samples|
    ensures samples[at].key in KeySet(samples, SampleKey)
    ensures samples[at].member in MetricGroupOf(samples, samples[at].key).members
  {
    MetricGroupFacts(samples, at);
  }

  /** Without different occurrences the last clause fails: a shared one is a member of two documents. */
  lemma SharedOccurrenceInTwoWindows(a: Adapters, encode: GroupKey -> string, rows: seq<Admitted>, p: Admitted, q: Admitted,
                                     groups: seq<Group>)
    returns (i: nat, j: nat)
    requires Injective(encode) && groups == MetricFamily(a, encode, rows).groups && p in rows && q in rows
    requires ReadMetric(a, p).Eligible? && ReadMetric(a, q).Eligible?
    requires p.occurrenceId == q.occurrenceId && ReadMetric(a, p).observation.key != ReadMetric(a, q).observation.key
    ensures i < |groups| && j < |groups| && i != j
    ensures Member(p.occurrenceId, "sample") in groups[i].members && Member(p.occurrenceId, "sample") in groups[j].members
  {
    i := MetricGroupFor(a, encode, rows, p, groups);
    j := MetricGroupFor(a, encode, rows, q, groups);
  }

  lemma MetricOccurrences(a: Adapters, rows: seq<Admitted>)
    requires UniqueBy(OccurrenceId, rows)
    ensures UniqueBy(SampleOccurrence, MetricSamples(a, rows))
  {
    EligibleUniqueBy(rows, r => ReadMetric(a, r), OccurrenceId, SampleOccurrence);
  }

  lemma MetricMemberSample(samples: seq<Sample>, k: GroupKey, m: Member) returns (j: nat)
    requires k in KeySet(samples, SampleKey) && m in MetricGroupOf(samples, k).members
    ensures j < |samples| && samples[j].key == k && samples[j].member == m
  {
    var sel := Select(samples, SampleKey, k);
    MetricFoldFacts(sel);
    var i :| 0 <= i < |sel| && sel[i].member == m;
    j := SelectedFrom(samples, SampleKey, k, i);
  }

  lemma MetricSampleRow(a: Adapters, rows: seq<Admitted>, j: nat) returns (row: Admitted)
    requires j < |MetricSamples(a, rows)|
    ensures var s := MetricSamples(a, rows)[j];
      && row in rows && ReadMetric(a, row) == Eligible(s) && s.member == Member(row.occurrenceId, "sample")
      && TimeOf(a, row).Time? && InWindow(TimeOf(a, row).millis, WindowOf(s.key))
  {
    var n := EligibleFrom(rows, r => ReadMetric(a, r), j);
    row := rows[n];
    MetricReadingWindow(a, row);
  }

  /** Conversely, every member of a window document comes from an eligible row under its key, whose
      time lies in that window. */
  lemma MetricWindowHoldsItsRows(a: Adapters, encode: GroupKey -> string, rows: seq<Admitted>, i: nat, m: Member)
    returns (row: Admitted)
    requires Injective(encode) && i < |MetricFamily(a, encode, rows).groups|
    requires m in MetricFamily(a, encode, rows).groups[i].members
    ensures row in rows && ReadMetric(a, row).Eligible? && m == Member(row.occurrenceId, "sample")
    ensures var k := MetricFamily(a, encode, rows).groups[i].key;
      ReadMetric(a, row).observation.key == k && TimeOf(a, row).Time? && InWindow(TimeOf(a, row).millis, WindowOf(k))
  {
    var samples := MetricSamples(a, rows);
    var keys := EmissionOrder(encode, KeySet(samples, SampleKey));
    assert keys[i] in keys;
    var j := MetricMemberSample(samples, keys[i], m);
    row := MetricSampleRow(a, rows, j);
  }

  lemma MetricEntry(groups: map<GroupKey, MetricState>, samples: seq<Sample>, k: GroupKey)
    requires IsTable(groups, samples, SampleKey, NO_SAMPLES, AddSample) && k in groups
    ensures groups[k].values != [] && MetricGroup(k, groups[k]) == MetricGroupOf(samples, k)
  {
    KeySetMembers(samples, SampleKey);
    MetricFoldFacts(Select(samples, SampleKey, k));
  }

  method DeriveMetric(a: Adapters, encode: GroupKey -> string, rows: seq<Admitted>) returns (family: Family)
    requires Injective(encode)
    ensures family == MetricFamily(a, encode, rows)
  {
    var groups, applicable, eligible, reasons :=
      FileRows(rows, r => ReadMetric(a, r), SampleKey, NO_SAMPLES, AddSample);
    var keys := EmissionOrder(encode, groups.Keys);
    var emitted := MetricDocuments(keys, groups, MetricSamples(a, rows));
    family := Family(emitted, applicable, eligible, reasons);
  }

  method MetricDocuments(keys: seq<GroupKey>, groups: map<GroupKey, MetricState>, ghost observed: seq<Sample>)
    returns (emitted: seq<Group>)
    requires IsTable(groups, observed, SampleKey, NO_SAMPLES, AddSample)
    requires forall k <- keys :: k in groups
    ensures emitted == MetricGroups(keys, observed)
  {
    MetricEntries(keys, groups, observed);
    emitted := EmitMetric(keys, groups);
    SameGroups(emitted, MetricGroups(keys, observed));
  }

  lemma MetricEntries(keys: seq<GroupKey>, groups: map<GroupKey, MetricState>, samples: seq<Sample>)
    requires IsTable(groups, samples, SampleKey, NO_SAMPLES, AddSample)
    requires forall k <- keys :: k in groups
    ensures forall i :: 0 <= i < |keys| ==> groups[keys[i]].values != []
    ensures forall i :: 0 <= i < |keys| ==> MetricGroups(keys, samples)[i] == MetricGroup(keys[i], groups[keys[i]])
  {
    forall i | 0 <= i < |keys| { MetricEntry(groups, samples, keys[i]); }
  }

  /** The second loop of the family: one document per group, in emission order. */
  method EmitMetric(keys: seq<GroupKey>, groups: map<GroupKey, MetricState>) returns (emitted: seq<Group>)
    requires forall i :: 0 <= i < |keys| ==> keys[i] in groups && groups[keys[i]].values != []
    ensures |emitted| == |keys|
    ensures forall i :: 0 <= i < |keys| ==> emitted[i] == MetricGroup(keys[i], groups[keys[i]])
  {
    emitted := [];
    for i := 0 to |keys|
      invariant |emitted| == i
      invariant forall j :: 0 <= j < i ==> emitted[j] == MetricGroup(keys[j], groups[keys[j]])
    {
      emitted := emitted + [MetricGroup(keys[i], groups[keys[i]])];
    }
  }

  // ------------------------------------------------------------------- network

  /** An eligible network event: the measures it carries, and its outcome. */
  datatype NetEvent = NetEvent(key: GroupKey, measured: map<MeasureName, int>, outcome: string, member: Member)

  function ReadNetwork(a: Adapters, row: Admitted): Reading<NetEvent> {
    match a.parse(row.payload)
    case None => Rejected("typed_event_unavailable")
    case Some(value) =>
      match a.time(value)
      case NoTime(reason) => Rejected(reason)
      case Time(millis) =>
        if row.scope == {} then Rejected("missing_canonical_scope")
        else Eligible(NetEvent(
          NetworkKey(row.relation, a.sourceType(value), a.operation(value), a.protocol(value), row.scope,
                     WindowStart(millis)),
          map name | name in MEASURES && a.measure(name, value).Some? :: a.measure(name, value).value,
          a.outcome(value), Member(row.occurrenceId, "event")))
  }

  function EventKey(e: NetEvent): GroupKey { e.key }
  function EventOccurrence(e: NetEvent): string { e.member.occurrenceId }

  datatype NetworkState = NetworkState(
    members: seq<Member>, measures: map<MeasureName, seq<int>>, missing: multiset<MeasureName>, outcomes: multiset<string>)

  const NO_EVENTS := NetworkState([], map name | name in MEASURES :: [], multiset{}, multiset{})

  function AddEvent(g: NetworkState, e: NetEvent): NetworkState {
    NetworkState(
      g.members + [e.member],
      map name | name in g.measures :: g.measures[name] + if name in e.measured then [e.measured[name]] else [],
      g.missing + multiset(MEASURES - e.measured.Keys),
      g.outcomes + multiset{e.outcome})
  }

  function NetworkFold(events: seq<NetEvent>): NetworkState { Fold(NO_EVENTS, AddEvent, events) }

  function MeasureOf(g: NetworkState, name: MeasureName): Measure
    requires name in g.measures
  {
    var values := g.measures[name];
    Measure(|values|, g.missing[name], if values == [] then None else Some(ExtremesOf(values)))
  }

  function NetworkGroup(k: GroupKey, g: NetworkState): Group {
    Group(k,
          NetworkAggregate(|g.members|, map name | name in g.measures :: MeasureOf(g, name), g.outcomes),
          g.members)
  }

  /** A measure or a histogram bar of a single event, as a weight. */
  function Observed(name: MeasureName): NetEvent -> int { (e: NetEvent) => if name in e.measured then 1 else 0 }
  function Amount(name: MeasureName): NetEvent -> int { (e: NetEvent) => if name in e.measured then e.measured[name] else 0 }
  function Ended(outcome: string): NetEvent -> int { (e: NetEvent) => if e.outcome == outcome then 1 else 0 }

  lemma {:induction false} NetworkFoldShape(events: seq<NetEvent>)
    ensures var g := NetworkFold(events);
      && g.measures.Keys == MEASURES && |g.members| == |g.outcomes| == |events|
      && forall i :: 0 <= i < |events| ==> g.members[i] == events[i].member
  {
    if events != [] { NetworkFoldShape(events[..|events|-1]); }
  }

  lemma {:induction false} NetworkFoldMeasure(events: seq<NetEvent>, name: MeasureName)
    requires name in NetworkFold(events).measures && name in MEASURES
    ensures var g := NetworkFold(events);
      && |g.measures[name]| + g.missing[name] == |events|
      && |g.measures[name]| == Weigh(events, Observed(name))
      && Sum(g.measures[name]) == Weigh(events, Amount(name))
  {
    if events != [] {
      var n := |events| - 1;
      var e, g := events[n], NetworkFold(events[..n]);
      NetworkFoldMeasure(events[..n], name);
      if name in e.measured {
        WeighAppend(g.measures[name], e.measured[name], v => v);
      } else {
        assert g.measures[name] + [] == g.measures[name];
      }
    }
  }

  lemma {:induction false} NetworkFoldOutcome(events: seq<NetEvent>, outcome: string)
    ensures NetworkFold(events).outcomes[outcome] == Weigh(events, Ended(outcome))
  {
    if events != [] { NetworkFoldOutcome(events[..|events|-1], outcome); }
  }

  ghost function NetworkGroupOf(events: seq<NetEvent>, k: GroupKey): Group {
    NetworkGroup(k, NetworkFold(Select(events, EventKey, k)))
  }

  ghost function NetworkGroups(keys: seq<GroupKey>, events: seq<NetEvent>): seq<Group> {
    seq(|keys|, i requires 0 <= i < |keys| => NetworkGroupOf(events, keys[i]))
  }

  ghost function NetworkEvents(a: Adapters, rows: seq<Admitted>): seq<NetEvent> {
    EligibleOf(rows, r => ReadNetwork(a, r))
  }

  ghost function NetworkFamily(a: Adapters, encode: GroupKey -> string, rows: seq<Admitted>): Family
    requires Injective(encode)
  {
    var events := NetworkEvents(a, rows);
    var keys := EmissionOrder(encode, KeySet(events, EventKey));
    Family(NetworkGroups(keys, events), |rows|, |events|, ReasonsOf(rows, r => ReadNetwork(a, r)))
  }

  function EventCount(g: Group): int { if g.aggregate.NetworkAggregate? then g.aggregate.eventCount else 0 }

  function ObservedIn(name: MeasureName): Group -> int {
    (g: Group) => if g.aggregate.NetworkAggregate? && name in g.aggregate.measures
                  then g.aggregate.measures[name].observed else 0
  }

  function MeasureSum(name: MeasureName): Group -> int {
    (g: Group) => if g.aggregate.NetworkAggregate? && name in g.aggregate.measures
                     && g.aggregate.measures[name].extremes.Some?
                  then g.aggregate.measures[name].extremes.value.sum else 0
  }

  function OutcomeCount(outcome: string): Group -> int {
    (g: Group) => if g.aggregate.NetworkAggregate? then g.aggregate.outcomes[outcome] else 0
  }

  /** Within one window: observed + missing = events for each measure, the histogram sums to the
      events, and every observed measure satisfies count * min <= sum <= count * max. */
  lemma NetworkGroupFacts(events: seq<NetEvent>, k: GroupKey, name: MeasureName, outcome: string)
    requires name in MEASURES
    ensures var sel, g := Select(events, EventKey, k), NetworkGroupOf(events, k);
      && g.aggregate.NetworkAggregate? && name in g.aggregate.measures
      && EventCount(g) == |sel| == |g.aggregate.outcomes| == |g.members|
      && ObservedIn(name)(g) == Weigh(sel, Observed(name))
      && MeasureSum(name)(g) == Weigh(sel, Amount(name))
      && OutcomeCount(outcome)(g) == Weigh(sel, Ended(outcome))
      && var m := g.aggregate.measures[name];
        && m.observed + m.missing == g.aggregate.eventCount
        && (m.extremes.Some? <==> m.observed > 0)
        && (m.extremes.Some? ==>
             m.observed * m.extremes.value.minimum <= m.extremes.value.sum <= m.observed * m.extremes.value.maximum)
  {
    var sel := Select(events, EventKey, k);
    NetworkFoldShape(sel);
    NetworkFoldMeasure(sel, name);
    NetworkFoldOutcome(sel, outcome);
    var values := NetworkFold(sel).measures[name];
    if values != [] { ExtremesBoundSum(values); }
  }

  /** If each group measures as its rows weigh, the groups together measure the grouped weight. */
  lemma {:induction false} TotalsAreGroupedWeights(keys: seq<GroupKey>, events: seq<NetEvent>,
                                                   measure: Group -> int, weight: NetEvent -> int)
    requires forall k <- keys :: measure(NetworkGroupOf(events, k)) == Weigh(Select(events, EventKey, k), weight)
    ensures TotalOf(NetworkGroups(keys, events), measure) == GroupedWeight(keys, events, EventKey, weight)
  {
    if keys != [] {
      TotalsAreGroupedWeights(keys[1..], events, measure, weight);
      assert NetworkGroups(keys, events)[1..] == NetworkGroups(keys[1..], events);
    }
  }

  lemma NetworkTotal(keys: seq<GroupKey>, events: seq<NetEvent>, measure: Group -> int, weight: NetEvent -> int)
    requires Distinct(keys) && forall k :: k in keys <==> k in KeySet(events, EventKey)
    requires forall k <- keys :: measure(NetworkGroupOf(events, k)) == Weigh(Select(events, EventKey, k), weight)
    ensures TotalOf(NetworkGroups(keys, events), measure) == Weigh(events, weight)
  {
    TotalsAreGroupedWeights(keys, events, measure, weight);
    KeySetMembers(events, EventKey);
    Conservation(keys, events, EventKey, weight);
  }

  /** Over all windows: events, observations, measure sums and outcome counts are the corpus totals. */
  lemma NetworkConservation(a: Adapters, encode: GroupKey -> string, rows: seq<Admitted>, name: MeasureName, outcome: string)
    requires Injective(encode) && name in MEASURES
    ensures var f, events := NetworkFamily(a, encode, rows), NetworkEvents(a, rows);
      && TotalOf(f.groups, EventCount) == f.eligible
      && TotalOf(f.groups, ObservedIn(name)) == Weigh(events, Observed(name))
      && TotalOf(f.groups, MeasureSum(name)) == Weigh(events, Amount(name))
      && TotalOf(f.groups, OutcomeCount(outcome)) == Weigh(events, Ended(outcome))
      && f.eligible + |f.reasons| == f.applicable
  {
    var events := NetworkEvents(a, rows);
    var keys := EmissionOrder(encode, KeySet(events, EventKey));
    forall k | k in keys
      ensures EventCount(NetworkGroupOf(events, k)) == Weigh(Select(events, EventKey, k), One)
      ensures ObservedIn(name)(NetworkGroupOf(events, k)) == Weigh(Select(events, EventKey, k), Observed(name))
      ensures MeasureSum(name)(NetworkGroupOf(events, k)) == Weigh(Select(events, EventKey, k), Amount(name))
      ensures OutcomeCount(outcome)(NetworkGroupOf(events, k)) == Weigh(Select(events, EventKey, k), Ended(outcome))
    {
      NetworkGroupFacts(events, k, name, outcome);
      CountOnes(Select(events, EventKey, k));
    }
    NetworkTotal(keys, events, EventCount, One);
    NetworkTotal(keys, events, ObservedIn(name), Observed(name));
    NetworkTotal(keys, events, MeasureSum(name), Amount(name));
    NetworkTotal(keys, events, OutcomeCount(outcome), Ended(outcome));
    CountOnes(events);
    EligibilityPartition(rows, r => ReadNetwork(a, r));
  }

  lemma NetworkReadingWindow(a: Adapters, row: Admitted)
    requires ReadNetwork(a, row).Eligible?
    ensures TimeOf(a, row).Time? && InWindow(TimeOf(a, row).millis, WindowOf(ReadNetwork(a, row).observation.key))
  {
    WindowsPartitionTime(TimeOf(a, row).millis, 0);
  }

  lemma NetworkOccurrences(a: Adapters, rows: seq<Admitted>)
    requires UniqueBy(OccurrenceId, rows)
    ensures UniqueBy(EventOccurrence, NetworkEvents(a, rows))
  {
    EligibleUniqueBy(rows, r => ReadNetwork(a, r), OccurrenceId, EventOccurrence);
  }

  /** A group's members are the members of the events under its key. */
  lemma NetworkMembers(events: seq<NetEvent>, k: GroupKey, m: Member)
    ensures m in NetworkGroupOf(events, k).members <==> exists e :: e in events && e.key == k && e.member == m
  {
    var sel := Select(events, EventKey, k);
    SelectMembers(events, EventKey, k);
    NetworkFoldShape(sel);
    if m in NetworkGroupOf(events, k).members {
      var i :| 0 <= i < |sel| && sel[i].member == m;
      assert sel[i] in sel;
    }
    if e :| e in events && e.key == k && e.member == m {
      var i :| 0 <= i < |sel| && sel[i] == e;
      assert NetworkGroupOf(events, k).members[i] == m;
    }
  }

  lemma OneGroupPerEvent(keys: seq<GroupKey>, events: seq<NetEvent>, at: nat) returns (i: nat)
    requires Distinct(keys) && (forall k :: k in keys <==> k in KeySet(events, EventKey)) && at < |events|
    ensures i < |keys|
    ensures var groups, e := NetworkGroups(keys, events), events[at];
      && groups[i].key == e.key && e.member in groups[i].members
      && (forall j :: 0 <= j < |groups| && j != i ==> groups[j].key != e.key)
      && (UniqueBy(EventOccurrence, events) ==> forall j :: 0 <= j < |groups| && j != i ==> e.member !in groups[j].members)
  {
    KeySetMembers(events, EventKey);
    assert EventKey(events[at]) in KeySet(events, EventKey);
    i :| 0 <= i < |keys| && keys[i] == events[at].key;
    NetworkMembers(events, keys[i], events[at].member);
    forall j | 0 <= j < |keys| && j != i && UniqueBy(EventOccurrence, events)
      ensures events[at].member !in NetworkGroupOf(events, keys[j]).members
    {
      NetworkMembers(events, keys[j], events[at].member);
      forall e | e in events && e.member == events[at].member ensures e == events[at] {
        UniqueMember(EventOccurrence, events, e, events[at]);
      }
    }
  }

  /** Each eligible network event lies in exactly one window document, and rows of different
      occurrences are members of no other. */
  lemma NetworkRowHasOneWindow(a: Adapters, encode: GroupKey -> string, rows: seq<Admitted>, row: Admitted)
    returns (i: nat)
    requires Injective(encode) && row in rows && ReadNetwork(a, row).Eligible?
    ensures i < |NetworkFamily(a, encode, rows).groups|
    ensures var groups, e := NetworkFamily(a, encode, rows).groups, ReadNetwork(a, row).observation;
      && groups[i].key == e.key && e.member in groups[i].members
      && TimeOf(a, row).Time? && InWindow(TimeOf(a, row).millis, WindowOf(e.key))
      && (forall j :: 0 <= j < |groups| && j != i ==> groups[j].key != e.key)
      && (UniqueBy(OccurrenceId, rows) ==> forall j :: 0 <= j < |groups| && j != i ==> e.member !in groups[j].members)
  {
    var events := NetworkEvents(a, rows);
    var keys := EmissionOrder(encode, KeySet(events, EventKey));
    var at := EligibleMembers(rows, r => ReadNetwork(a, r), row);
    i := OneGroupPerEvent(keys, events, at);
    NetworkReadingWindow(a, row);
    if UniqueBy(OccurrenceId, rows) { NetworkOccurrences(a, rows); }
  }

  /** Conversely, every member of a network document comes from an eligible event under its key,
      whose time lies in that window. */
  lemma NetworkWindowHoldsItsRows(a: Adapters, encode: GroupKey -> string, rows: seq<Admitted>, i: nat, m: Member)
    returns (row: Admitted)
    requires Injective(encode) && i < |NetworkFamily(a, encode, rows).groups|
    requires m in NetworkFamily(a, encode, rows).groups[i].members
    ensures row in rows && ReadNetwork(a, row).Eligible? && m == Member(row.occurrenceId, "event")
    ensures var k := NetworkFamily(a, encode, rows).groups[i].key;
      ReadNetwork(a, row).observation.key == k && TimeOf(a, row).Time? && InWindow(TimeOf(a, row).millis, WindowOf(k))
  {
    var events := NetworkEvents(a, rows);
    var keys := EmissionOrder(encode, KeySet(events, EventKey));
    NetworkMembers(events, keys[i], m);
    var e :| e in events && e.key == keys[i] && e.member == m;
    var j :| 0 <= j < |events| && events[j] == e;
    var n := EligibleFrom(rows, r => ReadNetwork(a, r), j);
    row := rows[n];
    NetworkReadingWindow(a, row);
  }

  method DeriveNetwork(a: Adapters, encode: GroupKey -> string, rows: seq<Admitted>) returns (family: Family)
    requires Injective(encode)
    ensures family == NetworkFamily(a, encode, rows)
  {
    var groups, applicable, eligible, reasons :=
      FileRows(rows, r => ReadNetwork(a, r), EventKey, NO_EVENTS, AddEvent);
    var keys := EmissionOrder(encode, groups.Keys);
    var emitted := NetworkDocuments(keys, groups, NetworkEvents(a, rows));
    family := Family(emitted, applicable, eligible, reasons);
  }

  method NetworkDocuments(keys: seq<GroupKey>, groups: map<GroupKey, NetworkState>, ghost observed: seq<NetEvent>)
    returns (emitted: seq<Group>)
    requires IsTable(groups, observed, EventKey, NO_EVENTS, AddEvent)
    requires forall k <- keys :: k in groups
    ensures emitted == NetworkGroups(keys, observed)
  {
    NetworkEntries(keys, groups, observed);
    emitted := EmitNetwork(keys, groups);
    SameGroups(emitted, NetworkGroups(keys, observed));
  }

  lemma NetworkEntries(keys: seq<GroupKey>, groups: map<GroupKey, NetworkState>, events: seq<NetEvent>)
    requires IsTable(groups, events, EventKey, NO_EVENTS, AddEvent)
    requires forall k <- keys :: k in groups
    ensures forall i :: 0 <= i < |keys| ==> NetworkGroups(keys, events)[i] == NetworkGroup(keys[i], groups[keys[i]])
  {}

  method EmitNetwork(keys: seq<GroupKey>, groups: map<GroupKey, NetworkState>) returns (emitted: seq<Group>)
    requires forall i :: 0 <= i < |keys| ==> keys[i] in groups
    ensures |emitted| == |keys|
    ensures forall i :: 0 <= i < |keys| ==> emitted[i] == NetworkGroup(keys[i], groups[keys[i]])
  {
    emitted := [];
    for i := 0 to |keys|
      invariant |emitted| == i
      invariant forall j :: 0 <= j < i ==> emitted[j] == NetworkGroup(keys[j], groups[keys[j]])
    {
      emitted := emitted + [NetworkGroup(keys[i], groups[keys[i]])];
    }
  }

  // ------------------------------------------------------- what the pack relies on

  lemma MetricKeysAreMetric(a: Adapters, rows: seq<Admitted>, k: GroupKey)
    requires k in KeySet(MetricSamples(a, rows), SampleKey)
    ensures k.MetricKey?
  {
    var samples := MetricSamples(a, rows);
    KeySetMembers(samples, SampleKey);
    SelectMembers(samples, SampleKey, k);
    var s := Select(samples, SampleKey, k)[0];
    assert s in samples;
    var j :| 0 <= j < |samples| && samples[j] == s;
    var i := EligibleFrom(rows, r => ReadMetric(a, r), j);
  }

  /** Metric documents: their own kind, pairwise different keys, one member per eligible row. */
  lemma MetricFamilyFacts(a: Adapters, encode: GroupKey -> string, rows: seq<Admitted>)
    requires Injective(encode)
    ensures FamilyShape(MetricFamily(a, encode, rows).groups, MetricWindow, MetricFamily(a, encode, rows).eligible)
  {
    var samples := MetricSamples(a, rows);
    var keys := EmissionOrder(encode, KeySet(samples, SampleKey));
    var groups := MetricGroups(keys, samples);
    MetricConservation(a, encode, rows);
    forall i | 0 <= i < |keys|
      ensures groups[i].key == keys[i] && keys[i].MetricKey? && MemberCount(groups[i]) == SampleCount(groups[i])
    {
      MetricKeysAreMetric(a, rows, keys[i]);
      MetricFoldFacts(Select(samples, SampleKey, keys[i]));
    }
    TotalOfSame(groups, MemberCount, SampleCount);
  }

  lemma NetworkKeysAreNetwork(a: Adapters, rows: seq<Admitted>, k: GroupKey)
    requires k in KeySet(NetworkEvents(a, rows), EventKey)
    ensures k.NetworkKey?
  {
    var events := NetworkEvents(a, rows);
    KeySetMembers(events, EventKey);
    SelectMembers(events, EventKey, k);
    var e := Select(events, EventKey, k)[0];
    assert e in events;
    var j :| 0 <= j < |events| && events[j] == e;
    var i := EligibleFrom(rows, r => ReadNetwork(a, r), j);
  }

  lemma NetworkFamilyFacts(a: Adapters, encode: GroupKey -> string, rows: seq<Admitted>)
    requires Injective(encode)
    ensures FamilyShape(NetworkFamily(a, encode, rows).groups, NetworkWindow, NetworkFamily(a, encode, rows).eligible)
  {
    var events := NetworkEvents(a, rows);
    var keys := EmissionOrder(encode, KeySet(events, EventKey));
    var groups := NetworkGroups(keys, events);
    NetworkConservation(a, encode, rows, Bytes, "");
    forall i | 0 <= i < |keys|
      ensures groups[i].key == keys[i] && keys[i].NetworkKey? && MemberCount(groups[i]) == EventCount(groups[i])
    {
      NetworkKeysAreNetwork(a, rows, keys[i]);
    }
    TotalOfSame(groups, MemberCount, EventCount);
  }

  /** Rows of different occurrences give duplicate-free member lists. */
  lemma MetricMembersDistinct(a: Adapters, encode: GroupKey -> string, rows: seq<Admitted>)
    requires Injective(encode) && UniqueBy(OccurrenceId, rows)
    ensures forall g <- MetricFamily(a, encode, rows).groups :: Distinct(g.members)
  {
    var samples := MetricSamples(a, rows);
    MetricOccurrences(a, rows);
    var keys := EmissionOrder(encode, KeySet(samples, SampleKey));
    forall i | 0 <= i < |keys| ensures Distinct(MetricGroupOf(samples, keys[i]).members) {
      SelectUniqueBy(samples, SampleKey, keys[i], SampleOccurrence);
      MetricFoldFacts(Select(samples, SampleKey, keys[i]));
    }
  }

  lemma NetworkMembersDistinct(a: Adapters, encode: GroupKey -> string, rows: seq<Admitted>)
    requires Injective(encode) && UniqueBy(OccurrenceId, rows)
    ensures forall g <- NetworkFamily(a, encode, rows).groups :: Distinct(g.members)
  {
    var events := NetworkEvents(a, rows);
    NetworkOccurrences(a, rows);
    var keys := EmissionOrder(encode, KeySet(events, EventKey));
    forall i | 0 <= i < |keys| ensures Distinct(NetworkGroupOf(events, keys[i]).members) {
      SelectUniqueBy(events, EventKey, keys[i], EventOccurrence);
      NetworkFoldShape(Select(events, EventKey, keys[i]));
    }
  }
}
