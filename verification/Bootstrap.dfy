/** Percentiles and the paired cluster bootstrap, over every sequence of random draws. */
module Bootstrap {
  import opened Ordering
  import opened Wrappers
  import opened Grouping

  // ------------------------------------------------------------------- percentiles

  predicate RealLe(a: real, b: real) { a <= b }

  function Floor(x: real): int { x.Floor }

  function Ceiling(x: real): int { if x.Floor as real == x then x.Floor else x.Floor + 1 }

  /** ordered[lower] * (1 - fraction) + ordered[upper] * fraction */
  function Blend(low: real, high: real, fraction: real): real { low * (1.0 - fraction) + high * fraction }

  function Interpolate(ordered: seq<real>, position: real): real
    requires ordered != [] && 0.0 <= position <= (|ordered| - 1) as real
  {
    var lower, upper := Floor(position), Ceiling(position);
    if lower == upper then ordered[lower] else Blend(ordered[lower], ordered[upper], position - lower as real)
  }

  /** (len(ordered) - 1) * probability */
  function Position(n: nat, probability: real): (x: real)
    requires n > 0 && 0.0 <= probability <= 1.0
    ensures 0.0 <= x <= (n - 1) as real
  {
    (n - 1) as real * probability
  }

  function Percentile(values: seq<real>, probability: real): real
    requires 0.0 <= probability <= 1.0
  {
    if values == [] then 0.0 else Interpolate(Sort(RealLe, values), Position(|values|, probability))
  }

  lemma BlendBetween(low: real, high: real, f: real, g: real)
    requires low <= high && 0.0 <= f <= g <= 1.0
    ensures low <= Blend(low, high, f) <= Blend(low, high, g) <= high
  {
    var w := high - low;
    assert Blend(low, high, f) == low + w * f && Blend(low, high, g) == low + w * g;
    assert 0.0 <= w * f && w * f <= w * g && w * g <= w * 1.0 by {
      assert w * (g - f) >= 0.0 && w * (1.0 - g) >= 0.0;
    }
  }

  /** Between two neighbours of the ordered list, and never below its own lower neighbour. */
  lemma InterpolateBetween(ordered: seq<real>, x: real)
    requires SortedBy(RealLe, ordered) && ordered != [] && 0.0 <= x <= (|ordered| - 1) as real
    ensures ordered[Floor(x)] <= Interpolate(ordered, x) <= ordered[Ceiling(x)]
    ensures ordered[0] <= Interpolate(ordered, x) <= ordered[|ordered|-1]
  {
    var lower, upper := Floor(x), Ceiling(x);
    assert lower == upper || RealLe(ordered[lower], ordered[upper]);
    if lower != upper { BlendBetween(ordered[lower], ordered[upper], x - lower as real, x - lower as real); }
    assert lower == 0 || RealLe(ordered[0], ordered[lower]);
    assert upper == |ordered| - 1 || RealLe(ordered[upper], ordered[|ordered|-1]);
  }

  lemma InterpolateMonotone(ordered: seq<real>, x: real, y: real)
    requires SortedBy(RealLe, ordered) && ordered != [] && 0.0 <= x <= y <= (|ordered| - 1) as real
    ensures Interpolate(ordered, x) <= Interpolate(ordered, y)
  {
    InterpolateBetween(ordered, x);
    InterpolateBetween(ordered, y);
    if Floor(x) == Floor(y) {
      if Ceiling(x) != Floor(x) && Ceiling(y) != Floor(y) {
        assert RealLe(ordered[Floor(x)], ordered[Ceiling(x)]);
        BlendBetween(ordered[Floor(x)], ordered[Ceiling(x)], x - Floor(x) as real, y - Floor(y) as real);
      }
    } else {
      assert Ceiling(x) <= Floor(y);
      assert Ceiling(x) == Floor(y) || RealLe(ordered[Ceiling(x)], ordered[Floor(y)]);
    }
  }

  lemma PositionMonotone(n: nat, p: real, q: real)
    requires n > 0 && 0.0 <= p <= q <= 1.0
    ensures Position(n, p) <= Position(n, q)
  {
    var m := (n - 1) as real;
    assert m * (q - p) >= 0.0;
  }

  lemma SortReals(values: seq<real>)
    ensures SortedBy(RealLe, Sort(RealLe, values))
    ensures forall x :: x in Sort(RealLe, values) <==> x in values
  {
    SortSorted(RealLe, values);
    SortMembers(RealLe, values);
  }

  /** Percentiles rise with the probability. */
  lemma PercentileMonotone(values: seq<real>, p: real, q: real)
    requires 0.0 <= p <= q <= 1.0
    ensures Percentile(values, p) <= Percentile(values, q)
  {
    if values != [] {
      PositionMonotone(|values|, p, q);
      SortReals(values);
      InterpolateMonotone(Sort(RealLe, values), Position(|values|, p), Position(|values|, q));
    }
  }

  lemma Ends(ordered: seq<real>, v: real)
    requires SortedBy(RealLe, ordered) && v in ordered
    ensures ordered[0] <= v <= ordered[|ordered|-1]
  {
    var i :| 0 <= i < |ordered| && ordered[i] == v;
    assert i == 0 || RealLe(ordered[0], ordered[i]);
    assert i == |ordered| - 1 || RealLe(ordered[i], ordered[|ordered|-1]);
  }

  /** A percentile lies between the least and the greatest of the values. */
  lemma PercentileInRange(values: seq<real>, p: real) returns (low: real, high: real)
    requires values != [] && 0.0 <= p <= 1.0
    ensures low in values && high in values && low <= Percentile(values, p) <= high
    ensures forall v <- values :: low <= v <= high
  {
    var ordered := Sort(RealLe, values);
    SortReals(values);
    InterpolateBetween(ordered, Position(|values|, p));
    low, high := ordered[0], ordered[|ordered|-1];
    assert low in ordered && high in ordered;
    forall v | v in values ensures low <= v <= high {
      Ends(ordered, v);
    }
  }

  // ------------------------------------------------------------------------- means

  function Sum(values: seq<real>): real {
    if values == [] then 0.0 else Sum(values[..|values|-1]) + values[|values|-1]
  }

  function Mean(values: seq<real>): real { if values == [] then 0.0 else Sum(values) / |values| as real }

  lemma {:induction false} SumBetween(values: seq<real>, low: real, high: real)
    requires forall v <- values :: low <= v <= high
    ensures low * |values| as real <= Sum(values) <= high * |values| as real
  {
    if values != [] {
      var n := |values| - 1;
      assert values[n] in values;
      assert forall v <- values[..n] :: v in values;
      SumBetween(values[..n], low, high);
      assert low * n as real + low == low * (n + 1) as real && high * n as real + high == high * (n + 1) as real;
    }
  }

  lemma MeanBetween(values: seq<real>, low: real, high: real)
    requires values != [] && forall v <- values :: low <= v <= high
    ensures low <= Mean(values) <= high
  {
    SumBetween(values, low, high);
    var n := |values| as real;
    assert Mean(values) * n == Sum(values);
    Compare(low, Mean(values), n);
    Compare(Mean(values), high, n);
  }

  lemma Compare(a: real, b: real, n: real)
    requires n > 0.0 && a * n <= b * n
    ensures a <= b
  {
    assert a > b ==> (a - b) * n > 0.0;
  }

  // ------------------------------------------------------------------- paired deltas

  /** A fact's value of the metric under one system, with its resampling cluster. */
  datatype FactRow = FactRow(cluster: string, value: Option<real>)

  type Rows = map<string, FactRow>

  predicate Paired(candidate: Rows, baseline: Rows, f: string) {
    f in candidate && f in baseline && candidate[f].value.Some? && baseline[f].value.Some?
  }

  /** Facts for which both systems report the metric, in identity order. */
  function PairedFacts(candidate: Rows, baseline: Rows): (r: seq<string>)
    ensures Distinct(r) && forall f :: f in r <==> Paired(candidate, baseline, f)
  {
    SortedNames(set f | f in candidate && Paired(candidate, baseline, f))
  }

  function ClusterOf(candidate: Rows): string -> string { f => if f in candidate then candidate[f].cluster else "" }

  function Delta(candidate: Rows, baseline: Rows): string -> real {
    f => if Paired(candidate, baseline, f) then candidate[f].value.value - baseline[f].value.value else 0.0
  }

  function Deltas(facts: seq<string>, delta: string -> real): seq<real> {
    seq(|facts|, i requires 0 <= i < |facts| => delta(facts[i]))
  }

  type Clusters = map<string, seq<real>>

  function Appending(delta: string -> real): (seq<real>, string) -> seq<real> { (g, f) => g + [delta(f)] }

  /** deltas_by_cluster: under each cluster the deltas of its own paired facts, each once, in identity order. */
  ghost predicate IsClustered(clusters: Clusters, candidate: Rows, baseline: Rows) {
    ByCluster(clusters, PairedFacts(candidate, baseline), ClusterOf(candidate), Delta(candidate, baseline))
  }

  ghost predicate ByCluster(clusters: Clusters, facts: seq<string>, clusterOf: string -> string, delta: string -> real) {
    IsTable(clusters, facts, clusterOf, [], Appending(delta))
  }

  predicate SameCluster(candidate: Rows, baseline: Rows, f: string) {
    f in candidate && f in baseline && candidate[f].cluster == baseline[f].cluster
  }

  method ClusterDeltas(candidate: Rows, baseline: Rows) returns (ok: bool, clusters: Clusters)
    ensures ok <==> forall f <- PairedFacts(candidate, baseline) :: SameCluster(candidate, baseline, f)
    ensures ok ==> IsClustered(clusters, candidate, baseline)
  {
    var facts := PairedFacts(candidate, baseline);
    var clusterOf, delta := ClusterOf(candidate), Delta(candidate, baseline);
    clusters := map[];
    for i := 0 to |facts|
      invariant forall k :: 0 <= k < i ==> SameCluster(candidate, baseline, facts[k])
      invariant ByCluster(clusters, facts[..i], clusterOf, delta)
    {
      if !SameCluster(candidate, baseline, facts[i]) {
        assert facts[i] in facts;
        return false, clusters;
      }
      FileStep(clusters, facts, i, clusterOf, delta);
      clusters := Filed(clusters, facts[i], clusterOf, [], Appending(delta));
    }
    TakeAll(facts);
    ok := true;
  }

  lemma FileStep(clusters: Clusters, facts: seq<string>, i: nat, clusterOf: string -> string, delta: string -> real)
    requires i < |facts| && ByCluster(clusters, facts[..i], clusterOf, delta)
    ensures ByCluster(Filed(clusters, facts[i], clusterOf, [], Appending(delta)), facts[..i+1], clusterOf, delta)
  {
    PrefixStep(facts, i);
    FiledKeepsTable(clusters, facts[..i], facts[i], clusterOf, [], Appending(delta));
  }

  lemma {:induction false} FoldDeltas(facts: seq<string>, delta: string -> real)
    ensures Fold([], Appending(delta), facts) == Deltas(facts, delta)
  {
    if facts != [] { FoldDeltas(facts[..|facts|-1], delta); }
  }

  /** A cluster's list is that of its own facts, and no cluster is empty. */
  lemma ClusterEntries(clusters: Clusters, facts: seq<string>, clusterOf: string -> string, delta: string -> real)
    requires ByCluster(clusters, facts, clusterOf, delta)
    ensures forall c :: c in clusters ==> clusters[c] == Deltas(Select(facts, clusterOf, c), delta) && clusters[c] != []
  {
    KeySetMembers(facts, clusterOf);
    forall c | c in clusters ensures clusters[c] == Deltas(Select(facts, clusterOf, c), delta) && clusters[c] != [] {
      FoldDeltas(Select(facts, clusterOf, c), delta);
    }
  }

  // ------------------------------------------------------------------------- draws

  /** The outcome of every call of rng.choice(clusters), by sample and position. */
  type Choice = (seq<string>, nat, nat) -> string

  ghost predicate Chooses(choice: Choice) {
    forall s: seq<string>, i: nat, j: nat :: s != [] ==> choice(s, i, j) in s
  }

  /** The values of the sampled clusters, cluster after cluster. */
  function Gather(clusters: Clusters, sampled: seq<string>): seq<real>
    requires forall c <- sampled :: c in clusters
  {
    if sampled == [] then [] else clusters[sampled[0]] + Gather(clusters, sampled[1..])
  }

  function Sampled(choice: Choice, names: seq<string>, i: nat): seq<string> {
    seq(|names|, j requires 0 <= j < |names| => choice(names, i, j))
  }

  lemma SampledMembers(choice: Choice, names: seq<string>, i: nat)
    requires Chooses(choice)
    ensures forall c <- Sampled(choice, names, i) :: c in names
  {}

  ghost predicate IsMeanOf(choice: Choice, clusters: Clusters, i: nat, x: real) {
    var sampled := Sampled(choice, SortedKeys(clusters), i);
    (forall c <- sampled :: c in clusters) && x == Mean(Gather(clusters, sampled))
  }

  /** One bootstrap mean per sample. */
  method Resample(choice: Choice, clusters: Clusters, samples: nat) returns (means: seq<real>)
    requires Chooses(choice)
    ensures AreMeans(choice, clusters, samples, means)
  {
    var names := SortedKeys(clusters);
    means := [];
    for i := 0 to samples
      invariant AreMeans(choice, clusters, i, means)
    {
      var sampled := Sampled(choice, names, i);
      SampledMembers(choice, names, i);
      means := means + [Mean(Gather(clusters, sampled))];
    }
  }

  // ------------------------------------------------------------------- the interval

  /** All deltas, cluster after cluster. */
  function AllDeltas(clusters: Clusters): seq<real> { Gather(clusters, SortedKeys(clusters)) }

  datatype Interval = Interval(paired: nat, delta: real, lower: real, upper: real)

  datatype BootstrapResult = Interval_(interval: Interval) | ClusterMismatch

  ghost predicate AreMeans(choice: Choice, clusters: Clusters, samples: nat, means: seq<real>) {
    |means| == samples && forall i :: 0 <= i < samples ==> IsMeanOf(choice, clusters, i, means[i])
  }

  ghost predicate IsInterval(choice: Choice, clusters: Clusters, samples: nat, r: Interval) {
    if clusters == map[] then r == Interval(0, 0.0, 0.0, 0.0)
    else exists means ::
      AreMeans(choice, clusters, samples, means)
      && r == Interval(|AllDeltas(clusters)|, Mean(AllDeltas(clusters)), Percentile(means, 0.025), Percentile(means, 0.975))
  }

  method PairedBootstrap(candidate: Rows, baseline: Rows, samples: nat, choice: Choice)
    returns (r: BootstrapResult, ghost clusters: Clusters)
    requires Chooses(choice)
    ensures r.ClusterMismatch? <==> exists f :: f in PairedFacts(candidate, baseline) && !SameCluster(candidate, baseline, f)
    ensures r.Interval_? ==> IsClustered(clusters, candidate, baseline)
    ensures r.Interval_? ==> IsInterval(choice, clusters, samples, r.interval)
    ensures r.Interval_? ==> r.interval.paired == |PairedFacts(candidate, baseline)|
    ensures r.Interval_? ==> r.interval.delta == Mean(Deltas(PairedFacts(candidate, baseline), Delta(candidate, baseline)))
  {
    var ok, byCluster := ClusterDeltas(candidate, baseline);
    clusters := byCluster;
    if !ok {
      return ClusterMismatch, clusters;
    }
    var deltas := AllDeltas(byCluster);
    EmptyDeltas(byCluster, candidate, baseline);
    PointIsPerFactMean(byCluster, candidate, baseline);
    if deltas == [] {
      return Interval_(Interval(0, 0.0, 0.0, 0.0)), clusters;
    }
    var means := Resample(choice, byCluster, samples);
    r := Interval_(Interval(|deltas|, Mean(deltas), Percentile(means, 0.025), Percentile(means, 0.975)));
  }

  lemma {:induction false} GatherDeltas(clusters: Clusters, names: seq<string>, facts: seq<string>, clusterOf: string -> string,
                                        delta: string -> real)
    requires ByCluster(clusters, facts, clusterOf, delta) && forall c <- names :: c in clusters
    ensures Gather(clusters, names) == Deltas(Regrouped(names, facts, clusterOf), delta)
  {
    if names != [] {
      GatherDeltas(clusters, names[1..], facts, clusterOf, delta);
      ClusterEntries(clusters, facts, clusterOf, delta);
      DeltasConcat(Select(facts, clusterOf, names[0]), Regrouped(names[1..], facts, clusterOf), delta);
    }
  }

  lemma DeltasConcat(a: seq<string>, b: seq<string>, delta: string -> real)
    ensures Deltas(a + b, delta) == Deltas(a, delta) + Deltas(b, delta)
  {}

  lemma {:induction false} SumDeltas(facts: seq<string>, delta: string -> real)
    ensures Sum(Deltas(facts, delta)) == SumOf(facts, delta)
  {
    if facts != [] {
      var n := |facts| - 1;
      SumDeltas(facts[..n], delta);
      assert Deltas(facts, delta)[..n] == Deltas(facts[..n], delta);
    }
  }

  /** The deltas gathered cluster by cluster are those of the paired facts, each once, in another order. */
  lemma AllDeltasRegroup(clusters: Clusters, candidate: Rows, baseline: Rows) returns (facts: seq<string>)
    requires IsClustered(clusters, candidate, baseline)
    ensures AllDeltas(clusters) == Deltas(facts, Delta(candidate, baseline))
    ensures multiset(facts) == multiset(PairedFacts(candidate, baseline))
  {
    var all, clusterOf := PairedFacts(candidate, baseline), ClusterOf(candidate);
    var names := SortedKeys(clusters);
    KeySetMembers(all, clusterOf);
    GatherDeltas(clusters, names, all, clusterOf, Delta(candidate, baseline));
    RegroupedPermutes(names, all, clusterOf);
    facts := Regrouped(names, all, clusterOf);
  }

  /** The point estimate, taken cluster by cluster, is the mean over the paired facts. */
  lemma PointIsPerFactMean(clusters: Clusters, candidate: Rows, baseline: Rows)
    requires IsClustered(clusters, candidate, baseline)
    ensures |AllDeltas(clusters)| == |PairedFacts(candidate, baseline)|
    ensures Mean(AllDeltas(clusters)) == Mean(Deltas(PairedFacts(candidate, baseline), Delta(candidate, baseline)))
  {
    var facts := AllDeltasRegroup(clusters, candidate, baseline);
    var all, delta := PairedFacts(candidate, baseline), Delta(candidate, baseline);
    assert |multiset(facts)| == |facts| && |multiset(all)| == |all|;
    SumPermutation(facts, all, delta);
    SumDeltas(facts, delta);
    SumDeltas(all, delta);
  }

  lemma EmptyDeltas(clusters: Clusters, candidate: Rows, baseline: Rows)
    requires IsClustered(clusters, candidate, baseline)
    ensures AllDeltas(clusters) == [] <==> clusters == map[]
    ensures clusters == map[] <==> PairedFacts(candidate, baseline) == []
  {
    PointIsPerFactMean(clusters, candidate, baseline);
    ClusterEntries(clusters, PairedFacts(candidate, baseline), ClusterOf(candidate), Delta(candidate, baseline));
    if clusters != map[] {
      var c :| c in clusters;
      assert c in SortedKeys(clusters);
      GatherNonEmpty(clusters, SortedKeys(clusters));
    }
  }

  // ------------------------------------------------------------------ bounds on means

  lemma {:induction false} GatherMembers(clusters: Clusters, sampled: seq<string>)
    requires forall c <- sampled :: c in clusters
    ensures forall v :: v in Gather(clusters, sampled) <==> exists c :: c in sampled && v in clusters[c]
  {
    if sampled != [] {
      GatherMembers(clusters, sampled[1..]);
      assert sampled == [sampled[0]] + sampled[1..];
    }
  }

  lemma GatherNonEmpty(clusters: Clusters, sampled: seq<string>)
    requires (forall c <- sampled :: c in clusters && clusters[c] != []) && sampled != []
    ensures Gather(clusters, sampled) != []
  {
    assert sampled[0] in sampled;
  }

  lemma SampledWithin(clusters: Clusters, sampled: seq<string>, low: real, high: real)
    requires forall c <- sampled :: c in clusters
    requires forall v <- AllDeltas(clusters) :: low <= v <= high
    ensures forall v <- Gather(clusters, sampled) :: low <= v <= high
  {
    GatherMembers(clusters, SortedKeys(clusters));
    GatherMembers(clusters, sampled);
    forall v | v in Gather(clusters, sampled) ensures low <= v <= high {
      var c :| c in sampled && v in clusters[c];
      assert c in SortedKeys(clusters);
      assert v in AllDeltas(clusters);
    }
  }

  /** What the bounds below use about the table of a bootstrap. */
  ghost predicate Bounded(clusters: Clusters, low: real, high: real) {
    && clusters != map[] && (forall c :: c in clusters ==> clusters[c] != [])
    && forall v <- AllDeltas(clusters) :: low <= v <= high
  }

  /** Every resampled mean stays between bounds that all deltas respect. */
  lemma ResampledBetween(choice: Choice, clusters: Clusters, i: nat, x: real, low: real, high: real)
    requires IsMeanOf(choice, clusters, i, x) && Bounded(clusters, low, high)
    ensures low <= x <= high
  {
    var sampled := Sampled(choice, SortedKeys(clusters), i);
    SampledWithin(clusters, sampled, low, high);
    GatherNonEmpty(clusters, sampled);
    MeanBetween(Gather(clusters, sampled), low, high);
  }

  lemma PointBetween(clusters: Clusters, low: real, high: real)
    requires Bounded(clusters, low, high)
    ensures low <= Mean(AllDeltas(clusters)) <= high
  {
    var c :| c in clusters;
    assert c in SortedKeys(clusters);
    GatherNonEmpty(clusters, SortedKeys(clusters));
    MeanBetween(AllDeltas(clusters), low, high);
  }

  /** For every sequence of draws the interval is ordered. */
  lemma IntervalOrdered(choice: Choice, clusters: Clusters, samples: nat, r: Interval)
    requires IsInterval(choice, clusters, samples, r)
    ensures r.lower <= r.upper
  {
    if clusters != map[] {
      var means :| AreMeans(choice, clusters, samples, means)
        && r == Interval(|AllDeltas(clusters)|, Mean(AllDeltas(clusters)), Percentile(means, 0.025), Percentile(means, 0.975));
      PercentileMonotone(means, 0.025, 0.975);
    }
  }

  lemma EndsBetween(choice: Choice, clusters: Clusters, samples: nat, r: Interval, low: real, high: real)
    requires IsInterval(choice, clusters, samples, r) && Bounded(clusters, low, high)
    ensures low <= r.delta <= high
    ensures if samples > 0 then low <= r.lower <= high && low <= r.upper <= high else r.lower == r.upper == 0.0
  {
    var means :| AreMeans(choice, clusters, samples, means)
      && r == Interval(|AllDeltas(clusters)|, Mean(AllDeltas(clusters)), Percentile(means, 0.025), Percentile(means, 0.975));
    PointBetween(clusters, low, high);
    if samples > 0 {
      forall i | 0 <= i < samples ensures low <= means[i] <= high {
        ResampledBetween(choice, clusters, i, means[i], low, high);
      }
      var a, b := PercentileInRange(means, 0.025);
      var x, y := PercentileInRange(means, 0.975);
    }
  }

  lemma FactsBound(clusters: Clusters, candidate: Rows, baseline: Rows, low: real, high: real)
    requires IsClustered(clusters, candidate, baseline) && PairedFacts(candidate, baseline) != []
    requires forall f <- PairedFacts(candidate, baseline) :: low <= Delta(candidate, baseline)(f) <= high
    ensures Bounded(clusters, low, high)
  {
    EmptyDeltas(clusters, candidate, baseline);
    ClusterEntries(clusters, PairedFacts(candidate, baseline), ClusterOf(candidate), Delta(candidate, baseline));
    var facts := AllDeltasRegroup(clusters, candidate, baseline);
    DeltasBound(facts, PairedFacts(candidate, baseline), Delta(candidate, baseline), low, high);
  }

  lemma DeltasBound(facts: seq<string>, all: seq<string>, delta: string -> real, low: real, high: real)
    requires multiset(facts) == multiset(all) && forall f <- all :: low <= delta(f) <= high
    ensures forall v <- Deltas(facts, delta) :: low <= v <= high
  {
    forall i | 0 <= i < |facts| ensures low <= delta(facts[i]) <= high {
      assert facts[i] in multiset(all);
    }
  }

  /** With at least one sample the point and the interval lie within the range of the paired facts' deltas. */
  lemma IntervalWithinDeltas(choice: Choice, candidate: Rows, baseline: Rows, clusters: Clusters, samples: nat, r: Interval,
                             low: real, high: real)
    requires IsClustered(clusters, candidate, baseline) && IsInterval(choice, clusters, samples, r)
    requires PairedFacts(candidate, baseline) != [] && samples > 0
    requires forall f <- PairedFacts(candidate, baseline) :: low <= Delta(candidate, baseline)(f) <= high
    ensures low <= r.delta <= high && low <= r.lower <= r.upper <= high
  {
    FactsBound(clusters, candidate, baseline, low, high);
    EndsBetween(choice, clusters, samples, r, low, high);
    IntervalOrdered(choice, clusters, samples, r);
  }

  lemma {:induction false} UpperBound(facts: seq<string>, delta: string -> real) returns (high: real)
    ensures forall f <- facts :: delta(f) <= high
  {
    if facts == [] {
      high := 0.0;
    } else {
      var n := |facts| - 1;
      high := UpperBound(facts[..n], delta);
      if delta(facts[n]) > high { high := delta(facts[n]); }
      assert facts == facts[..n] + [facts[n]];
    }
  }

  /** If every per-fact delta is at least d, the point estimate and both ends are at least d,
      except when d is positive and there is no paired fact or no sample: those are reported as 0. */
  lemma LowerBoundTransfers(choice: Choice, candidate: Rows, baseline: Rows, clusters: Clusters, samples: nat, r: Interval, d: real)
    requires IsClustered(clusters, candidate, baseline) && IsInterval(choice, clusters, samples, r)
    requires forall f <- PairedFacts(candidate, baseline) :: d <= Delta(candidate, baseline)(f)
    ensures r.delta >= d && r.lower >= d && r.upper >= d <==> d <= 0.0 || (PairedFacts(candidate, baseline) != [] && samples > 0)
  {
    EmptyDeltas(clusters, candidate, baseline);
    if PairedFacts(candidate, baseline) != [] {
      var high := UpperBound(PairedFacts(candidate, baseline), Delta(candidate, baseline));
      FactsBound(clusters, candidate, baseline, d, high);
      EndsBetween(choice, clusters, samples, r, d, high);
    }
  }
}
