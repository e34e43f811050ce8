/** Summary statistics and outlier removal, after src/freeweight/domain/statistics.py. */
module Statistics {
  import opened Measures
  import opened Metrics
  import opened Ordering
  import opened Percentiles
  import opened Results
  import opened Sums

  const DEFAULT_IQR_FACTOR := 1.5
  const DEFAULT_MODIFIED_Z_THRESHOLD := 3.5
  const MAD_TO_SIGMA := 0.6745

  datatype Policy = ReportOnly | ModifiedZScore | Iqr

  datatype Series = Series(values: seq<real>, excludedCount: nat)

  datatype OutlierReport = OutlierReport(
    policy: Policy, threshold: real, flaggedPositions: seq<nat>, flaggedValues: seq<real>, excluded: bool)

  datatype Summary = Summary(
    sampleCount: nat, excludedCount: nat, mean: Statistic, median: Statistic, minimum: Statistic,
    maximum: Statistic, stddev: Statistic, coefficientOfVariation: Statistic, p50: Statistic,
    p95: Statistic, p99: Statistic, outliers: OutlierReport)

  // ---------------------------------------------------------------------------------------
  // Series
  // ---------------------------------------------------------------------------------------

  /** The measurements that carry a number, in order; None is an unsupported one. */
  function Supported(measurements: seq<Option<real>>): (values: seq<real>)
    ensures |values| <= |measurements|
  {
    if measurements == [] then []
    else
      var front, last := Supported(measurements[..|measurements| - 1]), measurements[|measurements| - 1];
      if last.Some? then front + [last.value] else front
  }

  method SeriesOf(measurements: seq<Option<real>>) returns (s: Series)
    ensures s.values == Supported(measurements) && |s.values| + s.excludedCount == |measurements|
  {
    var values: seq<real>, excluded := [], 0;
    for i := 0 to |measurements|
      invariant values == Supported(measurements[..i]) && |values| + excluded == i && excluded >= 0
    {
      assert measurements[..i + 1][..i] == measurements[..i];
      if measurements[i].Some? {
        values := values + [measurements[i].value];
      } else {
        excluded := excluded + 1;
      }
    }
    assert measurements[..|measurements|] == measurements;
    return Series(values, excluded);
  }

  /** Distinct positions below n, in order. */
  predicate Increasing(positions: seq<nat>, n: nat) {
    && (forall k :: 0 <= k < |positions| ==> positions[k] < n)
    && (forall j, k :: 0 <= j < k < |positions| ==> positions[j] < positions[k])
  }

  /** The positions at which a rule holds. */
  function Positions(values: seq<real>, rule: real -> bool): (r: seq<nat>)
    ensures Increasing(r, |values|)
    ensures forall k :: 0 <= k < |r| ==> rule(values[r[k]])
  {
    if values == [] then []
    else
      var n := |values| - 1;
      var front := Positions(values[..n], rule);
      if rule(values[n]) then front + [n] else front
  }

  lemma {:induction false} PositionsMissNone(values: seq<real>, rule: real -> bool, i: nat)
    requires i < |values| && rule(values[i])
    ensures i in Positions(values, rule)
  {
    if i < |values| - 1 {
      PositionsMissNone(values[..|values| - 1], rule, i);
    }
  }

  function ValuesAt(values: seq<real>, positions: seq<nat>): seq<real>
    requires Increasing(positions, |values|)
  {
    seq(|positions|, i requires 0 <= i < |positions| => values[positions[i]])
  }

  /** The values whose position, counted from offset, is not dropped. */
  function Without(values: seq<real>, dropped: set<nat>): seq<real> {
    if values == [] then []
    else
      var n := |values| - 1;
      var front := Without(values[..n], dropped);
      if n in dropped then front else front + [values[n]]
  }

  /** set(positions) */
  function AsSet(positions: seq<nat>): set<nat> {
    if positions == [] then {} else AsSet(positions[..|positions| - 1]) + {positions[|positions| - 1]}
  }

  function Dropping(series: Series, positions: seq<nat>): Series {
    var dropped := AsSet(positions);
    Series(Without(series.values, dropped), series.excludedCount + |dropped|)
  }

  // ---------------------------------------------------------------------------------------
  // Outlier rules
  // ---------------------------------------------------------------------------------------

  function Abs(x: real): real { if x < 0.0 then -x else x }

  function Centre(values: seq<real>): real
    requires values != []
  {
    Interpolate(Sorted(values), 0.5)
  }

  function Deviations(values: seq<real>, centre: real): (d: seq<real>)
    ensures |d| == |values| && forall i :: 0 <= i < |values| ==> d[i] == Abs(values[i] - centre)
  {
    seq(|values|, i requires 0 <= i < |values| => Abs(values[i] - centre))
  }

  /** The median absolute deviation. */
  function Mad(values: seq<real>): real
    requires values != []
  {
    Centre(Deviations(values, Centre(values)))
  }

  function ModifiedZ(v: real, centre: real, mad: real): real
    requires mad > 0.0
  {
    Abs(MAD_TO_SIGMA * (v - centre) / mad)
  }

  function ModifiedZRule(centre: real, mad: real, threshold: real): real -> bool
    requires mad > 0.0
  {
    (v: real) => ModifiedZ(v, centre, mad) > threshold
  }

  function ModifiedZOutliers(values: seq<real>, threshold: real): seq<nat> {
    if |values| < 3 then []
    else
      var centre, mad := Centre(values), Mad(values);
      if mad <= 0.0 then [] else Positions(values, ModifiedZRule(centre, mad, threshold))
  }

  function LowFence(q1: real, q3: real, factor: real): real { q1 - factor * (q3 - q1) }

  function HighFence(q1: real, q3: real, factor: real): real { q3 + factor * (q3 - q1) }

  function IqrRule(low: real, high: real): real -> bool {
    (v: real) => v < low || v > high
  }

  function IqrOutliers(values: seq<real>, factor: real): seq<nat> {
    if |values| < 4 then []
    else
      var q1, q3 := Interpolate(Sorted(values), 0.25), Interpolate(Sorted(values), 0.75);
      if q3 - q1 <= 0.0 then []
      else Positions(values, IqrRule(LowFence(q1, q3, factor), HighFence(q1, q3, factor)))
  }

  function Flagged(values: seq<real>, policy: Policy, cut: real): (r: seq<nat>)
    ensures Increasing(r, |values|)
  {
    match policy
    case ReportOnly => []
    case ModifiedZScore => ModifiedZOutliers(values, cut)
    case Iqr => IqrOutliers(values, cut)
  }

  function Cut(policy: Policy, threshold: Option<real>): real {
    match policy
    case ReportOnly => 0.0
    case ModifiedZScore => if threshold.None? then DEFAULT_MODIFIED_Z_THRESHOLD else threshold.value
    case Iqr => if threshold.None? then DEFAULT_IQR_FACTOR else threshold.value
  }

  function FlagOutliers(series: Series, policy: Policy, threshold: Option<real>): OutlierReport {
    var cut := Cut(policy, threshold);
    var positions := Flagged(series.values, policy, cut);
    OutlierReport(policy, cut, positions, ValuesAt(series.values, positions), false)
  }

  // ---------------------------------------------------------------------------------------
  // The figures
  // ---------------------------------------------------------------------------------------

  function Over(series: Series, result: MetricResult): Statistic {
    Statistic(result, |series.values|, series.excludedCount)
  }

  /** A figure over at least one value, or the refusal of an empty series. */
  function Figure(series: Series, f: seq<real> --> real): Statistic
    requires series.values != [] ==> f.requires(series.values)
  {
    if series.values == [] then Statistic(Unavailable(NoObservations), 0, series.excludedCount)
    else Over(series, Value(f(series.values)))
  }

  function PercentileOf(series: Series, fraction: real): Statistic
    requires 0.0 <= fraction <= 1.0
  {
    Figure(series, values requires values != [] => Interpolate(Sorted(values), fraction))
  }

  function StdDev(series: Series, root: real -> real): Statistic {
    if |series.values| == 1 then Over(series, Unavailable(SingleObservation))
    else Figure(series, values requires |values| >= 2 => root(Variance(values)))
  }

  function CoefficientOfVariation(series: Series, root: real -> real): Statistic {
    var spread := StdDev(series, root);
    if spread.result.Unavailable? then spread
    else
      var average := MeanOf(series.values);
      if average <= 0.0 then Over(series, Unavailable(ZeroMean)) else Over(series, Value(spread.result.value / average))
  }

  function Figures(series: Series, report: OutlierReport, root: real -> real): Summary {
    Summary(|series.values|, series.excludedCount,
            Figure(series, MeanOf), PercentileOf(series, 0.5), Figure(series, Least), Figure(series, Greatest),
            StdDev(series, root), CoefficientOfVariation(series, root),
            PercentileOf(series, 0.5), PercentileOf(series, 0.95), PercentileOf(series, 0.99), report)
  }

  method Summarize(measurements: seq<Option<real>>, policy: Policy, threshold: Option<real>, root: real -> real)
    returns (summary: Summary, ghost survivors: seq<real>)
    ensures var values := Supported(measurements);
            var flagged := Flagged(values, policy, Cut(policy, threshold));
            && survivors == Survivors(values, flagged)
            && |survivors| <= |measurements|
            && multiset(survivors) + multiset(ValuesAt(values, flagged)) == multiset(values)
            && summary.outliers == OutlierReport(policy, Cut(policy, threshold), flagged, ValuesAt(values, flagged), flagged != [])
            && summary == Figures(Series(survivors, |measurements| - |survivors|), summary.outliers, root)
    ensures summary.sampleCount + summary.excludedCount == |measurements|
  {
    hide Flagged, Without, Figures, AsSet, Supported, Cut;
    var series := SeriesOf(measurements);
    var report := FlagOutliers(series, policy, threshold);
    ghost var flagged := report.flaggedPositions;
    SurvivorsConserve(series.values, flagged);
    if report.flaggedPositions != [] {
      series := Dropping(series, report.flaggedPositions);
      report := report.(excluded := true);
    } else {
      KeepAll(series.values);
    }
    survivors := series.values;
    FiguresCounts(series, report, root);
    summary := Figures(series, report, root);
  }

  lemma FiguresCounts(series: Series, report: OutlierReport, root: real -> real)
    ensures var s := Figures(series, report, root);
            s.sampleCount == |series.values| && s.excludedCount == series.excludedCount && s.outliers == report
  {
  }

  lemma SurvivorsConserve(values: seq<real>, flagged: seq<nat>)
    requires Increasing(flagged, |values|)
    ensures multiset(Survivors(values, flagged)) + multiset(ValuesAt(values, flagged)) == multiset(values)
    ensures |Survivors(values, flagged)| + |AsSet(flagged)| == |values|
  {
    forall i: nat ensures i in AsSet(flagged) <==> i in flagged {
      SetMembers(flagged, i);
    }
    Conservation(values, flagged, AsSet(flagged));
    SetSize(flagged, |values|);
  }

  function Survivors(values: seq<real>, flagged: seq<nat>): seq<real> {
    Without(values, AsSet(flagged))
  }

  lemma {:induction false} KeepAll(values: seq<real>)
    ensures Survivors(values, []) == values
  {
    NoneDropped(values);
  }

  lemma {:induction false} NoneDropped(values: seq<real>)
    ensures Without(values, {}) == values
  {
    if values != [] {
      NoneDropped(values[..|values| - 1]);
    }
  }

  // ---------------------------------------------------------------------------------------
  // Nothing is lost
  // ---------------------------------------------------------------------------------------

  lemma {:induction false} SetSize(positions: seq<nat>, n: nat)
    requires Increasing(positions, n)
    ensures |AsSet(positions)| == |positions|
  {
    if positions != [] {
      var m := |positions| - 1;
      SetSize(positions[..m], n);
      SetMembers(positions[..m], positions[m]);
      if positions[m] in positions[..m] {
        assert false;
      }
    }
  }

  lemma {:induction false} SetMembers(positions: seq<nat>, i: nat)
    ensures i in AsSet(positions) <==> i in positions
  {
    if positions != [] {
      var m := |positions| - 1;
      SetMembers(positions[..m], i);
      assert positions == positions[..m] + [positions[m]];
    }
  }

  lemma AppendBoth(kept: seq<real>, flagged: seq<real>, values: seq<real>, x: real)
    requires multiset(kept) + multiset(flagged) == multiset(values)
    ensures multiset(kept + [x]) + multiset(flagged) == multiset(values + [x])
    ensures multiset(kept) + multiset(flagged + [x]) == multiset(values + [x])
  {
  }

  ghost predicate Conserved(values: seq<real>, positions: seq<nat>, dropped: set<nat>)
    requires Increasing(positions, |values|)
  {
    && multiset(Without(values, dropped)) + multiset(ValuesAt(values, positions)) == multiset(values)
    && |Without(values, dropped)| + |positions| == |values|
  }

  lemma DropStep(values: seq<real>, positions: seq<nat>, dropped: set<nat>)
    requires values != [] && Increasing(positions, |values|)
    requires var n := |values| - 1; n in dropped && n in positions
    requires Increasing(positions[..|positions| - 1], |values| - 1)
    requires Conserved(values[..|values| - 1], positions[..|positions| - 1], dropped)
    requires positions[|positions| - 1] == |values| - 1
    ensures Conserved(values, positions, dropped)
  {
    var n, m := |values| - 1, |positions| - 1;
    var kept, flagged := Without(values[..n], dropped), ValuesAt(values[..n], positions[..m]);
    assert Without(values, dropped) == kept;
    assert forall i :: 0 <= i < m ==> positions[..m][i] == positions[i] < n;
    assert ValuesAt(values, positions) == flagged + [values[n]];
    hide Without, ValuesAt;
    AppendBoth(kept, flagged, values[..n], values[n]);
    assert values == values[..n] + [values[n]];
  }

  lemma WithoutKept(values: seq<real>, dropped: set<nat>)
    requires values != [] && |values| - 1 !in dropped
    ensures Without(values, dropped) == Without(values[..|values| - 1], dropped) + [values[|values| - 1]]
  {
  }

  lemma ValuesAtFront(values: seq<real>, positions: seq<nat>)
    requires values != [] && Increasing(positions, |values| - 1)
    ensures Increasing(positions, |values|) && ValuesAt(values, positions) == ValuesAt(values[..|values| - 1], positions)
  {
  }

  lemma KeepStep(values: seq<real>, positions: seq<nat>, dropped: set<nat>)
    requires values != [] && Increasing(positions, |values| - 1)
    requires |values| - 1 !in dropped && Conserved(values[..|values| - 1], positions, dropped)
    ensures Conserved(values, positions, dropped)
  {
    var n := |values| - 1;
    WithoutKept(values, dropped);
    ValuesAtFront(values, positions);
    hide Without, ValuesAt;
    AppendBoth(Without(values[..n], dropped), ValuesAt(values[..n], positions), values[..n], values[n]);
    assert values == values[..n] + [values[n]];
  }

  /** The survivors and the flagged values together are the supported values. */
  lemma {:induction false} Conservation(values: seq<real>, positions: seq<nat>, dropped: set<nat>)
    requires Increasing(positions, |values|)
    requires forall i: nat :: i < |values| ==> (i in dropped <==> i in positions)
    ensures Conserved(values, positions, dropped)
  {
    if values != [] {
      var n := |values| - 1;
      if n in dropped {
        LastPosition(positions, n);
        Conservation(values[..n], positions[..|positions| - 1], dropped);
        hide Conserved;
        DropStep(values, positions, dropped);
      } else {
        NoLastPosition(positions, n);
        Conservation(values[..n], positions, dropped);
        hide Conserved;
        KeepStep(values, positions, dropped);
      }
    }
  }

  lemma LastIs(positions: seq<nat>, n: nat)
    requires Increasing(positions, n + 1) && n in positions
    ensures positions[|positions| - 1] == n && Increasing(positions[..|positions| - 1], n)
  {
    var i :| 0 <= i < |positions| && positions[i] == n;
  }

  lemma LastPosition(positions: seq<nat>, n: nat)
    requires Increasing(positions, n + 1) && n in positions
    ensures positions[|positions| - 1] == n && Increasing(positions[..|positions| - 1], n)
    ensures forall p: nat :: p < n ==> (p in positions[..|positions| - 1] <==> p in positions)
  {
    LastIs(positions, n);
    hide Increasing;
    var m := |positions| - 1;
    assert positions == positions[..m] + [positions[m]];
  }

  lemma NoLastPosition(positions: seq<nat>, n: nat)
    requires Increasing(positions, n + 1) && n !in positions
    ensures Increasing(positions, n)
  {
    forall k | 0 <= k < |positions| ensures positions[k] < n {
      assert positions[k] in positions;
    }
  }

  // ---------------------------------------------------------------------------------------
  // When outlier removal can and cannot empty a series
  // ---------------------------------------------------------------------------------------

  /** At least half of the values are at or below their median. */
  lemma HalfBelowMedian(values: seq<real>)
    requires values != []
    ensures 2.0 * SumOf(values, AtMost(Centre(values))) >= |values| as real
  {
    var ordered, median := Sorted(values), Centre(values);
    BetweenNeighbours(ordered, 0.5);
    var lower := PositionAt(|ordered|, 0.5).Floor;
    assert 2 * lower >= |values| - 2;
    SumPermutation(values, ordered, AtMost(median));
    hide Centre, Sorted, SumOf, Interpolate, PositionAt;
    CountBelow(ordered, lower, median);
  }

  /** How many values a rule does not flag, against a count of the values it certainly spares. */
  lemma {:induction false} SparedCount(values: seq<real>, d: seq<real>, rule: real -> bool, bound: real)
    requires |d| == |values|
    requires forall i :: 0 <= i < |values| && d[i] <= bound ==> !rule(values[i])
    ensures |values| as real - |Positions(values, rule)| as real >= SumOf(d, AtMost(bound))
  {
    if values != [] {
      var n := |values| - 1;
      SparedCount(values[..n], d[..n], rule, bound);
    }
  }

  /** With a threshold of at least 0.6745, the modified z-score keeps at least half of a series. */
  lemma ModifiedZKeepsHalf(values: seq<real>, threshold: real)
    requires values != [] && threshold >= MAD_TO_SIGMA
    ensures 2 * |Survivors(values, ModifiedZOutliers(values, threshold))| >= |values|
  {
    var flagged := ModifiedZOutliers(values, threshold);
    if |values| >= 3 && Mad(values) > 0.0 {
      var centre, mad := Centre(values), Mad(values);
      var d := Deviations(values, centre);
      forall i | 0 <= i < |values| && d[i] <= mad ensures !ModifiedZRule(centre, mad, threshold)(values[i]) {
        ScaledDeviation(values[i], centre, mad);
      }
      HalfBelowMedian(d);
      hide Centre, SumOf;
      SparedCount(values, d, ModifiedZRule(centre, mad, threshold), mad);
    }
    FlaggedIncreasing(values, threshold);
    SurvivorsConserve(values, flagged);
    SetSize(flagged, |values|);
  }

  lemma FlaggedIncreasing(values: seq<real>, threshold: real)
    ensures Increasing(ModifiedZOutliers(values, threshold), |values|)
    ensures Increasing(IqrOutliers(values, threshold), |values|)
  {
  }

  lemma ScaledDeviation(v: real, centre: real, mad: real)
    requires mad > 0.0 && Abs(v - centre) <= mad
    ensures ModifiedZ(v, centre, mad) <= MAD_TO_SIGMA
  {
    var q := MAD_TO_SIGMA * (v - centre) / mad;
    assert q * mad == MAD_TO_SIGMA * (v - centre);
    if q > MAD_TO_SIGMA {
      PositiveProduct(q - MAD_TO_SIGMA, mad, (q - MAD_TO_SIGMA) * mad);
    } else if q < -MAD_TO_SIGMA {
      PositiveProduct(-MAD_TO_SIGMA - q, mad, (-MAD_TO_SIGMA - q) * mad);
    }
  }

  /** With a factor of at least 0, the interquartile rule flags no value between the quartiles. */
  lemma IqrSparesQuartiles(values: seq<real>, factor: real, i: nat)
    requires i < |values| && factor >= 0.0
    requires BetweenQuartiles(values, values[i])
    ensures i !in IqrOutliers(values, factor)
  {
    hide LowFence, HighFence, Sorted, Interpolate, Positions;
    var q1, q3 := Interpolate(Sorted(values), 0.25), Interpolate(Sorted(values), 0.75);
    if |values| >= 4 && q3 - q1 > 0.0 {
      FencesOutside(q1, q3, factor);
      SparedPosition(values, IqrRule(LowFence(q1, q3, factor), HighFence(q1, q3, factor)), i);
    }
  }

  lemma FencesOutside(q1: real, q3: real, factor: real)
    requires factor >= 0.0 && q1 <= q3
    ensures LowFence(q1, q3, factor) <= q1 && q3 <= HighFence(q1, q3, factor)
  {
    NonNegativeProduct(factor, q3 - q1);
  }

  lemma SparedPosition(values: seq<real>, rule: real -> bool, i: nat)
    requires i < |values| && !rule(values[i])
    ensures i !in Positions(values, rule)
  {
    var r := Positions(values, rule);
    forall k | 0 <= k < |r| ensures r[k] != i {
    }
  }

  /** From four values on there is a value between the quartiles. */
  lemma QuartilesHoldAValue(values: seq<real>)
    requires |values| >= 4
    ensures exists i: nat :: i < |values| && BetweenQuartiles(values, values[i])
  {
    var ordered := Sorted(values);
    MiddleBetweenQuartiles(ordered);
    var k := (|ordered| - 1) / 2;
    hide Sorted, Interpolate;
    assert ordered[k] in multiset(ordered);
    assert ordered[k] in multiset(values);
    var i: nat :| i < |values| && values[i] == ordered[k];
    assert BetweenQuartiles(values, values[i]);
  }

  predicate BetweenQuartiles(values: seq<real>, v: real)
    requires values != []
  {
    Interpolate(Sorted(values), 0.25) <= v <= Interpolate(Sorted(values), 0.75)
  }

  lemma MiddleBetweenQuartiles(ordered: seq<real>)
    requires |ordered| >= 4 && Ascending(ordered)
    ensures Interpolate(ordered, 0.25) <= ordered[(|ordered| - 1) / 2] <= Interpolate(ordered, 0.75)
  {
    var n := |ordered|;
    var k := (n - 1) / 2;
    var f := k as real / (n - 1) as real;
    AtRank(ordered, k);
    MiddleFraction(n, k, f);
    hide Interpolate;
    MonotoneInFraction(ordered, 0.25, f);
    MonotoneInFraction(ordered, f, 0.75);
  }

  lemma MiddleFraction(n: nat, k: nat, f: real)
    requires n >= 4 && k == (n - 1) / 2 && f == k as real / (n - 1) as real
    ensures 0.25 <= f <= 0.75
  {
    var m := (n - 1) as real;
    assert f * m == k as real;
    assert 0.25 * m <= k as real <= 0.75 * m;
    if f < 0.25 {
      PositiveProduct(0.25 - f, m, (0.25 - f) * m);
    } else if f > 0.75 {
      PositiveProduct(f - 0.75, m, (f - 0.75) * m);
    }
  }

  lemma IqrKeepsSome(values: seq<real>, factor: real)
    requires values != [] && factor >= 0.0
    ensures Survivors(values, IqrOutliers(values, factor)) != []
  {
    var flagged := IqrOutliers(values, factor);
    FlaggedIncreasing(values, factor);
    SurvivorsConserve(values, flagged);
    SetSize(flagged, |values|);
    if |values| >= 4 && |flagged| == |values| {
      QuartilesHoldAValue(values);
      var i: nat :| i < |values| && BetweenQuartiles(values, values[i]);
      IqrSparesQuartiles(values, factor, i);
      FullPositions(flagged, |values|, i);
    }
  }

  lemma {:induction false} FullPositions(positions: seq<nat>, n: nat, i: nat)
    requires Increasing(positions, n) && |positions| == n && i < n
    ensures i in positions
  {
    if i == n - 1 {
      LastIsTop(positions, n);
    } else {
      LastIsTop(positions, n);
      assert forall k :: 0 <= k < n - 1 ==> positions[k] < positions[n - 1];
      FullPositions(positions[..n - 1], n - 1, i);
    }
  }

  lemma {:induction false} LastIsTop(positions: seq<nat>, n: nat)
    requires Increasing(positions, n) && |positions| == n > 0
    ensures positions[n - 1] == n - 1
  {
    if n > 1 {
      if positions[n - 1] < n - 1 {
        assert Increasing(positions[..n - 1], n - 2 + 1);
        LastIsTop(positions[..n - 1], n - 1);
      }
    }
  }

  // ---------------------------------------------------------------------------------------
  // The thresholds below which a series can be emptied
  // ---------------------------------------------------------------------------------------

  lemma AlreadySorted(values: seq<real>)
    requires Ascending(values)
    ensures Sorted(values) == values
  {
    SortedUnique(Sorted(values), values);
  }

  lemma AllFlagged(values: seq<real>, flagged: seq<nat>)
    requires Increasing(flagged, |values|) && forall i: nat :: i < |values| ==> i in flagged
    ensures Survivors(values, flagged) == []
  {
    forall i: nat | i < |values| ensures i in AsSet(flagged) {
      SetMembers(flagged, i);
    }
    AllDropped(values, AsSet(flagged));
  }

  lemma {:induction false} AllDropped(values: seq<real>, dropped: set<nat>)
    requires forall i: nat :: i < |values| ==> i in dropped
    ensures Without(values, dropped) == []
  {
    if values != [] {
      AllDropped(values[..|values| - 1], dropped);
    }
  }

  const TWO_PAIRS: seq<real> := [0.0, 0.0, 2.0, 2.0]

  lemma TwoPairsPercentiles()
    ensures Interpolate(Sorted(TWO_PAIRS), 0.25) == 0.0
    ensures Interpolate(Sorted(TWO_PAIRS), 0.5) == 1.0
    ensures Interpolate(Sorted(TWO_PAIRS), 0.75) == 2.0
  {
    hide Sorted;
    AlreadySorted(TWO_PAIRS);
    assert PositionAt(4, 0.25) == 0.75 && PositionAt(4, 0.5) == 1.5 && PositionAt(4, 0.75) == 2.25;
    hide PositionAt;
  }

  lemma TwoPairsCentre()
    ensures Centre(TWO_PAIRS) == 1.0
  {
    TwoPairsPercentiles();
    hide Sorted, Interpolate;
  }

  const ONES: seq<real> := [1.0, 1.0, 1.0, 1.0]

  lemma TwoPairsDeviations()
    ensures Deviations(TWO_PAIRS, 1.0) == ONES
  {
  }

  lemma OnesCentre()
    ensures Centre(ONES) == 1.0
  {
    hide Sorted, Interpolate, PositionAt;
    AlreadySorted(ONES);
    BetweenNeighbours(ONES, 0.5);
  }

  lemma TwoPairsMad()
    ensures Centre(TWO_PAIRS) == 1.0 && Mad(TWO_PAIRS) == 1.0
  {
    hide Sorted, Interpolate, Centre, Deviations;
    TwoPairsCentre();
    TwoPairsDeviations();
    OnesCentre();
  }

  lemma UnitZ()
    ensures ModifiedZ(0.0, 1.0, 1.0) == MAD_TO_SIGMA && ModifiedZ(2.0, 1.0, 1.0) == MAD_TO_SIGMA
  {
  }

  /** Every value of 0, 0, 2, 2 has modified z-score 0.6745: any lower threshold removes all four. */
  lemma LowThresholdEmpties(threshold: real)
    requires threshold < MAD_TO_SIGMA
    ensures Survivors(TWO_PAIRS, ModifiedZOutliers(TWO_PAIRS, threshold)) == []
  {
    hide Centre, Mad, Positions, ModifiedZ;
    UnitZ();
    TwoPairsMad();
    AllByRule(ModifiedZRule(1.0, 1.0, threshold));
    assert ModifiedZOutliers(TWO_PAIRS, threshold) == Positions(TWO_PAIRS, ModifiedZRule(1.0, 1.0, threshold));
  }

  lemma AllByRule(rule: real -> bool)
    requires rule(0.0) && rule(2.0)
    ensures Survivors(TWO_PAIRS, Positions(TWO_PAIRS, rule)) == []
  {
    hide Survivors;
    var flagged := Positions(TWO_PAIRS, rule);
    hide Positions;
    forall i: nat | i < |TWO_PAIRS| ensures i in flagged {
      PositionsMissNone(TWO_PAIRS, rule, i);
    }
    AllFlagged(TWO_PAIRS, flagged);
  }

  /** Any negative factor removes all of 0, 0, 2, 2. */
  lemma NegativeFactorEmpties(factor: real)
    requires factor < 0.0
    ensures Survivors(TWO_PAIRS, IqrOutliers(TWO_PAIRS, factor)) == []
  {
    hide Sorted, Interpolate, Positions;
    TwoPairsPercentiles();
    var rule := IqrRule(LowFence(0.0, 2.0, factor), HighFence(0.0, 2.0, factor));
    assert IqrOutliers(TWO_PAIRS, factor) == Positions(TWO_PAIRS, rule);
    AllByRule(rule);
  }

  /** Modified z-score removal leaves every series something exactly from the threshold 0.6745 on. */
  lemma ModifiedZThreshold(threshold: real)
    ensures threshold >= MAD_TO_SIGMA
       <==> forall values: seq<real> :: values != [] ==> Survivors(values, ModifiedZOutliers(values, threshold)) != []
  {
    if threshold >= MAD_TO_SIGMA {
      forall values: seq<real> | values != [] ensures Survivors(values, ModifiedZOutliers(values, threshold)) != [] {
        ModifiedZKeepsHalf(values, threshold);
      }
    } else {
      LowThresholdEmpties(threshold);
      assert TWO_PAIRS != [];
    }
  }

  /** Interquartile removal leaves every series something exactly from the factor 0 on. */
  lemma IqrFactor(factor: real)
    ensures factor >= 0.0
       <==> forall values: seq<real> :: values != [] ==> Survivors(values, IqrOutliers(values, factor)) != []
  {
    if factor >= 0.0 {
      forall values: seq<real> | values != [] ensures Survivors(values, IqrOutliers(values, factor)) != [] {
        IqrKeepsSome(values, factor);
      }
    } else {
      NegativeFactorEmpties(factor);
      assert TWO_PAIRS != [];
    }
  }

  // ---------------------------------------------------------------------------------------
  // The figures agree with one another
  // ---------------------------------------------------------------------------------------

  lemma SortedEnds(values: seq<real>)
    requires values != []
    ensures |Sorted(values)| == |values|
    ensures Least(values) <= Sorted(values)[0] && Sorted(values)[|values| - 1] <= Greatest(values)
  {
    hide Sorted, Least, Greatest;
    var ordered := Sorted(values);
    LeastGreatest(values);
    assert ordered[0] in multiset(ordered) && ordered[|ordered| - 1] in multiset(ordered);
    assert ordered[0] in multiset(values) && ordered[|ordered| - 1] in multiset(values);
    assert ordered[0] in values && ordered[|ordered| - 1] in values;
  }

  lemma PercentilesBetween(values: seq<real>, f: real, g: real)
    requires values != [] && 0.0 <= f <= g <= 1.0
    ensures Least(values) <= Interpolate(Sorted(values), f) <= Interpolate(Sorted(values), g) <= Greatest(values)
  {
    PercentileProperties(values, values, f);
    PercentileProperties(values, values, g);
    MonotoneInFraction(Sorted(values), f, g);
    SortedEnds(values);
    hide Sorted, Interpolate, Least, Greatest;
  }

  /** On a non-empty series, minimum <= p50 <= p95 <= p99 <= maximum, the mean lies between minimum
      and maximum, and the median is p50; on an empty one every figure is refused, not zero. */
  lemma FiguresOrdered(series: Series, report: OutlierReport, root: real -> real)
    ensures var s := Figures(series, report, root);
            if series.values == [] then
              forall figure :: figure in [s.mean, s.median, s.minimum, s.maximum, s.stddev, s.coefficientOfVariation,
                  s.p50, s.p95, s.p99]
                ==> figure == Statistic(Unavailable(NoObservations), 0, series.excludedCount)
            else
              s.mean.result.Value? && s.minimum.result.Value? && s.maximum.result.Value? &&
              s.p50.result.Value? && s.p95.result.Value? && s.p99.result.Value? && s.median == s.p50 &&
              s.minimum.result.value <= s.mean.result.value <= s.maximum.result.value &&
              s.minimum.result.value <= s.p50.result.value <= s.p95.result.value &&
              s.p95.result.value <= s.p99.result.value <= s.maximum.result.value
  {
    if series.values != [] {
      MeanBetween(series.values);
      PercentilesBetween(series.values, 0.5, 0.95);
      PercentilesBetween(series.values, 0.95, 0.99);
      hide Interpolate, Sorted, MeanOf, Least, Greatest, Variance;
    }
  }
}
