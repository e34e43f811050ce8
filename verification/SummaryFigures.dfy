/** The figures of a summary and the values a rule flags, in terms of the values themselves: src/freeweight/domain/statistics.py. */
module SummaryFigures {
  import opened Measures
  import opened Metrics
  import opened Ordering
  import opened Percentiles
  import opened Results
  import opened Roots
  import opened Statistics
  import opened Sums

  // ---------------------------------------------------------------------------------------
  // Which values are flagged
  // ---------------------------------------------------------------------------------------

  function OfSupported(h: real -> real): Option<real> -> real {
    (m: Option<real>) => if m.Some? then h(m.value) else 0.0
  }

  /** The series holds every supported measurement as often as it was given. */
  lemma {:induction false} SupportedAre(measurements: seq<Option<real>>, h: real -> real)
    ensures SumOf(Supported(measurements), h) == SumOf(measurements, OfSupported(h))
  {
    if measurements != [] {
      SupportedAre(measurements[..|measurements| - 1], h);
    }
  }

  lemma {:induction false} PositionsAre(values: seq<real>, rule: real -> bool, i: nat)
    ensures i in Positions(values, rule) <==> i < |values| && rule(values[i])
  {
    var r := Positions(values, rule);
    if i in r {
      var k :| 0 <= k < |r| && r[k] == i;
    }
    if i < |values| && rule(values[i]) {
      PositionsMissNone(values, rule, i);
    }
  }

  /** How far each value lies from a centre. */
  ghost predicate Distances(d: seq<real>, values: seq<real>, centre: real) {
    |d| == |values| && forall i :: 0 <= i < |d| ==>
      d[i] == if values[i] >= centre then values[i] - centre else centre - values[i]
  }

  lemma DistanceAt(d: seq<real>, values: seq<real>, centre: real, i: nat)
    requires Distances(d, values, centre) && i < |values|
    ensures |d| == |values| && d[i] == if values[i] >= centre then values[i] - centre else centre - values[i]
  {
  }

  lemma DeviationsAre(values: seq<real>, centre: real, d: seq<real>)
    requires Distances(d, values, centre)
    ensures Deviations(values, centre) == d
  {
  }

  lemma ScaledMore(v: real, centre: real, mad: real, threshold: real)
    requires mad > 0.0
    ensures ModifiedZ(v, centre, mad) > threshold <==>
            0.6745 * (if v >= centre then v - centre else centre - v) > threshold * mad
  {
    var z, far := ModifiedZ(v, centre, mad), if v >= centre then v - centre else centre - v;
    ModifiedZIs(v, centre, mad, z, far);
    if z > threshold {
      PositiveProduct(z - threshold, mad, (z - threshold) * mad);
    } else {
      NonNegativeProduct(threshold - z, mad);
    }
  }

  lemma ModifiedZIs(v: real, centre: real, mad: real, z: real, far: real)
    requires mad > 0.0 && z == ModifiedZ(v, centre, mad) && far == (if v >= centre then v - centre else centre - v)
    ensures z * mad == 0.6745 * far
  {
    var q := MAD_TO_SIGMA * (v - centre) / mad;
    assert q * mad == MAD_TO_SIGMA * (v - centre);
    if q < 0.0 {
      assert v < centre by {
        if v >= centre {
          PositiveProduct(-q, mad, -q * mad);
        }
      }
    } else {
      NonNegativeProduct(q, mad);
    }
  }

  lemma PercentileIs(values: seq<real>, fraction: real)
    requires values != [] && 0.0 <= fraction <= 1.0
    ensures Percentile(values, fraction) == Ok(Interpolate(Sorted(values), fraction))
  {
    hide Interpolate, Sorted;
  }

  lemma CentreIs(values: seq<real>)
    requires values != []
    ensures Centre(values) == Percentile(values, 0.5).value
  {
    PercentileIs(values, 0.5);
    hide Percentile, Interpolate, Sorted;
  }

  lemma MadIs(values: seq<real>, d: seq<real>)
    requires values != [] && Distances(d, values, Percentile(values, 0.5).value)
    ensures Mad(values) == Percentile(d, 0.5).value
  {
    CentreIs(values);
    DeviationsAre(values, Percentile(values, 0.5).value, d);
    CentreIs(d);
    hide Percentile, Centre, Deviations;
  }

  lemma ByModifiedZ(values: seq<real>, threshold: real)
    requires values != []
    ensures ModifiedZOutliers(values, threshold) ==
            if |values| < 3 || Mad(values) <= 0.0 then []
            else Positions(values, ModifiedZRule(Centre(values), Mad(values), threshold))
  {
    hide Centre, Mad, Positions;
  }

  lemma RuleIs(centre: real, mad: real, threshold: real, v: real)
    requires mad > 0.0
    ensures ModifiedZRule(centre, mad, threshold)(v) <==> ModifiedZ(v, centre, mad) > threshold
  {
    hide ModifiedZ;
  }

  /** From three values on, and with a positive median distance from the median, the modified z-score flags exactly the
      values whose distance, times 0.6745, exceeds the threshold times that median distance. */
  lemma ModifiedZFlags(values: seq<real>, d: seq<real>, threshold: real, i: nat)
    requires values != [] && Distances(d, values, Percentile(values, 0.5).value)
    ensures var centre, mad := Percentile(values, 0.5).value, Percentile(d, 0.5).value;
            i in ModifiedZOutliers(values, threshold) <==>
            i < |values| && |values| >= 3 && mad > 0.0 && 0.6745 * d[i] > threshold * mad
  {
    hide *;
    CentreIs(values);
    MadIs(values, d);
    ByModifiedZ(values, threshold);
    var centre, mad := Centre(values), Mad(values);
    if mad > 0.0 {
      PositionsAre(values, ModifiedZRule(centre, mad, threshold), i);
      if i < |values| {
        DistanceAt(d, values, centre, i);
        RuleIs(centre, mad, threshold, values[i]);
        ScaledMore(values[i], centre, mad, threshold);
      }
    }
  }

  lemma ByIqr(values: seq<real>, factor: real, q1: real, q3: real)
    requires values != [] && q1 == Interpolate(Sorted(values), 0.25) && q3 == Interpolate(Sorted(values), 0.75)
    ensures IqrOutliers(values, factor) ==
            if |values| < 4 || q3 <= q1 then [] else Positions(values, IqrRule(LowFence(q1, q3, factor), HighFence(q1, q3, factor)))
  {
    hide Interpolate, Sorted, Positions, LowFence, HighFence;
  }

  lemma Outside(q1: real, q3: real, factor: real, v: real)
    ensures IqrRule(LowFence(q1, q3, factor), HighFence(q1, q3, factor))(v) <==>
            q1 - v > factor * (q3 - q1) || v - q3 > factor * (q3 - q1)
  {
  }

  /** From four values on, and with quartiles apart, the interquartile rule flags exactly the values further outside the
      quartiles than the factor times their distance. */
  lemma IqrFlags(values: seq<real>, factor: real, i: nat)
    requires values != []
    ensures var q1, q3 := Percentile(values, 0.25).value, Percentile(values, 0.75).value;
            i in IqrOutliers(values, factor) <==>
            i < |values| && |values| >= 4 && q3 > q1
            && (q1 - values[i] > factor * (q3 - q1) || values[i] - q3 > factor * (q3 - q1))
  {
    hide *;
    PercentileIs(values, 0.25);
    PercentileIs(values, 0.75);
    var q1, q3 := Percentile(values, 0.25).value, Percentile(values, 0.75).value;
    ByIqr(values, factor, q1, q3);
    PositionsAre(values, IqrRule(LowFence(q1, q3, factor), HighFence(q1, q3, factor)), i);
    if i < |values| {
      Outside(q1, q3, factor, values[i]);
    }
  }

  /** Nothing is flagged unless a rule is asked for; a rule asked for without a threshold has its own. */
  lemma FlaggedBy(values: seq<real>, policy: Policy, threshold: Option<real>)
    ensures Flagged(values, policy, Cut(policy, threshold)) ==
            match policy
            case ReportOnly => []
            case ModifiedZScore => ModifiedZOutliers(values, if threshold.Some? then threshold.value else 3.5)
            case Iqr => IqrOutliers(values, if threshold.Some? then threshold.value else 1.5)
  {
    hide ModifiedZOutliers, IqrOutliers;
  }

  // ---------------------------------------------------------------------------------------
  // The figures
  // ---------------------------------------------------------------------------------------

  /** A figure taken over all the values, or refused for all of them. */
  predicate Carries(figure: Statistic, series: Series, result: MetricResult) {
    figure == Statistic(result, |series.values|, series.excludedCount)
  }

  function Squares(mean: real): real -> real { (v: real) => (v - mean) * (v - mean) }

  /** The mean times the number of values is their sum; minimum and maximum are values and bound all of them; the median
      and the percentiles are those of the values. */
  lemma CentralFigures(series: Series, report: OutlierReport, root: real -> real)
    requires series.values != []
    ensures var s, values := Figures(series, report, root), series.values;
            && s.mean.result.Value? && Carries(s.mean, series, s.mean.result)
            && s.mean.result.value * |values| as real == SumOf(values, Identity)
            && Carries(s.minimum, series, Value(Least(values))) && Carries(s.maximum, series, Value(Greatest(values)))
            && Least(values) in values && Greatest(values) in values
            && (forall i :: 0 <= i < |values| ==> Least(values) <= values[i] <= Greatest(values))
            && Carries(s.median, series, Value(Percentile(values, 0.5).value))
            && Carries(s.p50, series, Value(Percentile(values, 0.5).value))
            && Carries(s.p95, series, Value(Percentile(values, 0.95).value))
            && Carries(s.p99, series, Value(Percentile(values, 0.99).value))
  {
    hide *;
    FiguresAre(series, report, root);
    MeanTimesSize(series.values);
    ExtremesAre(series.values);
  }

  lemma FiguresAre(series: Series, report: OutlierReport, root: real -> real)
    requires series.values != []
    ensures var s, values := Figures(series, report, root), series.values;
            && Carries(s.mean, series, Value(MeanOf(values))) && Total(values) == SumOf(values, Identity)
            && Carries(s.minimum, series, Value(Least(values))) && Carries(s.maximum, series, Value(Greatest(values)))
            && Carries(s.median, series, Value(Percentile(values, 0.5).value))
            && Carries(s.p50, series, Value(Percentile(values, 0.5).value))
            && Carries(s.p95, series, Value(Percentile(values, 0.95).value))
            && Carries(s.p99, series, Value(Percentile(values, 0.99).value))
            && s.stddev == StdDev(series, root) && s.coefficientOfVariation == CoefficientOfVariation(series, root)
            && s.mean.result == Value(MeanOf(values)) && Carries(s.mean, series, s.mean.result)
  {
    hide MeanOf, Least, Greatest, Sorted, Interpolate, StdDev, CoefficientOfVariation;
  }

  lemma {:induction false} ExtremesAre(values: seq<real>)
    requires values != []
    ensures Least(values) in values && Greatest(values) in values
    ensures forall i :: 0 <= i < |values| ==> Least(values) <= values[i] <= Greatest(values)
  {
    if |values| > 1 {
      var n := |values| - 1;
      ExtremesAre(values[..n]);
      assert forall i :: 0 <= i < n ==> values[..n][i] == values[i];
    }
  }

  lemma SquareAt(mean: real, x: real)
    ensures SquaredDeviation(mean)(x) == Squares(mean)(x)
  {
    var d := x - mean;
    assert Sq(d) == d * d;
  }

  lemma VarianceIs(values: seq<real>)
    requires |values| >= 2
    ensures Variance(values) * (|values| - 1) as real == SumOf(values, Squares(MeanOf(values)))
  {
    hide MeanOf;
    var mean := MeanOf(values);
    forall x: real ensures SquaredDeviation(mean)(x) == Squares(mean)(x) {
      SquareAt(mean, x);
    }
    SumCongruent(values, SquaredDeviation(mean), Squares(mean));
    hide SumOf, SquaredDeviation, Squares;
  }

  /** The non-negative number whose square, times one less than the number of values, is the sum of the squared distances
      from the mean. */
  predicate IsDeviation(deviation: real, values: seq<real>)
    requires values != []
  {
    deviation >= 0.0 && deviation * deviation * (|values| - 1) as real == SumOf(values, Squares(MeanOf(values)))
  }

  /** From two values on the deviation is that number; relative to the mean it is given for a positive one only. One value
      has none. */
  lemma SpreadFigures(series: Series, report: OutlierReport, root: real -> real) returns (deviation: real)
    requires series.values != [] && IsSquareRoot(root)
    ensures var s := Figures(series, report, root);
            |series.values| == 1 ==>
              && Carries(s.stddev, series, Unavailable(SingleObservation))
              && Carries(s.coefficientOfVariation, series, Unavailable(SingleObservation))
    ensures var s, mean := Figures(series, report, root), MeanOf(series.values);
            |series.values| >= 2 ==>
              && IsDeviation(deviation, series.values) && Carries(s.stddev, series, Value(deviation))
              && Carries(s.coefficientOfVariation, series, if mean <= 0.0 then Unavailable(ZeroMean) else Value(deviation / mean))
  {
    hide *;
    deviation := 0.0;
    FiguresAre(series, report, root);
    if |series.values| >= 2 {
      deviation := root(Variance(series.values));
      SpreadsOf(series, root);
      DeviationIs(series.values, root);
    } else {
      OneValue(series, root);
    }
  }

  lemma OneValue(series: Series, root: real -> real)
    requires |series.values| == 1
    ensures Carries(StdDev(series, root), series, Unavailable(SingleObservation))
    ensures Carries(CoefficientOfVariation(series, root), series, Unavailable(SingleObservation))
  {
    hide MeanOf, Variance;
  }

  lemma DeviationIs(values: seq<real>, root: real -> real)
    requires |values| >= 2 && IsSquareRoot(root)
    ensures IsDeviation(root(Variance(values)), values)
  {
    VarianceMeans(values);
    VarianceIs(values);
    RootIs(root, Variance(values));
    hide MeanOf, Variance, SumOf, Squares;
  }

  lemma RootIs(root: real -> real, x: real)
    requires IsSquareRoot(root) && x >= 0.0
    ensures root(x) >= 0.0 && root(x) * root(x) == x
  {
  }

  lemma SpreadsOf(series: Series, root: real -> real)
    requires |series.values| >= 2
    ensures Carries(StdDev(series, root), series, Value(root(Variance(series.values))))
    ensures Carries(CoefficientOfVariation(series, root), series,
                 if MeanOf(series.values) <= 0.0 then Unavailable(ZeroMean)
                 else Value(root(Variance(series.values)) / MeanOf(series.values)))
  {
    hide MeanOf, Variance;
  }
}
