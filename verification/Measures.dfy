/** The mean, the extremes and the sample variance of a list of values. */
module Measures {
  import opened Ordering
  import opened Sums

  function Total(values: seq<real>): real { SumOf(values, Identity) }

  function MeanOf(values: seq<real>): real
    requires values != []
  {
    Total(values) / |values| as real
  }

  function Least(values: seq<real>): real
    requires values != []
  {
    if |values| == 1 then values[0]
    else
      var least, last := Least(values[..|values| - 1]), values[|values| - 1];
      if last < least then last else least
  }

  function Greatest(values: seq<real>): real
    requires values != []
  {
    if |values| == 1 then values[0]
    else
      var greatest, last := Greatest(values[..|values| - 1]), values[|values| - 1];
      if last > greatest then last else greatest
  }

  function SquaredDeviation(mean: real): real -> real { (v: real) => Sq(v - mean) }

  /** The square of the sample standard deviation, over n - 1. */
  function Variance(values: seq<real>): real
    requires |values| >= 2
  {
    SumOf(values, SquaredDeviation(MeanOf(values))) / (|values| - 1) as real
  }

  lemma {:induction false} LeastGreatest(values: seq<real>)
    requires values != []
    ensures Least(values) in values && Greatest(values) in values
    ensures forall v :: v in values ==> Least(values) <= v <= Greatest(values)
  {
    if |values| > 1 {
      LeastGreatest(values[..|values| - 1]);
      assert values == values[..|values| - 1] + [values[|values| - 1]];
    }
  }

  lemma MeanBetween(values: seq<real>)
    requires values != []
    ensures Least(values) <= MeanOf(values) <= Greatest(values)
  {
    hide Least, Greatest, SumOf;
    LeastGreatest(values);
    var low, high := (v: real) => Least(values), (v: real) => Greatest(values);
    SumConstant(values, Least(values), low);
    SumConstant(values, Greatest(values), high);
    SumMonotone(values, low, Identity);
    SumMonotone(values, Identity, high);
    QuotientBetween(SumOf(values, Identity), |values| as real, Least(values), Greatest(values));
  }

  lemma QuotientBetween(total: real, n: real, low: real, high: real)
    requires n > 0.0 && low * n <= total <= high * n
    ensures low <= total / n <= high
  {
    var mean := total / n;
    assert mean * n == total;
    if mean < low {
      PositiveProduct(low - mean, n, (low - mean) * n);
    } else if mean > high {
      PositiveProduct(mean - high, n, (mean - high) * n);
    }
  }

  lemma {:induction false} NoDeviation(values: seq<real>, mean: real)
    ensures SumOf(values, SquaredDeviation(mean)) >= 0.0
    ensures SumOf(values, SquaredDeviation(mean)) == 0.0 <==> forall i :: 0 <= i < |values| ==> values[i] == mean
  {
    if values != [] {
      var n := |values| - 1;
      NoDeviation(values[..n], mean);
      SquareZero(values[n] - mean);
    }
  }

  lemma {:induction false} LevelTotal(values: seq<real>, level: real)
    requires forall i :: 0 <= i < |values| ==> values[i] == level
    ensures Total(values) == level * |values| as real
  {
    if values != [] {
      LevelTotal(values[..|values| - 1], level);
    }
  }

  lemma LevelMean(values: seq<real>)
    requires values != [] && forall i :: 0 <= i < |values| ==> values[i] == values[0]
    ensures MeanOf(values) == values[0]
  {
    LevelTotal(values, values[0]);
    MeanTimesSize(values);
    hide MeanOf, Total;
    Cancel(MeanOf(values), values[0], |values| as real);
  }

  /** The variance is never negative, and zero exactly on values that are all the same. */
  lemma VarianceMeans(values: seq<real>)
    requires |values| >= 2
    ensures Variance(values) >= 0.0
    ensures Variance(values) == 0.0 <==> forall i :: 0 <= i < |values| ==> values[i] == values[0]
  {
    var mean, n := MeanOf(values), |values| as real;
    NoDeviation(values, mean);
    if forall i :: 0 <= i < |values| ==> values[i] == values[0] {
      LevelMean(values);
    }
    hide SumOf, MeanOf;
    QuotientZero(SumOf(values, SquaredDeviation(mean)), n - 1.0);
  }

  lemma QuotientZero(x: real, n: real)
    requires x >= 0.0 && n > 0.0
    ensures x / n >= 0.0 && (x / n == 0.0 <==> x == 0.0)
  {
    var q := x / n;
    assert q * n == x;
  }

  lemma MeanTimesSize(values: seq<real>)
    requires values != []
    ensures MeanOf(values) * |values| as real == Total(values)
  {
    hide Total;
  }

  /** The deviations from b less those from a, as a line in the value. */
  function Slope(a: real, b: real): real { 2.0 * (a - b) }

  function Offset(a: real, b: real): real { Sq(a - b) - 2.0 * (a - b) * a }

  function Linear(slope: real, offset: real, v: real): real { slope * v + offset * 1.0 }

  function Line(slope: real, offset: real): real -> real { (v: real) => Linear(slope, offset, v) }

  lemma SquareShift(x: real, a: real, b: real)
    ensures Sq(x - b) == Sq(x - a) + Linear(Slope(a, b), Offset(a, b), x)
  {
    var y, d := x - a, a - b;
    SquareOfSum(y, d);
    assert x - b == y + d;
    assert 2.0 * d * y == 2.0 * d * x - 2.0 * d * a;
  }

  lemma SquareOfSum(y: real, d: real)
    ensures Sq(y + d) == Sq(y) + 2.0 * d * y + Sq(d)
  {
  }

  lemma DeviationPoint(x: real, a: real, b: real)
    ensures SquaredDeviation(b)(x) == SquaredDeviation(a)(x) + Line(Slope(a, b), Offset(a, b))(x)
  {
    SquareShift(x, a, b);
    hide Sq, Slope, Offset, Linear;
  }

  lemma LineSum(values: seq<real>, slope: real, offset: real)
    ensures SumOf(values, Line(slope, offset)) == Times(slope, Total(values)) + Times(offset, |values| as real)
  {
    var one := (v: real) => 1.0;
    hide SumOf;
    SumLinear(values, slope, Identity, offset, one, Line(slope, offset));
    SumConstant(values, 1.0, one);
  }

  lemma DeviationSplit(values: seq<real>, a: real, b: real)
    ensures SumOf(values, SquaredDeviation(b)) ==
            SumOf(values, SquaredDeviation(a)) + SumOf(values, Line(Slope(a, b), Offset(a, b)))
  {
    hide *;
    forall x: real ensures SquaredDeviation(b)(x) == SquaredDeviation(a)(x) + Line(Slope(a, b), Offset(a, b))(x) {
      DeviationPoint(x, a, b);
    }
    SumAdd(values, SquaredDeviation(a), Line(Slope(a, b), Offset(a, b)), SquaredDeviation(b));
  }

  lemma MeanTotals(values: seq<real>)
    requires values != []
    ensures Total(values) == Times(MeanOf(values), |values| as real)
  {
    MeanTimesSize(values);
    hide Total, MeanOf;
  }

  lemma LineShift(values: seq<real>, mean: real, point: real)
    requires values != [] && mean == MeanOf(values)
    ensures SumOf(values, Line(Slope(mean, point), Offset(mean, point))) == Times(|values| as real, Sq(mean - point))
  {
    hide *;
    MeanTotals(values);
    LineSum(values, Slope(mean, point), Offset(mean, point));
    ShiftTerms(mean, point, |values| as real, Total(values), Slope(mean, point), Offset(mean, point));
  }

  /** Squared deviations from another point than the mean exceed those from the mean by the squared distance of the
      two, once for each value. */
  lemma DeviationShift(values: seq<real>, point: real)
    requires values != []
    ensures SumOf(values, SquaredDeviation(point)) ==
            SumOf(values, SquaredDeviation(MeanOf(values))) + Times(|values| as real, Sq(MeanOf(values) - point))
  {
    hide *;
    var mean := MeanOf(values);
    DeviationSplit(values, mean, point);
    LineShift(values, mean, point);
  }

  lemma ShiftTerms(mean: real, point: real, n: real, total: real, slope: real, offset: real)
    requires total == Times(mean, n) && slope == Slope(mean, point) && offset == Offset(mean, point)
    ensures Times(slope, total) + Times(offset, n) == Times(n, Sq(mean - point))
  {
    assert Times(slope, total) == slope * mean * n;
    assert Times(offset, n) == Sq(mean - point) * n - slope * mean * n;
  }
}
