/** The interpolated percentile of src/freeweight/domain/metrics.py. */
module Percentiles {
  import opened Ordering
  import opened Results
  import opened Sums

  /** The value the given share of the way through the sorted values. */
  function Interpolate(ordered: seq<real>, fraction: real): real
    requires ordered != [] && 0.0 <= fraction <= 1.0
  {
    if |ordered| == 1 then ordered[0]
    else
      var position := PositionAt(|ordered|, fraction);
      var lower := position.Floor;
      var upper := if lower + 1 <= |ordered| - 1 then lower + 1 else |ordered| - 1;
      var weight := position - lower as real;
      Blend(ordered[lower], ordered[upper], weight)
  }

  function Blend(a: real, b: real, weight: real): real { a * (1.0 - weight) + b * weight }

  function PositionAt(n: nat, fraction: real): (position: real)
    requires n > 0 && 0.0 <= fraction <= 1.0
    ensures 0.0 <= position <= (n - 1) as real
  {
    fraction * (n - 1) as real
  }

  function Percentile(values: seq<real>, fraction: real): Result<real> {
    if values == [] || !(0.0 <= fraction <= 1.0) then ValueError
    else Ok(Interpolate(Sorted(values), fraction))
  }

  lemma WeightedBetween(a: real, b: real, w: real)
    requires a <= b && 0.0 <= w <= 1.0
    ensures a <= Blend(a, b, w) <= b
  {
    NonNegativeProduct(b - a, w);
    NonNegativeProduct(b - a, 1.0 - w);
  }

  /** A percentile lies between the two sorted values around its position. */
  lemma BetweenNeighbours(ordered: seq<real>, fraction: real)
    requires ordered != [] && Ascending(ordered) && 0.0 <= fraction <= 1.0
    ensures var lower := PositionAt(|ordered|, fraction).Floor;
            0 <= lower < |ordered| &&
            ordered[lower] <= Interpolate(ordered, fraction) <= ordered[if lower + 1 < |ordered| then lower + 1 else lower]
  {
    hide PositionAt, Blend;
    if |ordered| > 1 {
      var position := PositionAt(|ordered|, fraction);
      var lower := position.Floor;
      var upper := if lower + 1 <= |ordered| - 1 then lower + 1 else |ordered| - 1;
      assert ordered[lower] <= ordered[upper];
      WeightedBetween(ordered[lower], ordered[upper], position - lower as real);
    }
  }

  lemma MonotoneInGap(ordered: seq<real>, f: real, g: real)
    requires ordered != [] && Ascending(ordered) && 0.0 <= f <= 1.0 && 0.0 <= g <= 1.0
    requires PositionAt(|ordered|, f) <= PositionAt(|ordered|, g)
    requires PositionAt(|ordered|, f).Floor == PositionAt(|ordered|, g).Floor
    ensures Interpolate(ordered, f) <= Interpolate(ordered, g)
  {
    hide PositionAt, Blend;
    if |ordered| > 1 {
      var p, q := PositionAt(|ordered|, f), PositionAt(|ordered|, g);
      var lower := p.Floor;
      var upper := if lower + 1 <= |ordered| - 1 then lower + 1 else |ordered| - 1;
      assert ordered[lower] <= ordered[upper];
      WeightMonotone(ordered[lower], ordered[upper], p - lower as real, q - lower as real);
    }
  }

  /** Percentiles never fall as the fraction rises. */
  lemma MonotoneInFraction(ordered: seq<real>, f: real, g: real)
    requires ordered != [] && Ascending(ordered) && 0.0 <= f <= g <= 1.0
    ensures Interpolate(ordered, f) <= Interpolate(ordered, g)
  {
    hide PositionAt, Blend, Interpolate;
    PositionMonotone(|ordered|, f, g);
    var p, q := PositionAt(|ordered|, f), PositionAt(|ordered|, g);
    if p.Floor < q.Floor {
      BetweenNeighbours(ordered, f);
      BetweenNeighbours(ordered, g);
      assert ordered[p.Floor + 1] <= ordered[q.Floor];
    } else {
      MonotoneInGap(ordered, f, g);
    }
  }

  lemma PositionMonotone(n: nat, f: real, g: real)
    requires n > 0 && 0.0 <= f <= g <= 1.0
    ensures PositionAt(n, f) <= PositionAt(n, g)
  {
    NonNegativeProduct(g - f, (n - 1) as real);
  }

  lemma WeightMonotone(a: real, b: real, v: real, w: real)
    requires a <= b && v <= w
    ensures Blend(a, b, v) <= Blend(a, b, w)
  {
    NonNegativeProduct(b - a, w - v);
  }

  /** At the fraction k / (n - 1) the percentile is the k-th sorted value itself. */
  lemma AtRank(ordered: seq<real>, k: nat)
    requires k < |ordered| && |ordered| > 1
    ensures var f := k as real / (|ordered| - 1) as real;
            0.0 <= f <= 1.0 && Interpolate(ordered, f) == ordered[k]
  {
    var n := (|ordered| - 1) as real;
    var f := k as real / n;
    assert f * n == k as real;
    FractionOf(k as real, n, f);
    assert PositionAt(|ordered|, f) == k as real;
  }

  lemma FractionOf(k: real, n: real, f: real)
    requires 0.0 <= k <= n && n > 0.0 && f * n == k
    ensures 0.0 <= f <= 1.0
  {
    if f < 0.0 {
      PositiveProduct(-f, n, -f * n);
    }
    if f > 1.0 {
      PositiveProduct(f - 1.0, n, (f - 1.0) * n);
    }
  }

  /** A percentile depends on what is measured, not on the order of measurement; it lies within the
      least and the greatest value. */
  lemma PercentileProperties(values: seq<real>, values': seq<real>, fraction: real)
    requires values != [] && 0.0 <= fraction <= 1.0 && multiset(values) == multiset(values')
    ensures Percentile(values, fraction).Ok? && Percentile(values', fraction) == Percentile(values, fraction)
    ensures var ordered := Sorted(values);
            |ordered| == |values| && ordered[0] <= Percentile(values, fraction).value <= ordered[|values| - 1]
  {
    hide Sorted, PositionAt, Interpolate;
    assert |multiset(values)| == |multiset(values')|;
    SortedPermutation(values, values');
    BetweenNeighbours(Sorted(values), fraction);
  }

  // ---------------------------------------------------------------------------------------
  // Where a percentile stands among the values
  // ---------------------------------------------------------------------------------------

  /** In ascending order, a value at position k has at least k + 1 values at or below it. */
  lemma {:induction false} CountBelow(ordered: seq<real>, k: nat, bound: real)
    requires Ascending(ordered) && k < |ordered| && ordered[k] <= bound
    ensures SumOf(ordered, AtMost(bound)) >= (k + 1) as real
  {
    assert ordered == ordered[..k + 1] + ordered[k + 1..];
    SumConcat(ordered[..k + 1], ordered[k + 1..], AtMost(bound));
    SumOnes(ordered[..k + 1], AtMost(bound));
    SumNonNegative(ordered[k + 1..], AtMost(bound));
  }

  /** And at least as many values at or above it as follow it, itself included. */
  lemma CountAbove(ordered: seq<real>, k: nat, bound: real)
    requires Ascending(ordered) && k < |ordered| && ordered[k] >= bound
    ensures SumOf(ordered, AtLeast(bound)) >= (|ordered| - k) as real
  {
    assert ordered == ordered[..k] + ordered[k..];
    SumConcat(ordered[..k], ordered[k..], AtLeast(bound));
    SumOnes(ordered[k..], AtLeast(bound));
    SumNonNegative(ordered[..k], AtLeast(bound));
  }

  /** A percentile is read off the values in order: between two of them, in proportion to where its position lies. */
  lemma LinearBetween(values: seq<real>, ordered: seq<real>, fraction: real, position: real, k: nat)
    requires Ascending(ordered) && multiset(ordered) == multiset(values)
    requires k + 1 < |ordered| && 0.0 <= fraction <= 1.0
    requires position == fraction * (|ordered| - 1) as real && k as real <= position <= (k + 1) as real
    ensures Percentile(values, fraction) == Ok(ordered[k] + (position - k as real) * (ordered[k + 1] - ordered[k]))
  {
    SizeOf(values, ordered);
    PositionIs(|ordered|, fraction);
    SortedIs(values, ordered);
    hide Sorted, Ascending, PositionAt, Interpolate;
    Interpolated(ordered, fraction, k, position);
  }

  lemma SortedIs(values: seq<real>, ordered: seq<real>)
    requires Ascending(ordered) && multiset(ordered) == multiset(values)
    ensures Sorted(values) == ordered
  {
    SortedUnique(Sorted(values), ordered);
  }

  lemma SizeOf(values: seq<real>, ordered: seq<real>)
    requires multiset(ordered) == multiset(values)
    ensures |ordered| == |values|
  {
    assert |multiset(ordered)| == |multiset(values)|;
  }

  lemma PositionIs(n: nat, fraction: real)
    requires n > 0 && 0.0 <= fraction <= 1.0
    ensures PositionAt(n, fraction) == fraction * (n - 1) as real
  {
  }

  lemma Interpolated(ordered: seq<real>, fraction: real, k: nat, position: real)
    requires k + 1 < |ordered| && 0.0 <= fraction <= 1.0
    requires position == PositionAt(|ordered|, fraction) && k as real <= position <= (k + 1) as real
    ensures Interpolate(ordered, fraction) == ordered[k] + (position - k as real) * (ordered[k + 1] - ordered[k])
  {
    hide PositionAt, Blend;
    if position.Floor == k {
      Blended(ordered[k], ordered[k + 1], position - k as real);
    } else {
      assert position == (k + 1) as real && position.Floor == k + 1;
      var upper := if k + 2 <= |ordered| - 1 then k + 2 else |ordered| - 1;
      Blended(ordered[k + 1], ordered[upper], 0.0);
    }
  }

  lemma Blended(a: real, b: real, weight: real)
    ensures Blend(a, b, weight) == a + weight * (b - a)
    ensures weight == 0.0 ==> Blend(a, b, weight) == a
  {
  }

  /** One value is every percentile of itself; no value has none, and a fraction outside [0, 1] is refused. */
  lemma PercentileOfFew(values: seq<real>, fraction: real)
    ensures Percentile(values, fraction).ValueError? <==> values == [] || fraction < 0.0 || fraction > 1.0
    ensures |values| == 1 && 0.0 <= fraction <= 1.0 ==> Percentile(values, fraction) == Ok(values[0])
  {
    hide Sorted;
    if |values| == 1 {
      SortedIs(values, values);
    }
  }

  /** How many values a percentile leaves at or below it, and at or above it. */
  lemma PercentileCounts(values: seq<real>, fraction: real, position: real)
    requires values != [] && 0.0 <= fraction <= 1.0 && position == fraction * (|values| - 1) as real
    ensures var x := Percentile(values, fraction).value;
            && SumOf(values, AtMost(x)) >= (position.Floor + 1) as real
            && SumOf(values, AtLeast(x)) >= (|values| + (-position).Floor) as real
  {
    var ordered := Sorted(values);
    var x := Percentile(values, fraction).value;
    PositionIs(|values|, fraction);
    assert x == Interpolate(ordered, fraction);
    hide *;
    SumPermutation(values, ordered, AtMost(x));
    SumPermutation(values, ordered, AtLeast(x));
    FirstCounts(ordered, fraction, position, x);
    LastCounts(ordered, fraction, position, x);
  }

  lemma FirstCounts(ordered: seq<real>, fraction: real, position: real, x: real)
    requires ordered != [] && Ascending(ordered) && 0.0 <= fraction <= 1.0
    requires position == PositionAt(|ordered|, fraction) && x == Interpolate(ordered, fraction)
    ensures SumOf(ordered, AtMost(x)) >= (position.Floor + 1) as real
  {
    BetweenNeighbours(ordered, fraction);
    hide SumOf, PositionAt, Interpolate;
    CountBelow(ordered, position.Floor, x);
  }

  lemma LastCounts(ordered: seq<real>, fraction: real, position: real, x: real)
    requires ordered != [] && Ascending(ordered) && 0.0 <= fraction <= 1.0
    requires position == PositionAt(|ordered|, fraction) && x == Interpolate(ordered, fraction)
    ensures SumOf(ordered, AtLeast(x)) >= (|ordered| + (-position).Floor) as real
  {
    BetweenNeighbours(ordered, fraction);
    FloorBelow(position);
    if position == position.Floor as real {
      AtItsRank(ordered, fraction, position);
      hide SumOf, PositionAt, Interpolate;
      CountAbove(ordered, position.Floor, x);
    } else {
      hide SumOf, PositionAt, Interpolate;
      CountAbove(ordered, position.Floor + 1, x);
    }
  }

  lemma FloorBelow(x: real)
    ensures (-x).Floor == if x == x.Floor as real then -x.Floor else -x.Floor - 1
  {
  }

  lemma AtItsRank(ordered: seq<real>, fraction: real, position: real)
    requires ordered != [] && 0.0 <= fraction <= 1.0
    requires position == PositionAt(|ordered|, fraction) && position == position.Floor as real
    ensures Interpolate(ordered, fraction) == ordered[position.Floor]
  {
    hide PositionAt, Blend;
    if |ordered| > 1 {
      var lower := position.Floor;
      var upper := if lower + 1 <= |ordered| - 1 then lower + 1 else |ordered| - 1;
      Blended(ordered[lower], ordered[upper], 0.0);
    }
  }

  /** The median leaves at least half of the values at or below it, and at least half at or above it. */
  lemma MedianCounts(values: seq<real>)
    requires values != []
    ensures var x := Percentile(values, 0.5).value;
            2.0 * SumOf(values, AtMost(x)) >= |values| as real && 2.0 * SumOf(values, AtLeast(x)) >= |values| as real
  {
    var position := 0.5 * (|values| - 1) as real;
    PercentileCounts(values, 0.5, position);
    HalfWay(|values|, position);
    hide Percentile, SumOf, AtLeast, AtMost;
  }

  lemma HalfWay(n: nat, position: real)
    requires position == 0.5 * (n - 1) as real
    ensures 2 * (position.Floor + 1) >= n && 2 * (n + (-position).Floor) >= n
  {
  }
}
