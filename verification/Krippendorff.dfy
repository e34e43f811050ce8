/** Krippendorff's alpha: the coincidence-map computation of src/freeweight/domain/agreement.py,
    proved equal to a closed form over the ratings themselves. */
module Krippendorff {
  import opened Agreement
  import opened Dictionaries
  import opened Results
  import opened Sums

  /** One sample: one entry per juror, None where that juror did not rate it. */
  type Unit = seq<Option<real>>

  datatype Coincidence = Coincidence(left: real, right: real)

  function Present(unit: Unit): seq<real> {
    if unit == [] then []
    else
      var front, last := Present(unit[..|unit| - 1]), unit[|unit| - 1];
      if last.Some? then front + [last.value] else front
  }

  function Pairable(unit: Unit): seq<real> {
    if |Present(unit)| < MINIMUM_PAIRS then [] else Present(unit)
  }

  function Id(x: real): real { x }

  // ---------------------------------------------------------------------------------------
  // The reference definition
  // ---------------------------------------------------------------------------------------

  /** Every rating that shares its unit with another one. */
  function Pool(ratings: seq<Unit>): seq<real> {
    if ratings == [] then [] else Pool(ratings[..|ratings| - 1]) + Pairable(ratings[|ratings| - 1])
  }

  /** The squared differences inside one unit, each rating weighted by 1 / (m - 1). */
  function UnitDisagreement(unit: Unit): real {
    var p := Pairable(unit);
    if p == [] then 0.0 else Share(|p|) * CrossSquares(p, Id, p, Id)
  }

  function Share(m: nat): real
    requires m >= MINIMUM_PAIRS
  {
    1.0 / (m as real - 1.0)
  }

  function Within(ratings: seq<Unit>): real {
    SumOf(ratings, UnitDisagreement)
  }

  function Between(ratings: seq<Unit>): real {
    CrossSquares(Pool(ratings), Id, Pool(ratings), Id)
  }

  /** alpha = 1 - (n - 1) * within / between, over the n pairable ratings. */
  function Alpha(ratings: seq<Unit>): Option<real> {
    Coefficient(|Pool(ratings)|, Within(ratings), Between(ratings))
  }

  function Coefficient(n: nat, within: real, between: real): Option<real> {
    if n <= 1 || between == 0.0 then None else Some(1.0 - Disagreement(n as real, within, between))
  }

  function Disagreement(n: real, within: real, between: real): real
    requires between != 0.0
  {
    (n - 1.0) * within / between
  }

  // ---------------------------------------------------------------------------------------
  // The computation
  // ---------------------------------------------------------------------------------------

  /** Pairs (p[i], p[0]), ..., (p[i], p[j - 1]) added to the map, the pair of i with itself skipped. */
  function AddRow(d: Dict<Coincidence>, p: seq<real>, i: nat, j: nat): Dict<Coincidence>
    requires i < |p| && j <= |p| && |p| >= MINIMUM_PAIRS
  {
    if j == 0 then d
    else if j - 1 == i then AddRow(d, p, i, j - 1)
    else Add(AddRow(d, p, i, j - 1), Coincidence(p[i], p[j - 1]), Share(|p|))
  }

  function AddUnit(d: Dict<Coincidence>, p: seq<real>, i: nat): Dict<Coincidence>
    requires i <= |p| && |p| >= MINIMUM_PAIRS
  {
    if i == 0 then d else AddRow(AddUnit(d, p, i - 1), p, i - 1, |p|)
  }

  function Coincidences(ratings: seq<Unit>): Dict<Coincidence> {
    if ratings == [] then []
    else
      var d, p := Coincidences(ratings[..|ratings| - 1]), Present(ratings[|ratings| - 1]);
      if |p| < MINIMUM_PAIRS then d else AddUnit(d, p, |p|)
  }

  function Totals(coincidences: Dict<Coincidence>): Dict<real> {
    if coincidences == [] then []
    else
      var last := coincidences[|coincidences| - 1];
      Add(Totals(coincidences[..|coincidences| - 1]), last.key.left, last.value)
  }

  function Value(e: Entry<real>): real { e.value }

  function SquaredDistance(c: Coincidence): real { Sq(c.left - c.right) }

  function ExpectedTerm(a: Entry<real>): Entry<real> -> real {
    (b: Entry<real>) => a.value * b.value * Sq(a.key - b.key)
  }

  function ExpectedRow(totals: Dict<real>): Entry<real> -> real {
    (a: Entry<real>) => SumOf(totals, ExpectedTerm(a))
  }

  /** The coincidence map: every ordered pair of ratings of a unit, weighted by 1 / (m - 1). */
  method CountCoincidences(ratings: seq<Unit>) returns (coincidences: Dict<Coincidence>)
    ensures coincidences == Coincidences(ratings)
  {
    hide Share;
    coincidences := [];
    for u := 0 to |ratings|
      invariant coincidences == Coincidences(ratings[..u])
    {
      assert ratings[..u + 1][..u] == ratings[..u];
      var present := Present(ratings[u]);
      if |present| >= MINIMUM_PAIRS {
        for index := 0 to |present|
          invariant coincidences == AddUnit(Coincidences(ratings[..u]), present, index)
        {
          ghost var before := coincidences;
          for other := 0 to |present|
            invariant coincidences == AddRow(before, present, index, other)
          {
            if index != other {
              coincidences := Add(coincidences, Coincidence(present[index], present[other]), Share(|present|));
            }
          }
        }
      }
    }
    assert ratings[..|ratings|] == ratings;
  }

  /** The agreement of the whole jury, computed through the coincidence map and its totals. */
  method KrippendorffAlpha(ratings: seq<Unit>, interval: bool) returns (r: Result<Option<real>>)
    ensures r == if interval then Ok(Alpha(ratings)) else ValueError
  {
    if !interval {
      return ValueError;
    }
    hide Coincidences, SumOf, Weighted, ExpectedRow, Coefficient, Score;
    var coincidences := CountCoincidences(ratings);
    FromMap(ratings, coincidences);
    if coincidences == [] {
      return Ok(None);
    }
    var totals := LeftTotals(coincidences);
    FromTotals(ratings, totals);
    ScoreIsCoefficient(|Pool(ratings)|, Within(ratings), Between(ratings));
    return Ok(Score(Weighted(coincidences, SquaredDistance), SumOf(totals, ExpectedRow(totals)), SumOf(totals, Value)));
  }

  /** The last lines of the computation: the exits on a grand total of at most one and on zero
      expected disagreement, and the coefficient. */
  function Score(observedSum: real, expectedSum: real, grand: real): Option<real> {
    if grand <= 1.0 then None
    else OneMinusRatio(observedSum / grand, expectedSum / OrderedPairs(grand))
  }

  /** The number of ordered pairs of different ratings. */
  function OrderedPairs(grand: real): (pairs: real)
    requires grand > 1.0
    ensures pairs > 0.0
  {
    PositiveProduct(grand, grand - 1.0, grand * (grand - 1.0));
    grand * (grand - 1.0)
  }

  function OneMinusRatio(observed: real, expected: real): Option<real> {
    if expected == 0.0 then None else Some(1.0 - observed / expected)
  }

  lemma ScoreIsCoefficient(n: nat, within: real, between: real)
    ensures Score(within, between, n as real) == Coefficient(n, within, between)
  {
    hide OneMinusRatio, OrderedPairs;
    if n > 1 {
      CancelCounts(n, within, between, n as real, within / n as real, between / OrderedPairs(n as real));
    }
  }

  method LeftTotals(coincidences: Dict<Coincidence>) returns (totals: Dict<real>)
    ensures totals == Totals(coincidences)
  {
    totals := [];
    for t := 0 to |coincidences|
      invariant totals == Totals(coincidences[..t])
    {
      assert coincidences[..t + 1][..t] == coincidences[..t];
      totals := Add(totals, coincidences[t].key.left, coincidences[t].value);
    }
    assert coincidences[..|coincidences|] == coincidences;
  }

  lemma CancelCounts(n: nat, within: real, between: real, grand: real, observed: real, expected: real)
    requires grand == n as real && grand > 1.0
    requires observed == within / grand && expected == between / OrderedPairs(grand)
    ensures Coefficient(n, within, between) == OneMinusRatio(observed, expected)
  {
    var scale := OrderedPairs(grand);
    assert expected * scale == between;
    if expected != 0.0 {
      NonZeroProduct(scale, expected);
      var q := Disagreement(grand, within, between);
      assert q * between == (grand - 1.0) * within;
      assert within == observed * grand;
      CancelQuotient(q, between, expected, scale, grand, within, observed);
    }
  }

  lemma CancelQuotient(q: real, between: real, expected: real, scale: real, grand: real, within: real, observed: real)
    requires grand > 1.0 && scale == grand * (grand - 1.0) && scale > 0.0 && expected != 0.0
    requires between == expected * scale && q * between == (grand - 1.0) * within && within == observed * grand
    ensures observed / expected == q
  {
    assert q * expected * scale == observed * scale by {
      calc {
        q * expected * scale;
        q * between;
        (grand - 1.0) * (observed * grand);
        observed * scale;
      }
    }
    Cancel(q * expected, observed, scale);
  }

  // ---------------------------------------------------------------------------------------
  // Every weighted sum over the coincidence map is a sum over the pairs of the units
  // ---------------------------------------------------------------------------------------

  function From(g: Coincidence -> real, x: real): real -> real {
    (y: real) => g(Coincidence(x, y))
  }

  function RowOf(p: seq<real>, g: Coincidence -> real): real -> real {
    (x: real) => SumOf(p, From(g, x))
  }

  function Diagonal(g: Coincidence -> real): real -> real {
    (x: real) => g(Coincidence(x, x))
  }

  /** The sum of g over the ordered pairs of two different positions of p. */
  function Pairs(p: seq<real>, g: Coincidence -> real): real {
    SumOf(p, RowOf(p, g)) - SumOf(p, Diagonal(g))
  }

  /** The sum of g(p[i], p[k]) over the k below j other than i. */
  function Others(p: seq<real>, i: nat, j: nat, g: Coincidence -> real): real
    requires i < |p| && j <= |p|
  {
    if j == 0 then 0.0
    else Others(p, i, j - 1, g) + if j - 1 == i then 0.0 else g(Coincidence(p[i], p[j - 1]))
  }

  lemma AddStep(d: Dict<Coincidence>, c: Coincidence, g: Coincidence -> real, share: real)
    ensures Weighted(Add(d, c, share), g) == Weighted(d, g) + Times(share, g(c))
  {
    AddWeighted(d, c, share, g);
  }

  lemma RowStep(d: Dict<Coincidence>, p: seq<real>, i: nat, j: nat, g: Coincidence -> real)
    requires i < |p| && j <= |p| && |p| >= MINIMUM_PAIRS
    ensures AddRow(d, p, i, 0) == d && Others(p, i, 0, g) == 0.0
    ensures j > 0 && j - 1 == i ==>
      AddRow(d, p, i, j) == AddRow(d, p, i, j - 1) && Others(p, i, j, g) == Others(p, i, j - 1, g)
    ensures j > 0 && j - 1 != i ==>
      var c := Coincidence(p[i], p[j - 1]);
      && AddRow(d, p, i, j) == Add(AddRow(d, p, i, j - 1), c, Share(|p|))
      && Others(p, i, j, g) == Others(p, i, j - 1, g) + g(c)
  {
    hide Add, Share;
  }

  lemma {:induction false} AddRowWeighted(d: Dict<Coincidence>, p: seq<real>, i: nat, j: nat, g: Coincidence -> real, share: real)
    requires i < |p| && j <= |p| && |p| >= MINIMUM_PAIRS && share == Share(|p|)
    ensures Weighted(AddRow(d, p, i, j), g) == Weighted(d, g) + Times(share, Others(p, i, j, g))
  {
    hide Weighted, Share, Times, AddRow, Others;
    RowStep(d, p, i, j, g);
    if j == 0 {
      TimesAdd(share, 0.0, 0.0);
    } else {
      AddRowWeighted(d, p, i, j - 1, g, share);
      if j - 1 != i {
        AddStep(AddRow(d, p, i, j - 1), Coincidence(p[i], p[j - 1]), g, share);
        TimesAdd(share, Others(p, i, j - 1, g), g(Coincidence(p[i], p[j - 1])));
      }
    }
  }

  lemma {:induction false} OthersSum(p: seq<real>, i: nat, j: nat, g: Coincidence -> real)
    requires i < |p| && j <= |p|
    ensures Others(p, i, j, g) == SumOf(p[..j], From(g, p[i])) - if i < j then g(Coincidence(p[i], p[i])) else 0.0
  {
    if j > 0 {
      OthersSum(p, i, j - 1, g);
      assert p[..j] == p[..j - 1] + [p[j - 1]];
      SumSnoc(p[..j - 1], p[j - 1], From(g, p[i]));
    }
  }

  lemma OthersInRow(p: seq<real>, i: nat, g: Coincidence -> real)
    requires i < |p|
    ensures Others(p, i, |p|, g) == RowOf(p, g)(p[i]) - Diagonal(g)(p[i])
  {
    OthersSum(p, i, |p|, g);
    assert p[..|p|] == p;
    hide SumOf, Others;
  }

  lemma SumOneMore(p: seq<real>, i: nat, f: real -> real)
    requires i < |p|
    ensures SumOf(p[..i + 1], f) == SumOf(p[..i], f) + f(p[i])
  {
    assert p[..i + 1] == p[..i] + [p[i]];
    SumSnoc(p[..i], p[i], f);
    hide SumOf;
  }

  lemma {:induction false} AddUnitWeighted(d: Dict<Coincidence>, p: seq<real>, i: nat, g: Coincidence -> real, share: real)
    requires i <= |p| && |p| >= MINIMUM_PAIRS && share == Share(|p|)
    ensures Weighted(AddUnit(d, p, i), g)
         == Weighted(d, g) + Times(share, SumOf(p[..i], RowOf(p, g)) - SumOf(p[..i], Diagonal(g)))
  {
    hide Weighted, Share, Times, RowOf, Diagonal, Others, AddRow;
    if i == 0 {
      TimesAdd(share, 0.0, 0.0);
    } else {
      hide SumOf;
      AddUnitWeighted(d, p, i - 1, g, share);
      AddRowWeighted(AddUnit(d, p, i - 1), p, i - 1, |p|, g, share);
      OthersInRow(p, i - 1, g);
      SumOneMore(p, i - 1, RowOf(p, g));
      SumOneMore(p, i - 1, Diagonal(g));
      TimesAdd(share, SumOf(p[..i - 1], RowOf(p, g)) - SumOf(p[..i - 1], Diagonal(g)), Others(p, i - 1, |p|, g));
    }
  }

  function UnitPairs(g: Coincidence -> real): Unit -> real {
    (unit: Unit) => if Pairable(unit) == [] then 0.0 else Share(|Pairable(unit)|) * Pairs(Pairable(unit), g)
  }

  lemma NothingWeighted(g: Coincidence -> real)
    ensures Weighted(Coincidences([]), g) == 0.0 && SumOf([], UnitPairs(g)) == 0.0
  {
  }

  lemma CoincidencesStep(ratings: seq<Unit>)
    requires ratings != []
    ensures var d, p := Coincidences(ratings[..|ratings| - 1]), Present(ratings[|ratings| - 1]);
            Coincidences(ratings) == if |p| < MINIMUM_PAIRS then d else AddUnit(d, p, |p|)
  {
    hide Present, AddUnit;
  }

  /** What one more unit adds to a weighted sum over the map. */
  lemma UnitWeighted(ratings: seq<Unit>, g: Coincidence -> real)
    requires ratings != []
    ensures var front, last := ratings[..|ratings| - 1], ratings[|ratings| - 1];
            Weighted(Coincidences(ratings), g) == Weighted(Coincidences(front), g) + UnitPairs(g)(last)
  {
    hide Share, Pairs, Weighted, Coincidences, SumOf, Present, AddUnit;
    var front, last := ratings[..|ratings| - 1], ratings[|ratings| - 1];
    var p := Present(last);
    CoincidencesStep(ratings);
    if |p| >= MINIMUM_PAIRS {
      AddUnitWeighted(Coincidences(front), p, |p|, g, Share(|p|));
      assert p[..|p|] == p;
      PairsDefinition(p, g);
    }
  }

  lemma {:induction false} CoincidencesWeighted(ratings: seq<Unit>, g: Coincidence -> real)
    ensures Weighted(Coincidences(ratings), g) == SumOf(ratings, UnitPairs(g))
  {
    hide Share, Pairs, Weighted, Coincidences, UnitPairs, SumOf;
    if ratings == [] {
      NothingWeighted(g);
    } else {
      var front, last := ratings[..|ratings| - 1], ratings[|ratings| - 1];
      CoincidencesWeighted(front, g);
      assert ratings == front + [last];
      SumSnoc(front, last, UnitPairs(g));
      UnitWeighted(ratings, g);
    }
  }

  lemma PairsDefinition(p: seq<real>, g: Coincidence -> real)
    ensures Pairs(p, g) == SumOf(p, RowOf(p, g)) - SumOf(p, Diagonal(g))
  {
  }

  // ---------------------------------------------------------------------------------------
  // Two kinds of weight: squared distance, and a function of the left rating
  // ---------------------------------------------------------------------------------------

  lemma RowOfSquares(p: seq<real>, x: real)
    ensures RowOf(p, SquaredDistance)(x) == SquaresFrom(Id(x), p, Id)
  {
    hide Sq, SumOf, SquaresFrom;
    SquaresAsSum(x, p, Id, From(SquaredDistance, x));
  }

  lemma NoDistance(x: real)
    ensures Diagonal(SquaredDistance)(x) == 0.0
  {
    assert SquaredDistance(Coincidence(x, x)) == Sq(x - x);
  }

  lemma DiagonalOfSquares(p: seq<real>)
    ensures SumOf(p, Diagonal(SquaredDistance)) == 0.0
  {
    hide SumOf, Diagonal;
    forall x: real ensures Diagonal(SquaredDistance)(x) == 0.0 {
      NoDistance(x);
    }
    SumConstant(p, 0.0, Diagonal(SquaredDistance));
  }

  lemma SquaredPairs(p: seq<real>)
    ensures Pairs(p, SquaredDistance) == CrossSquares(p, Id, p, Id)
  {
    hide *;
    forall x: real ensures RowOf(p, SquaredDistance)(x) == SquaresFrom(Id(x), p, Id) {
      RowOfSquares(p, x);
    }
    CrossAsSum(p, Id, p, Id, RowOf(p, SquaredDistance));
    DiagonalOfSquares(p);
    PairsDefinition(p, SquaredDistance);
  }

  lemma WithinFromMap(ratings: seq<Unit>)
    ensures Weighted(Coincidences(ratings), SquaredDistance) == Within(ratings)
  {
    hide Share, Pairs, CrossSquares;
    CoincidencesWeighted(ratings, SquaredDistance);
    forall unit ensures UnitPairs(SquaredDistance)(unit) == UnitDisagreement(unit) {
      SquaredPairs(Pairable(unit));
    }
    SumCongruent(ratings, UnitPairs(SquaredDistance), UnitDisagreement);
  }

  function LeftOf(h: real -> real): Coincidence -> real {
    (c: Coincidence) => h(c.left)
  }

  lemma RowOfLeft(p: seq<real>, h: real -> real, x: real)
    ensures RowOf(p, LeftOf(h))(x) == |p| as real * h(x)
  {
    hide SumOf;
    SumConstant(p, h(x), From(LeftOf(h), x));
  }

  lemma RowsOfLeft(p: seq<real>, h: real -> real)
    ensures SumOf(p, RowOf(p, LeftOf(h))) == |p| as real * SumOf(p, h)
  {
    hide SumOf, RowOf;
    forall x: real ensures RowOf(p, LeftOf(h))(x) == |p| as real * h(x) {
      RowOfLeft(p, h, x);
    }
    SumScaled(p, |p| as real, h, RowOf(p, LeftOf(h)));
  }

  lemma DiagonalOfLeft(p: seq<real>, h: real -> real)
    ensures SumOf(p, Diagonal(LeftOf(h))) == SumOf(p, h)
  {
    hide SumOf;
    SumCongruent(p, Diagonal(LeftOf(h)), h);
  }

  lemma LeftPairs(p: seq<real>, h: real -> real)
    requires |p| >= MINIMUM_PAIRS
    ensures Share(|p|) * Pairs(p, LeftOf(h)) == SumOf(p, h)
  {
    hide *;
    RowsOfLeft(p, h);
    DiagonalOfLeft(p, h);
    PairsDefinition(p, LeftOf(h));
    ShareCancels(|p|, SumOf(p, h), Pairs(p, LeftOf(h)));
  }

  lemma ShareCancels(m: nat, s: real, total: real)
    requires m >= MINIMUM_PAIRS && total == m as real * s - s
    ensures Share(m) * total == s
  {
    var n, share := m as real, Share(m);
    assert share * (n - 1.0) == 1.0;
    assert total == (n - 1.0) * s;
  }

  lemma LeftOfUnit(unit: Unit, h: real -> real)
    ensures UnitPairs(LeftOf(h))(unit) == SumOf(Pairable(unit), h)
  {
    assert SumOf([], h) == 0.0;
    hide Share, Pairs, SumOf;
    if Pairable(unit) != [] {
      LeftPairs(Pairable(unit), h);
    }
  }

  /** Summed over the map, any function of the left rating is that function summed over the pool. */
  lemma {:induction false} LeftFromUnits(ratings: seq<Unit>, h: real -> real)
    ensures SumOf(ratings, UnitPairs(LeftOf(h))) == SumOf(Pool(ratings), h)
  {
    if ratings != [] {
      var front, last := ratings[..|ratings| - 1], ratings[|ratings| - 1];
      assert ratings == front + [last] && Pool(ratings) == Pool(front) + Pairable(last);
      hide Share, Pairs, SumOf, Pool, Pairable, UnitPairs;
      LeftFromUnits(front, h);
      SumConcat(Pool(front), Pairable(last), h);
      SumSnoc(front, last, UnitPairs(LeftOf(h)));
      LeftOfUnit(last, h);
    }
  }

  lemma WeightedEnds(g: Coincidence -> real, h: real -> real)
    ensures Weighted([], g) == 0.0 && Weighted(Totals([]), h) == 0.0
  {
  }

  lemma WeightedSnoc(c: Dict<Coincidence>, g: Coincidence -> real)
    requires c != []
    ensures var last := c[|c| - 1];
            && Weighted(c, g) == Weighted(c[..|c| - 1], g) + last.value * g(last.key)
            && Totals(c) == Add(Totals(c[..|c| - 1]), last.key.left, last.value)
  {
    hide Add;
  }

  lemma {:induction false} TotalsWeighted(c: Dict<Coincidence>, h: real -> real)
    ensures Weighted(Totals(c), h) == Weighted(c, LeftOf(h))
  {
    hide Weighted, Totals, Add;
    if c == [] {
      WeightedEnds(LeftOf(h), h);
    } else {
      var last := c[|c| - 1];
      TotalsWeighted(c[..|c| - 1], h);
      WeightedSnoc(c, LeftOf(h));
      AddWeighted(Totals(c[..|c| - 1]), last.key.left, last.value, h);
    }
  }

  lemma TotalsFromPool(ratings: seq<Unit>, h: real -> real)
    ensures Weighted(Totals(Coincidences(ratings)), h) == SumOf(Pool(ratings), h)
  {
    TotalsWeighted(Coincidences(ratings), h);
    CoincidencesWeighted(ratings, LeftOf(h));
    LeftFromUnits(ratings, h);
  }

  function One(x: real): real { 1.0 }

  lemma WeightedByOne(totals: Dict<real>)
    ensures SumOf(totals, Value) == Weighted(totals, One)
  {
    hide SumOf;
    SumCongruent(totals, Value, Term(One));
  }

  lemma SumOfOne(p: seq<real>)
    ensures SumOf(p, One) == |p| as real
  {
    hide SumOf;
    SumConstant(p, 1.0, One);
  }

  lemma GrandFromPool(ratings: seq<Unit>)
    ensures SumOf(Totals(Coincidences(ratings)), Value) == |Pool(ratings)| as real
  {
    hide *;
    TotalsFromPool(ratings, One);
    WeightedByOne(Totals(Coincidences(ratings)));
    SumOfOne(Pool(ratings));
  }

  function DistanceTo(x: real): real -> real {
    (y: real) => Sq(x - y)
  }

  function PoolDistance(ratings: seq<Unit>): real -> real {
    (x: real) => SquaresFrom(x, Pool(ratings), Id)
  }

  lemma ExpectedTermScaled(a: Entry<real>, b: Entry<real>)
    ensures ExpectedTerm(a)(b) == a.value * Term(DistanceTo(a.key))(b)
  {
    hide Sq;
    Associate(a.value, b.value, Sq(a.key - b.key));
  }

  lemma WeightedIs(d: Dict<real>, g: real -> real)
    ensures Weighted(d, g) == SumOf(d, Term(g))
  {
  }

  lemma PoolSquares(ratings: seq<Unit>, x: real)
    ensures SquaresFrom(x, Pool(ratings), Id) == SumOf(Pool(ratings), DistanceTo(x))
  {
    hide SumOf, Pool, SquaresFrom, Sq;
    SquaresAsSum(x, Pool(ratings), Id, DistanceTo(x));
  }

  lemma DistanceFromTotals(ratings: seq<Unit>, x: real)
    ensures SumOf(Totals(Coincidences(ratings)), Term(DistanceTo(x))) == SquaresFrom(x, Pool(ratings), Id)
  {
    hide *;
    PoolSquares(ratings, x);
    TotalsFromPool(ratings, DistanceTo(x));
    WeightedIs(Totals(Coincidences(ratings)), DistanceTo(x));
  }

  lemma ExpectedRowFromPool(ratings: seq<Unit>, a: Entry<real>)
    ensures ExpectedRow(Totals(Coincidences(ratings)))(a) == Term(PoolDistance(ratings))(a)
  {
    hide Sq, SumOf, Totals, Coincidences, Pool, SquaresFrom, DistanceTo;
    var totals := Totals(Coincidences(ratings));
    DistanceFromTotals(ratings, a.key);
    var sum, distance := SumOf(totals, Term(DistanceTo(a.key))), SquaresFrom(a.key, Pool(ratings), Id);
    assert SumOf(totals, ExpectedTerm(a)) == a.value * sum by {
      forall b: Entry<real> ensures ExpectedTerm(a)(b) == a.value * Term(DistanceTo(a.key))(b) {
        ExpectedTermScaled(a, b);
      }
      hide ExpectedTerm, Term;
      SumScaled(totals, a.value, Term(DistanceTo(a.key)), ExpectedTerm(a));
    }
    hide ExpectedTerm;
    assert Term(PoolDistance(ratings))(a) == a.value * distance by {
      assert PoolDistance(ratings)(a.key) == distance;
    }
    assert ExpectedRow(totals)(a) == SumOf(totals, ExpectedTerm(a));
  }

  lemma BetweenFromTotals(ratings: seq<Unit>)
    ensures var totals := Totals(Coincidences(ratings)); SumOf(totals, ExpectedRow(totals)) == Between(ratings)
  {
    hide Totals, Coincidences, ExpectedRow;
    var totals, pool := Totals(Coincidences(ratings)), Pool(ratings);
    forall a: Entry<real> ensures ExpectedRow(totals)(a) == Term(PoolDistance(ratings))(a) {
      ExpectedRowFromPool(ratings, a);
    }
    SumCongruent(totals, ExpectedRow(totals), Term(PoolDistance(ratings)));
    TotalsFromPool(ratings, PoolDistance(ratings));
    CrossAsSum(pool, Id, pool, Id, PoolDistance(ratings));
  }

  lemma FromMap(ratings: seq<Unit>, coincidences: Dict<Coincidence>)
    requires coincidences == Coincidences(ratings)
    ensures coincidences == [] ==> Pool(ratings) == []
    ensures Weighted(coincidences, SquaredDistance) == Within(ratings)
  {
    WithinFromMap(ratings);
    if coincidences == [] {
      GrandFromPool(ratings);
    }
  }

  lemma FromTotals(ratings: seq<Unit>, totals: Dict<real>)
    requires totals == Totals(Coincidences(ratings))
    ensures SumOf(totals, Value) == |Pool(ratings)| as real
    ensures SumOf(totals, ExpectedRow(totals)) == Between(ratings)
  {
    GrandFromPool(ratings);
    BetweenFromTotals(ratings);
  }

  // ---------------------------------------------------------------------------------------
  // What the intermediate tables hold
  // ---------------------------------------------------------------------------------------

  lemma {:induction false} RowDistinct(d: Dict<Coincidence>, p: seq<real>, i: nat, j: nat)
    requires i < |p| && j <= |p| && |p| >= MINIMUM_PAIRS && Distinct(d)
    ensures Distinct(AddRow(d, p, i, j))
  {
    if j > 0 {
      RowDistinct(d, p, i, j - 1);
      AddDistinct(AddRow(d, p, i, j - 1), Coincidence(p[i], p[j - 1]), Share(|p|));
    }
  }

  lemma {:induction false} UnitDistinct(d: Dict<Coincidence>, p: seq<real>, i: nat)
    requires i <= |p| && |p| >= MINIMUM_PAIRS && Distinct(d)
    ensures Distinct(AddUnit(d, p, i))
  {
    if i > 0 {
      UnitDistinct(d, p, i - 1);
      RowDistinct(AddUnit(d, p, i - 1), p, i - 1, |p|);
    }
  }

  lemma {:induction false} CoincidencesDistinct(ratings: seq<Unit>)
    ensures Distinct(Coincidences(ratings))
  {
    if ratings != [] {
      CoincidencesDistinct(ratings[..|ratings| - 1]);
      var p := Present(ratings[|ratings| - 1]);
      if |p| >= MINIMUM_PAIRS {
        UnitDistinct(Coincidences(ratings[..|ratings| - 1]), p, |p|);
      }
    }
  }

  lemma {:induction false} TotalsDistinct(c: Dict<Coincidence>)
    ensures Distinct(Totals(c))
  {
    if c != [] {
      TotalsDistinct(c[..|c| - 1]);
      AddDistinct(Totals(c[..|c| - 1]), c[|c| - 1].key.left, c[|c| - 1].value);
    }
  }

  lemma {:induction false} CountAsSum(p: seq<real>, c: real)
    ensures SumOf(p, Is(c)) == multiset(p)[c] as real
  {
    if p != [] {
      CountAsSum(p[..|p| - 1], c);
      assert p == p[..|p| - 1] + [p[|p| - 1]];
    }
  }

  /** The ratings of a unit are its entries, those that are not there left out. */
  lemma {:induction false} PresentAre(unit: Unit, c: real)
    ensures multiset(Present(unit))[c] == multiset(unit)[Some(c)]
    ensures |Present(unit)| == |unit| - multiset(unit)[None]
  {
    if unit != [] {
      var n := |unit| - 1;
      PresentAre(unit[..n], c);
      assert unit == unit[..n] + [unit[n]];
    }
  }

  /** The ratings c that a unit puts beside another rating. */
  function RatingsOf(c: real): Unit -> real {
    (unit: Unit) => if |unit| - multiset(unit)[None] >= 2 then multiset(unit)[Some(c)] as real else 0.0
  }

  /** The pool holds every rating of every unit with at least two. */
  lemma {:induction false} PoolIs(ratings: seq<Unit>, c: real)
    ensures multiset(Pool(ratings))[c] as real == SumOf(ratings, RatingsOf(c))
  {
    hide Present;
    if ratings != [] {
      var n := |ratings| - 1;
      PoolIs(ratings[..n], c);
      PresentAre(ratings[n], c);
    }
  }

  /** The total of a value is the number of pairable ratings of that value, and the grand total is
      the number of pairable ratings. */
  lemma TotalsCountRatings(ratings: seq<Unit>, c: real)
    ensures var totals := Totals(Coincidences(ratings));
            Get(totals, c) == multiset(Pool(ratings))[c] as real && SumOf(totals, Value) == |Pool(ratings)| as real
  {
    hide SumOf, Totals, Coincidences, Pool;
    TotalsDistinct(Coincidences(ratings));
    GetWeighted(Totals(Coincidences(ratings)), c);
    TotalsFromPool(ratings, Is(c));
    CountAsSum(Pool(ratings), c);
    GrandFromPool(ratings);
  }

  /** A unit contributes no rating or at least two, so a grand total of exactly one never occurs and
      the exit on a grand total of at most one is dead once the map is known not to be empty. */
  lemma {:induction false} NeverExactlyOne(ratings: seq<Unit>)
    ensures |Pool(ratings)| != 1
  {
    if ratings != [] {
      NeverExactlyOne(ratings[..|ratings| - 1]);
    }
  }

  lemma SymmetricPairs(p: seq<real>, l: real, r: real)
    ensures Pairs(p, Is(Coincidence(l, r))) == Pairs(p, Is(Coincidence(r, l)))
  {
    var g, g' := Is(Coincidence(l, r)), Is(Coincidence(r, l));
    var f := (x: real, y: real) => g(Coincidence(x, y));
    forall x ensures RowOf(p, g)(x) == SumOf(p, Right(f, x)) {
      SumCongruent(p, From(g, x), Right(f, x));
    }
    forall y ensures RowOf(p, g')(y) == SumOf(p, Left(f, y)) {
      forall x ensures From(g', y)(x) == Left(f, y)(x) {
        assert Left(f, y)(x) == g(Coincidence(x, y)) == if x == l && y == r then 1.0 else 0.0;
      }
      SumCongruent(p, From(g', y), Left(f, y));
    }
    SumSwap(p, p, f, RowOf(p, g), RowOf(p, g'));
    forall x ensures Diagonal(g)(x) == Diagonal(g')(x) {
      assert g(Coincidence(x, x)) == (if x == l && x == r then 1.0 else 0.0);
      assert g'(Coincidence(x, x)) == (if x == l && x == r then 1.0 else 0.0);
    }
    SumCongruent(p, Diagonal(g), Diagonal(g'));
  }

  /** The coincidence map counts (l, r) exactly as often as (r, l). */
  lemma CoincidencesSymmetric(ratings: seq<Unit>, l: real, r: real)
    ensures Get(Coincidences(ratings), Coincidence(l, r)) == Get(Coincidences(ratings), Coincidence(r, l))
  {
    hide SumOf, Pairs, Share;
    var g, g' := Is(Coincidence(l, r)), Is(Coincidence(r, l));
    CoincidencesDistinct(ratings);
    GetWeighted(Coincidences(ratings), Coincidence(l, r));
    GetWeighted(Coincidences(ratings), Coincidence(r, l));
    CoincidencesWeighted(ratings, g);
    CoincidencesWeighted(ratings, g');
    forall unit ensures UnitPairs(g)(unit) == UnitPairs(g')(unit) {
      SymmetricPairs(Pairable(unit), l, r);
    }
    SumCongruent(ratings, UnitPairs(g), UnitPairs(g'));
  }

  // ---------------------------------------------------------------------------------------
  // What the coefficient means
  // ---------------------------------------------------------------------------------------

  predicate AllEqual(p: seq<real>) {
    forall x, y :: x in p && y in p ==> x == y
  }

  /** Every sample with at least two ratings got one and the same rating from all its jurors. */
  predicate Unanimous(ratings: seq<Unit>) {
    forall unit :: unit in ratings ==> AllEqual(Pairable(unit))
  }

  lemma SelfDistance(p: seq<real>)
    ensures 0.0 <= CrossSquares(p, Id, p, Id)
    ensures CrossSquares(p, Id, p, Id) == 0.0 <==> AllEqual(p)
  {
    CrossNonNegative(p, Id, p, Id);
    forall x, y ensures Id(x) == Id(y) <==> x == y {
    }
  }

  lemma WithinZero(ratings: seq<Unit>)
    ensures 0.0 <= Within(ratings)
    ensures Within(ratings) == 0.0 <==> Unanimous(ratings)
  {
    forall unit ensures 0.0 <= UnitDisagreement(unit) && (UnitDisagreement(unit) == 0.0 <==> AllEqual(Pairable(unit))) {
      var p := Pairable(unit);
      if p != [] {
        var share, squares := Share(|p|), CrossSquares(p, Id, p, Id);
        SelfDistance(p);
        assert share > 0.0;
        hide Share, CrossSquares, AllEqual;
        if squares > 0.0 {
          PositiveProduct(share, squares, UnitDisagreement(unit));
        }
      }
    }
    SumNonNegative(ratings, UnitDisagreement);
  }

  /** Undefined exactly when nothing pairs, or when all pairable ratings are one and the same. */
  lemma AlphaUndefined(ratings: seq<Unit>)
    ensures Alpha(ratings).None? <==> AllEqual(Pool(ratings))
  {
    NeverExactlyOne(ratings);
    SelfDistance(Pool(ratings));
    hide CrossSquares, Pool, Within;
  }

  /** At most 1, and 1 exactly on unanimous juries. */
  lemma AlphaBound(ratings: seq<Unit>)
    requires Alpha(ratings).Some?
    ensures Alpha(ratings).value <= 1.0
    ensures Alpha(ratings).value == 1.0 <==> Unanimous(ratings)
  {
    WithinZero(ratings);
    SelfDistance(Pool(ratings));
    hide CrossSquares, Pool, Within, Unanimous;
    DisagreementSign(|Pool(ratings)| as real, Within(ratings), Between(ratings));
  }

  lemma DisagreementSign(n: real, within: real, between: real)
    requires n > 1.0 && within >= 0.0 && between > 0.0
    ensures 0.0 <= Disagreement(n, within, between)
    ensures Disagreement(n, within, between) == 0.0 <==> within == 0.0
  {
    var q := Disagreement(n, within, between);
    assert q * between == (n - 1.0) * within;
    if within > 0.0 {
      PositiveProduct(n - 1.0, within, (n - 1.0) * within);
    }
  }

  // ---------------------------------------------------------------------------------------
  // Invariance: reordering jurors, rescaling grades
  // ---------------------------------------------------------------------------------------

  lemma {:induction false} SumSqPermutation(p: seq<real>, q: seq<real>)
    requires multiset(p) == multiset(q)
    ensures SumSq(p, Id) == SumSq(q, Id) && SumOf(p, Id) == SumOf(q, Id) && |p| == |q|
  {
    var square := (x: real) => Sq(Id(x));
    SumSqAsSum(p, square);
    SumSqAsSum(q, square);
    SumPermutation(p, q, square);
    SumPermutation(p, q, Id);
    assert |multiset(p)| == |multiset(q)|;
  }

  lemma {:induction false} SumSqAsSum(p: seq<real>, square: real -> real)
    requires forall x :: square(x) == Sq(Id(x))
    ensures SumSq(p, Id) == SumOf(p, square)
  {
    if p != [] {
      SumSqAsSum(p[..|p| - 1], square);
    }
  }

  lemma SelfDistancePermutation(p: seq<real>, q: seq<real>)
    requires multiset(p) == multiset(q)
    ensures CrossSquares(p, Id, p, Id) == CrossSquares(q, Id, q, Id)
  {
    SumSqPermutation(p, q);
    CrossMoments(p, Id, p, Id);
    CrossMoments(q, Id, q, Id);
    hide CrossSquares, SumSq, SumOf;
    SameMoments(|p| as real, SumSq(p, Id), SumOf(p, Id), |q| as real, SumSq(q, Id), SumOf(q, Id));
  }

  lemma SameMoments(n: real, q: real, s: real, n': real, q': real, s': real)
    requires n == n' && q == q' && s == s'
    ensures n * q - 2.0 * s * s + n * q == n' * q' - 2.0 * s' * s' + n' * q'
  {
  }

  lemma {:induction false} PresentPermutation(u: Unit, v: Unit)
    requires multiset(u) == multiset(v)
    ensures multiset(Present(u)) == multiset(Present(v))
  {
    forall x: real ensures multiset(Present(u))[x] == multiset(Present(v))[x] {
      PresentCount(u, x);
      PresentCount(v, x);
    }
  }

  lemma {:induction false} PresentCount(u: Unit, x: real)
    ensures multiset(Present(u))[x] == multiset(u)[Some(x)]
  {
    if u != [] {
      PresentCount(u[..|u| - 1], x);
      assert u == u[..|u| - 1] + [u[|u| - 1]];
    }
  }

  /** The same ratings with the jurors of each sample in another order. */
  predicate Reordered(ratings: seq<Unit>, ratings': seq<Unit>) {
    |ratings| == |ratings'| && forall u :: 0 <= u < |ratings| ==> multiset(ratings[u]) == multiset(ratings'[u])
  }

  lemma {:induction false} ReorderedParts(ratings: seq<Unit>, ratings': seq<Unit>)
    requires Reordered(ratings, ratings')
    ensures Within(ratings) == Within(ratings')
    ensures multiset(Pool(ratings)) == multiset(Pool(ratings'))
  {
    if ratings != [] {
      var n := |ratings| - 1;
      var u, v := ratings[n], ratings'[n];
      ReorderedParts(ratings[..n], ratings'[..n]);
      UnitReordered(u, v);
      hide CrossSquares, UnitDisagreement, Pairable;
      assert multiset(Pool(ratings)) == multiset(Pool(ratings[..n])) + multiset(Pairable(u));
      assert multiset(Pool(ratings')) == multiset(Pool(ratings'[..n])) + multiset(Pairable(v));
    }
  }

  lemma UnitReordered(u: Unit, v: Unit)
    requires multiset(u) == multiset(v)
    ensures multiset(Pairable(u)) == multiset(Pairable(v)) && UnitDisagreement(u) == UnitDisagreement(v)
  {
    PresentPermutation(u, v);
    assert |multiset(Present(u))| == |multiset(Present(v))|;
    SelfDistancePermutation(Pairable(u), Pairable(v));
  }

  /** Alpha does not depend on the order in which jurors are listed. */
  lemma AlphaJurorOrder(ratings: seq<Unit>, ratings': seq<Unit>)
    requires Reordered(ratings, ratings')
    ensures Alpha(ratings) == Alpha(ratings')
  {
    ReorderedParts(ratings, ratings');
    assert |multiset(Pool(ratings))| == |multiset(Pool(ratings'))|;
    SelfDistancePermutation(Pool(ratings), Pool(ratings'));
    hide Coefficient, CrossSquares, Pool, Within;
  }

  function Affine(a: real, b: real, x: real): real { a * x + b }

  function RescaleAll(a: real, b: real, p: seq<real>): (q: seq<real>)
    ensures |q| == |p| && forall i :: 0 <= i < |p| ==> q[i] == Affine(a, b, p[i])
  {
    seq(|p|, i requires 0 <= i < |p| => Affine(a, b, p[i]))
  }

  function RescaleUnit(a: real, b: real, unit: Unit): (unit': Unit)
    ensures |unit'| == |unit|
    ensures forall i :: 0 <= i < |unit| ==>
              unit'[i] == if unit[i].Some? then Some(Affine(a, b, unit[i].value)) else None
  {
    seq(|unit|, i requires 0 <= i < |unit| => if unit[i].Some? then Some(Affine(a, b, unit[i].value)) else None)
  }

  function Rescale(a: real, b: real, ratings: seq<Unit>): (ratings': seq<Unit>)
    ensures |ratings'| == |ratings| && forall u :: 0 <= u < |ratings| ==> ratings'[u] == RescaleUnit(a, b, ratings[u])
  {
    seq(|ratings|, u requires 0 <= u < |ratings| => RescaleUnit(a, b, ratings[u]))
  }

  lemma {:induction false} RescalePresent(a: real, b: real, unit: Unit)
    ensures Present(RescaleUnit(a, b, unit)) == RescaleAll(a, b, Present(unit))
  {
    hide Affine;
    if unit != [] {
      var n := |unit| - 1;
      RescalePresent(a, b, unit[..n]);
      assert RescaleUnit(a, b, unit)[..n] == RescaleUnit(a, b, unit[..n]);
    }
  }

  lemma {:induction false} RescaleSquares(a: real, b: real, x: real, p: seq<real>)
    ensures SquaresFrom(Affine(a, b, x), RescaleAll(a, b, p), Id) == Times(Sq(a), SquaresFrom(x, p, Id))
  {
    hide Times;
    if p == [] {
      TimesAdd(Sq(a), 0.0, 0.0);
    } else {
      var n := |p| - 1;
      RescaleSquares(a, b, x, p[..n]);
      assert RescaleAll(a, b, p)[..n] == RescaleAll(a, b, p[..n]);
      RescaleSquare(a, b, x, p[n]);
      hide Sq, Affine;
      TimesAdd(Sq(a), SquaresFrom(x, p[..n], Id), Sq(Id(x) - Id(p[n])));
    }
  }

  lemma RescaleSquare(a: real, b: real, x: real, y: real)
    ensures Sq(Affine(a, b, x) - Id(Affine(a, b, y))) == Times(Sq(a), Sq(Id(x) - Id(y)))
    ensures Sq(x - Id(y)) == Sq(Id(x) - Id(y))
  {
    assert Affine(a, b, x) - Affine(a, b, y) == a * (x - y);
  }

  lemma {:induction false} RescaleCross(a: real, b: real, p: seq<real>, q: seq<real>)
    ensures CrossSquares(RescaleAll(a, b, p), Id, RescaleAll(a, b, q), Id) == Times(Sq(a), CrossSquares(p, Id, q, Id))
  {
    hide Times, Sq, Affine;
    if p == [] {
      TimesAdd(Sq(a), 0.0, 0.0);
    } else {
      var n := |p| - 1;
      RescaleCross(a, b, p[..n], q);
      assert RescaleAll(a, b, p)[..n] == RescaleAll(a, b, p[..n]);
      RescaleSquares(a, b, p[n], q);
      TimesAdd(Sq(a), CrossSquares(p[..n], Id, q, Id), SquaresFrom(p[n], q, Id));
    }
  }

  lemma RescaleUnitDisagreement(a: real, b: real, unit: Unit)
    ensures Pairable(RescaleUnit(a, b, unit)) == RescaleAll(a, b, Pairable(unit))
    ensures UnitDisagreement(RescaleUnit(a, b, unit)) == Times(Sq(a), UnitDisagreement(unit))
  {
    var p := Pairable(unit);
    RescalePresent(a, b, unit);
    if p == [] {
      TimesAdd(Sq(a), 0.0, 0.0);
    } else {
      RescaleCross(a, b, p, p);
      hide CrossSquares, Share, Sq;
      Commute(Share(|p|), Sq(a), CrossSquares(p, Id, p, Id));
    }
  }

  lemma Commute(share: real, square: real, sum: real)
    ensures share * Times(square, sum) == Times(square, share * sum)
  {
  }

  lemma NothingRescaled(a: real, b: real)
    ensures Pool(Rescale(a, b, [])) == RescaleAll(a, b, Pool([]))
    ensures Within(Rescale(a, b, [])) == Times(Sq(a), Within([]))
  {
    TimesAdd(Sq(a), 0.0, 0.0);
    hide Sq, Times;
  }

  lemma RescaleStep(a: real, b: real, ratings: seq<Unit>)
    requires ratings != []
    ensures var n := |ratings| - 1;
            && |Rescale(a, b, ratings)| == n + 1
            && Rescale(a, b, ratings)[..n] == Rescale(a, b, ratings[..n])
            && Rescale(a, b, ratings)[n] == RescaleUnit(a, b, ratings[n])
  {
  }

  lemma PoolStep(ratings: seq<Unit>)
    requires ratings != []
    ensures var n := |ratings| - 1;
            && Pool(ratings) == Pool(ratings[..n]) + Pairable(ratings[n])
            && Within(ratings) == Within(ratings[..n]) + UnitDisagreement(ratings[n])
  {
    hide Pairable, UnitDisagreement;
  }

  lemma RescaleConcat(a: real, b: real, p: seq<real>, q: seq<real>)
    ensures RescaleAll(a, b, p + q) == RescaleAll(a, b, p) + RescaleAll(a, b, q)
  {
    hide Affine;
  }

  lemma {:induction false} RescaleParts(a: real, b: real, ratings: seq<Unit>)
    ensures Pool(Rescale(a, b, ratings)) == RescaleAll(a, b, Pool(ratings))
    ensures Within(Rescale(a, b, ratings)) == Times(Sq(a), Within(ratings))
  {
    hide Times, Sq, UnitDisagreement, Pairable, Affine, Pool, Within, Rescale, RescaleAll;
    if ratings == [] {
      NothingRescaled(a, b);
    } else {
      var n := |ratings| - 1;
      RescaleParts(a, b, ratings[..n]);
      RescaleStep(a, b, ratings);
      PoolStep(ratings);
      PoolStep(Rescale(a, b, ratings));
      RescaleUnitDisagreement(a, b, ratings[n]);
      RescaleConcat(a, b, Pool(ratings[..n]), Pairable(ratings[n]));
      TimesAdd(Sq(a), Within(ratings[..n]), UnitDisagreement(ratings[n]));
    }
  }

  /** Alpha does not depend on the unit or the zero of the grading scale. */
  lemma AlphaScale(a: real, b: real, ratings: seq<Unit>)
    requires a != 0.0
    ensures Alpha(Rescale(a, b, ratings)) == Alpha(ratings)
  {
    RescaleParts(a, b, ratings);
    RescaleCross(a, b, Pool(ratings), Pool(ratings));
    PositiveProduct(a, a, Sq(a));
    hide CrossSquares, Pool, Within, Sq;
    CoefficientScaled(|Pool(ratings)|, Sq(a), Within(ratings), Between(ratings));
  }

  lemma CoefficientScaled(n: nat, scale: real, within: real, between: real)
    requires scale > 0.0
    ensures Coefficient(n, Times(scale, within), Times(scale, between)) == Coefficient(n, within, between)
  {
    if between != 0.0 {
      NonZeroProduct(scale, between);
      assert Times(scale, between) == scale * between;
      DisagreementScaled(n as real, scale, within, between);
    }
  }

  lemma DisagreementScaled(n: real, scale: real, within: real, between: real)
    requires scale > 0.0 && between != 0.0 && Times(scale, between) != 0.0
    ensures Disagreement(n, Times(scale, within), Times(scale, between)) == Disagreement(n, within, between)
  {
    var q, q' := Disagreement(n, within, between), Disagreement(n, Times(scale, within), Times(scale, between));
    assert q * between == (n - 1.0) * within;
    assert q' * (scale * between) == (n - 1.0) * (scale * within);
    assert (q' * between) * scale == (q * between) * scale;
    Cancel(q' * between, q * between, scale);
    if q != q' {
      if between > 0.0 {
        Cancel(q, q', between);
      } else {
        Cancel(q, q', -between);
      }
    }
  }
}
