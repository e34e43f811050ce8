/** The figures of the validity factor and of the gate, in terms of what was measured: src/freeweight/domain/calibration.py
    and the weighted mean of src/freeweight/domain/agreement.py. */
module ValidityFigures {
  import opened Dictionaries
  import opened Results
  import opened Roots
  import opened Sums
  import opened Validity

  // ---------------------------------------------------------------------------------------
  // One criterion
  // ---------------------------------------------------------------------------------------

  /** What a coefficient establishes: itself where it is positive. */
  function Positive(kappa: Option<real>): real { if kappa.Some? && kappa.value > 0.0 then kappa.value else 0.0 }

  lemma RootBelowOne(root: real -> real, x: real)
    requires IsSquareRoot(root) && 0.0 <= x <= 1.0
    ensures 0.0 <= root(x) <= 1.0 && root(x) * root(x) == x
  {
    if root(x) > 1.0 {
      SquareOrder(root(x), 1.0);
    }
  }

  lemma ShareOf(n: int, target: int)
    requires 0 <= n <= target && target > 0
    ensures var x := n as real / target as real; 0.0 <= x <= 1.0 && x * target as real == n as real
  {
    var x := n as real / target as real;
    assert x * target as real == n as real;
    if x > 1.0 {
      PositiveProduct(x - 1.0, target as real, (x - 1.0) * target as real);
    } else if x < 0.0 {
      PositiveProduct(-x, target as real, -x * target as real);
    }
  }

  lemma SquaredTimes(k: real, r: real, x: real, t: real, n: real)
    requires r * r == x && x * t == n
    ensures (k * r) * (k * r) * t == n * (k * k)
  {
    assert (k * r) * (k * r) == (k * k) * x;
    assert ((k * k) * x) * t == (k * k) * (x * t);
  }

  /** Up to the target, the square of the validity grows in proportion to the holdout, to the square of what the
      coefficient establishes; it is never negative. */
  lemma ValiditySquared(kappa: Option<real>, n: int, target: int, root: real -> real)
    requires 0 <= n <= target && target > 0 && IsSquareRoot(root)
    ensures CriterionValidity(kappa, n, target, root).Ok?
    ensures var v := CriterionValidity(kappa, n, target, root).value;
            0.0 <= v && v * v * target as real == n as real * (Positive(kappa) * Positive(kappa))
  {
    var x := n as real / target as real;
    ShareOf(n, target);
    RootBelowOne(root, x);
    NonNegativeProduct(Positive(kappa), root(x));
    SquaredTimes(Positive(kappa), root(x), x, target as real, n as real);
    ShrinkageIs(n, target, root, root(x));
    Sizes(kappa, n, target, root, root(x));
  }

  lemma PlainTimes(x: real, y: real)
    ensures Times(x, y) == x * y && (x == 0.0 ==> x * y == 0.0)
  {
  }

  lemma ShrinkageIs(n: int, target: int, root: real -> real, r: real)
    requires target > 0 && r == root(n as real / target as real) <= 1.0
    ensures Shrinkage(n, target, root) == r
  {
  }

  lemma Sizes(kappa: Option<real>, n: int, target: int, root: real -> real, r: real)
    requires 0 <= n && target > 0 && Shrinkage(n, target, root) == r
    ensures CriterionValidity(kappa, n, target, root) == Ok(Positive(kappa) * r)
  {
    hide Shrinkage, Times;
    PlainTimes(Positive(kappa), r);
  }

  /** A negative holdout or a target that is not positive is refused. */
  lemma ValidityRefused(kappa: Option<real>, n: int, target: int, root: real -> real)
    ensures CriterionValidity(kappa, n, target, root).ValueError? <==> n < 0 || target <= 0
  {
  }

  // ---------------------------------------------------------------------------------------
  // The factor
  // ---------------------------------------------------------------------------------------

  predicate DistinctCounts(holdouts: seq<Holdout>) {
    forall i, j :: 0 <= i < j < |holdouts| ==> holdouts[i].key != holdouts[j].key
  }

  /** The count read for a criterion is the one listed for it, zero where none is. */
  lemma {:induction false} CountListed(holdouts: seq<Holdout>, key: string)
    requires DistinctCounts(holdouts)
    ensures forall j :: 0 <= j < |holdouts| && holdouts[j].key == key ==> CountOf(holdouts, key) == holdouts[j].count
    ensures (forall j :: 0 <= j < |holdouts| ==> holdouts[j].key != key) ==> CountOf(holdouts, key) == 0
  {
    if holdouts != [] {
      var n := |holdouts| - 1;
      CountListed(holdouts[..n], key);
      assert forall j :: 0 <= j < n ==> holdouts[..n][j] == holdouts[j];
    }
  }

  /** A criterion that is not judged counts with its whole weight, a judged one with its own validity's share. */
  lemma TermIs(judged: seq<Judged>, holdouts: seq<Holdout>, target: int, root: real -> real, e: Entry<string>)
    ensures (forall i :: 0 <= i < |judged| ==> judged[i].key != e.key) ==>
      ValidityTerm(judged, holdouts, target, root)(e) == e.value
    ensures DistinctKeys(judged) ==> forall i :: 0 <= i < |judged| && judged[i].key == e.key ==>
      var v := CriterionValidity(judged[i].kappa, CountOf(holdouts, e.key), target, root);
      v.Ok? ==> ValidityTerm(judged, holdouts, target, root)(e) == e.value * v.value
  {
    hide CriterionValidity, KappaOf, CountOf;
    if DistinctKeys(judged) {
      forall i | 0 <= i < |judged| && judged[i].key == e.key
        ensures IsJudged(judged, e.key) && KappaOf(judged, e.key) == judged[i].kappa
      {
        KappaAt(judged, i);
      }
    }
  }

  /** Some judged criterion has no weight. */
  predicate Unweighted(judged: seq<Judged>, weights: Dict<string>) {
    exists i :: 0 <= i < |judged| && forall j :: 0 <= j < |weights| ==> weights[j].key != judged[i].key
  }

  /** Some judged criterion is measured against no target, or on a negative holdout. */
  predicate Unmeasurable(weights: Dict<string>, judged: seq<Judged>, holdouts: seq<Holdout>, target: int) {
    exists j, i :: 0 <= j < |weights| && 0 <= i < |judged| && weights[j].key == judged[i].key
                   && (target <= 0 || CountOf(holdouts, weights[j].key) < 0)
  }

  /** Whether a rubric is refused, and otherwise the weighted mean of the terms, kept within [0.05, 1]. */
  lemma FactorMeans(weights: Dict<string>, judged: seq<Judged>, holdouts: seq<Holdout>, target: int, root: real -> real)
    ensures Factor(weights, judged, holdouts, target, root).ValueError? <==>
      weights == [] || Unweighted(judged, weights) || SumOf(weights, Weight) <= 0.0
      || Unmeasurable(weights, judged, holdouts, target)
    ensures Factor(weights, judged, holdouts, target, root).Ok? ==>
      var f, mean := Factor(weights, judged, holdouts, target, root).value, MeanValidity(weights, judged, holdouts, target, root);
      && mean * SumOf(weights, Weight) == SumOf(weights, ValidityTerm(judged, holdouts, target, root))
      && f == if mean < 0.05 then 0.05 else if mean > 1.0 then 1.0 else mean
  {
    RefusedWhen(weights, judged);
    CountsRefused(weights, judged, holdouts, target);
    hide ValidityTerm, AllWeighted, ValidCounts, SumOf, Unweighted, Unmeasurable;
    if SumOf(weights, Weight) > 0.0 {
      QuotientBack(SumOf(weights, ValidityTerm(judged, holdouts, target, root)), SumOf(weights, Weight));
    }
  }

  lemma QuotientBack(x: real, t: real)
    requires t > 0.0
    ensures x / t * t == x
  {
  }

  lemma RefusedWhen(weights: Dict<string>, judged: seq<Judged>)
    ensures !AllWeighted(judged, weights) <==> Unweighted(judged, weights)
  {
    if !AllWeighted(judged, weights) {
      var i :| 0 <= i < |judged| && !HasKey(weights, judged[i].key);
      assert forall j :: 0 <= j < |weights| ==> weights[j].key != judged[i].key;
    }
    if Unweighted(judged, weights) {
      var i :| 0 <= i < |judged| && forall j :: 0 <= j < |weights| ==> weights[j].key != judged[i].key;
      assert !HasKey(weights, judged[i].key);
    }
  }

  lemma CountsRefused(weights: Dict<string>, judged: seq<Judged>, holdouts: seq<Holdout>, target: int)
    ensures !ValidCounts(weights, judged, holdouts, target) <==> Unmeasurable(weights, judged, holdouts, target)
  {
    hide CountOf;
    if !ValidCounts(weights, judged, holdouts, target) {
      var j :| 0 <= j < |weights| && IsJudged(judged, weights[j].key)
               && !(target > 0 && CountOf(holdouts, weights[j].key) >= 0);
      var i :| 0 <= i < |judged| && judged[i].key == weights[j].key;
    }
  }

  /** A rubric of one judged criterion: its factor is its validity, not below 0.05, whose square is in proportion to the
      holdout. */
  lemma OneCriterionFactor(key: string, weight: real, kappa: Option<real>, n: int, target: int, root: real -> real)
    requires weight > 0.0 && 0 <= n <= target && target > 0 && IsSquareRoot(root) && Positive(kappa) <= 1.0
    ensures var f := Factor([Entry(key, weight)], [Judged(key, kappa)], [Holdout(key, n)], target, root);
            && f.Ok? && 0.05 <= f.value <= 1.0
            && (f.value > 0.05 ==> f.value * f.value * target as real == n as real * (Positive(kappa) * Positive(kappa)))
            && (f.value == 0.05 ==> n as real * (Positive(kappa) * Positive(kappa)) <= 0.05 * 0.05 * target as real)
  {
    var weights, judged, holdouts := [Entry(key, weight)], [Judged(key, kappa)], [Holdout(key, n)];
    var v := CriterionValidity(kappa, n, target, root).value;
    ValiditySquared(kappa, n, target, root);
    CriterionValidityMonotone(kappa, kappa, n, n, target, root);
    OneCriterion(key, weight, kappa, n, target, root, v);
    hide *;
    SquareBelow(v, 0.05, target as real, n as real * (Positive(kappa) * Positive(kappa)));
  }

  lemma OneCriterion(key: string, weight: real, kappa: Option<real>, n: int, target: int, root: real -> real, v: real)
    requires weight > 0.0 && 0 <= n && target > 0 && CriterionValidity(kappa, n, target, root) == Ok(v) && v <= 1.0
    ensures Factor([Entry(key, weight)], [Judged(key, kappa)], [Holdout(key, n)], target, root) == Ok(if v < 0.05 then 0.05 else v)
  {
    var weights, judged, holdouts := [Entry(key, weight)], [Judged(key, kappa)], [Holdout(key, n)];
    var term := ValidityTerm(judged, holdouts, target, root);
    SumOfSingle(weights, Weight);
    SumOfSingle(weights, term);
    OneCount(key, n);
    assert judged[0].key == weights[0].key;
    TermIs(judged, holdouts, target, root, weights[0]);
    FactorMeans(weights, judged, holdouts, target, root);
    hide Factor, CriterionValidity, ValidityTerm, SumOf, CountOf;
    SameFactor(MeanValidity(weights, judged, holdouts, target, root), weight, v);
  }

  lemma SameFactor(mean: real, weight: real, v: real)
    requires weight > 0.0
    ensures mean * weight == weight * v ==> mean == v
  {
    if mean * weight == weight * v {
      Cancel(mean, v, weight);
    }
  }

  lemma SquareBelow(v: real, bound: real, t: real, squared: real)
    requires 0.0 <= v && t > 0.0 && 0.0 <= bound && v * v * t == squared
    ensures v <= bound ==> squared <= bound * bound * t
  {
    if v <= bound {
      NonNegativeProduct(bound - v, bound + v);
      assert v * v <= bound * bound;
      NonNegativeProduct(bound * bound - v * v, t);
    }
  }

  lemma OneCount(key: string, n: int)
    ensures CountOf([Holdout(key, n)], key) == n
  {
  }

  lemma SumOfSingle<T>(xs: seq<T>, f: T -> real)
    requires |xs| == 1
    ensures SumOf(xs, f) == f(xs[0])
  {
    assert xs == [xs[0]] && xs[..0] == [];
  }

  /** Five of twenty held out, at a coefficient of 0.8: the factor is 0.4. */
  lemma QuarterHoldout(key: string, weight: real, root: real -> real)
    requires weight > 0.0 && IsSquareRoot(root)
    ensures Factor([Entry(key, weight)], [Judged(key, Some(0.8))], [Holdout(key, 5)], 20, root) == Ok(0.4)
  {
    OneCriterionFactor(key, weight, Some(0.8), 5, 20, root);
    var f := Factor([Entry(key, weight)], [Judged(key, Some(0.8))], [Holdout(key, 5)], 20, root).value;
    hide *;
    FourTenths(f);
  }

  lemma FourTenths(f: real)
    requires f >= 0.05 && (f > 0.05 ==> f * f * 20.0 == 5.0 * (0.8 * 0.8)) && (f == 0.05 ==> 5.0 * (0.8 * 0.8) <= 0.05 * 0.05 * 20.0)
    ensures f == 0.4
  {
    assert (f - 0.4) * (f + 0.4) == 0.0;
  }

  // ---------------------------------------------------------------------------------------
  // The gate
  // ---------------------------------------------------------------------------------------

  predicate Counts(j: Judged, weights: Dict<string>) { j.kappa.Some? && Get(weights, j.key) > 0.0 }

  function CountedWeight(weights: Dict<string>): Judged -> real {
    (j: Judged) => if Counts(j, weights) then Get(weights, j.key) else 0.0
  }

  function CountedTerm(weights: Dict<string>): Judged -> real {
    (j: Judged) => if Counts(j, weights) then Get(weights, j.key) * j.kappa.value else 0.0
  }

  lemma {:induction false} UsableSums(judged: seq<Judged>, weights: Dict<string>)
    ensures SumOf(Usable(judged, weights), UsableWeight(weights)) == SumOf(judged, CountedWeight(weights))
    ensures SumOf(Usable(judged, weights), UsableTerm(weights)) == SumOf(judged, CountedTerm(weights))
    ensures Usable(judged, weights) == [] <==> forall i :: 0 <= i < |judged| ==> !Counts(judged[i], weights)
  {
    UsableStep(judged, weights);
    hide SumOf, Get, Usable;
    if judged == [] {
      NothingUsable(weights);
    } else {
      var n := |judged| - 1;
      UsableSums(judged[..n], weights);
      CountedStep(judged, weights);
      assert forall i :: 0 <= i < n ==> judged[..n][i] == judged[i];
    }
  }

  lemma NothingUsable(weights: Dict<string>)
    ensures Usable([], weights) == [] && SumOf([], CountedWeight(weights)) == SumOf([], CountedTerm(weights)) == 0.0
  {
  }

  lemma CountedStep(judged: seq<Judged>, weights: Dict<string>)
    requires judged != []
    ensures var front, last := judged[..|judged| - 1], judged[|judged| - 1];
            && SumOf(judged, CountedWeight(weights)) == SumOf(front, CountedWeight(weights)) +
               (if Counts(last, weights) then WeightOf(weights, last.key) else 0.0)
            && SumOf(judged, CountedTerm(weights)) == SumOf(front, CountedTerm(weights)) +
               (if Counts(last, weights) then Times(WeightOf(weights, last.key), last.kappa.value) else 0.0)
            && Usable(judged, weights) == Usable(front, weights) + if Counts(last, weights) then [last] else []
  {
    hide Get;
  }

  /** The gated figure weighs every measured coefficient whose criterion has a positive weight by that weight, and there
      is none where there is no such coefficient. */
  lemma WeightedMeanIs(judged: seq<Judged>, weights: Dict<string>)
    ensures WeightedMean(judged, weights).None? <==> forall i :: 0 <= i < |judged| ==> !Counts(judged[i], weights)
    ensures WeightedMean(judged, weights).Some? ==>
      && SumOf(judged, CountedWeight(weights)) > 0.0
      && WeightedMean(judged, weights).value * SumOf(judged, CountedWeight(weights)) == SumOf(judged, CountedTerm(weights))
  {
    UsableSums(judged, weights);
    UsablePositive(judged, weights);
    hide Usable, SumOf, Counts;
    if WeightedMean(judged, weights).Some? {
      QuotientBack(SumOf(judged, CountedTerm(weights)), SumOf(judged, CountedWeight(weights)));
    }
  }

  lemma {:induction false} GreatestIs(holdouts: seq<Holdout>)
    requires holdouts != []
    ensures forall i :: 0 <= i < |holdouts| ==> holdouts[i].count <= GreatestCount(holdouts)
    ensures exists i :: 0 <= i < |holdouts| && holdouts[i].count == GreatestCount(holdouts)
  {
    if |holdouts| == 1 {
      assert holdouts[0].count == GreatestCount(holdouts);
    } else {
      var n := |holdouts| - 1;
      assert holdouts[n].count == GreatestCount(holdouts) || GreatestCount(holdouts) == GreatestCount(holdouts[..n]);
      GreatestIs(holdouts[..n]);
      var i :| 0 <= i < n && holdouts[..n][i].count == GreatestCount(holdouts[..n]);
      assert holdouts[i].count == GreatestCount(holdouts[..n]);
      assert forall k :: 0 <= k < n ==> holdouts[..n][k] == holdouts[k];
    }
  }

  /** Nothing judged needs no calibration; too few graded samples are told apart from too little agreement; and the gate
      opens exactly where the gated figure reaches the minimum. */
  lemma GateMeans(weights: Dict<string>, judged: seq<Judged>, holdouts: seq<Holdout>, gradedSamples: int, minSamples: int,
                  minAgreement: real, nAnchor: int, target: int, nJudged: int, root: real -> real)
    requires judged == [] || Factor(weights, judged, holdouts, target, root).Ok?
    ensures var r := VerdictFor(weights, judged, holdouts, gradedSamples, minSamples, minAgreement, nAnchor, target, nJudged, root);
            && r.Ok?
            && (r.value.state == NotRequired <==> judged == [])
            && (r.value.state == Insufficient <==> judged != [] && gradedSamples < minSamples)
            && (r.value.state == Calibrated <==>
                 && judged != [] && gradedSamples >= minSamples
                 && WeightedMean(judged, weights).Some? && WeightedMean(judged, weights).value >= minAgreement)
            && (r.value.Passed() <==> r.value.state == NotRequired || r.value.state == Calibrated)
            && (judged == [] ==> r.value.factor == 1.0 && r.value.nHoldout == r.value.nAnchor == r.value.nJudged == 0)
            && (judged != [] ==>
                 && Ok(r.value.factor) == Factor(weights, judged, holdouts, target, root)
                 && r.value.nHoldout == GreatestCount(holdouts) && r.value.nAnchor == nAnchor && r.value.nJudged == nJudged)
            && (r.value.weightedKappa.Some? ==> r.value.weightedKappa == WeightedMean(judged, weights))
            && (r.value.weightedKappa.None? <==>
                 judged == [] || gradedSamples < minSamples || WeightedMean(judged, weights).None?)
            && r.value.minAgreement == minAgreement && r.value.gradedSamples == gradedSamples && r.value.minSamples == minSamples
  {
    hide Factor, WeightedMean, GreatestCount;
  }
}
