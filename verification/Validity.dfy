/** The judge-validity factor and the calibration gate of src/freeweight/domain/calibration.py, over
    the weighted mean of src/freeweight/domain/agreement.py. Mappings are lists of items with
    distinct keys, in insertion order. */
module Validity {
  import opened Dictionaries
  import opened Results
  import opened Roots
  import opened Sums

  datatype Judged = Judged(key: string, kappa: Option<real>)

  datatype Holdout = Holdout(key: string, count: int)

  const FLOOR := 0.05

  predicate IsJudged(judged: seq<Judged>, key: string) {
    exists i :: 0 <= i < |judged| && judged[i].key == key
  }

  predicate DistinctKeys(judged: seq<Judged>) {
    forall i, j :: 0 <= i < j < |judged| ==> judged[i].key != judged[j].key
  }

  function KappaOf(judged: seq<Judged>, key: string): Option<real> {
    if judged == [] then None
    else if judged[|judged| - 1].key == key then judged[|judged| - 1].kappa
    else KappaOf(judged[..|judged| - 1], key)
  }

  /** n_holdout.get(key, 0) */
  function CountOf(holdouts: seq<Holdout>, key: string): int {
    if holdouts == [] then 0
    else if holdouts[|holdouts| - 1].key == key then holdouts[|holdouts| - 1].count
    else CountOf(holdouts[..|holdouts| - 1], key)
  }

  function Max(x: real, y: real): real { if x >= y then x else y }

  function Min(x: real, y: real): real { if x <= y then x else y }

  // ---------------------------------------------------------------------------------------
  // One criterion
  // ---------------------------------------------------------------------------------------

  function Shrinkage(n: int, target: int, root: real -> real): real
    requires target > 0
  {
    Min(1.0, root(n as real / target as real))
  }

  function CriterionValidity(kappa: Option<real>, n: int, target: int, root: real -> real): Result<real> {
    if n < 0 || target <= 0 then ValueError
    else if kappa.None? then Ok(0.0)
    else Ok(Times(Max(0.0, kappa.value), Shrinkage(n, target, root)))
  }

  /** What an option is worth at least: an unmeasured or negative coefficient establishes nothing. */
  function Established(kappa: Option<real>): real {
    if kappa.None? then 0.0 else Max(0.0, kappa.value)
  }

  lemma ShrinkageRange(n: int, target: int, root: real -> real)
    requires n >= 0 && target > 0 && IsSquareRoot(root)
    ensures 0.0 <= Shrinkage(n, target, root) <= 1.0
    ensures n >= target ==> Shrinkage(n, target, root) == 1.0
  {
    var x := n as real / target as real;
    QuotientOrder(n as real, target as real);
    assert 0.0 <= root(x);
    if n >= target && root(x) < 1.0 {
      SquareOrder(1.0, root(x));
    }
  }

  lemma QuotientOrder(n: real, t: real)
    requires n >= 0.0 && t > 0.0
    ensures 0.0 <= n / t && (n >= t ==> 1.0 <= n / t)
  {
    var x := n / t;
    assert x * t == n;
    if x < 0.0 {
      PositiveProduct(-x, t, -x * t);
    }
    if n >= t && x < 1.0 {
      PositiveProduct(1.0 - x, t, (1.0 - x) * t);
    }
  }

  lemma ShrinkageMonotone(n: int, m: int, target: int, root: real -> real)
    requires 0 <= n <= m && target > 0 && IsSquareRoot(root)
    ensures Shrinkage(n, target, root) <= Shrinkage(m, target, root)
  {
    var x, y := n as real / target as real, m as real / target as real;
    assert x * target as real == n as real && y * target as real == m as real;
    QuotientOrder(n as real, target as real);
    if x > y {
      PositiveProduct(x - y, target as real, (x - y) * target as real);
    }
    RootMonotone(root, x, y);
  }

  /** For a coefficient of at most 1, validity lies in [0, 1]; it never falls as the coefficient or
      the holdout grows, and a full holdout takes the coefficient as it is. */
  lemma CriterionValidityMonotone(k: Option<real>, k': Option<real>, n: int, n': int, target: int, root: real -> real)
    requires 0 <= n <= n' && target > 0 && IsSquareRoot(root)
    requires Established(k) <= Established(k') <= 1.0
    ensures var v, v' := CriterionValidity(k, n, target, root), CriterionValidity(k', n', target, root);
            v.Ok? && v'.Ok? && 0.0 <= v.value <= v'.value <= 1.0
    ensures n' >= target ==> CriterionValidity(k', n', target, root).value == Established(k')
  {
    ShrinkageRange(n, target, root);
    ShrinkageRange(n', target, root);
    ShrinkageMonotone(n, n', target, root);
    ProductOrder(Established(k), Established(k'), Shrinkage(n, target, root), Shrinkage(n', target, root));
    hide Shrinkage;
  }

  lemma ProductOrder(x: real, x': real, y: real, y': real)
    requires 0.0 <= x <= x' <= 1.0 && 0.0 <= y <= y' <= 1.0
    ensures 0.0 <= Times(x, y) <= Times(x', y') <= 1.0
    ensures Times(0.0, y) == 0.0 && (y' == 1.0 ==> Times(x', y') == x')
  {
    NonNegativeProduct(x, y);
    NonNegativeProduct(x' - x, y);
    NonNegativeProduct(x', y' - y);
    NonNegativeProduct(1.0 - x', y');
  }

  // ---------------------------------------------------------------------------------------
  // The goal-level factor
  // ---------------------------------------------------------------------------------------

  function Weight(e: Entry<string>): real { e.value }

  predicate HasKey(weights: Dict<string>, key: string) {
    exists j :: 0 <= j < |weights| && weights[j].key == key
  }

  predicate AllWeighted(judged: seq<Judged>, weights: Dict<string>) {
    forall i :: 0 <= i < |judged| ==> HasKey(weights, judged[i].key)
  }

  function KeyValidity(key: string, judged: seq<Judged>, holdouts: seq<Holdout>, target: int, root: real -> real): Result<real> {
    if IsJudged(judged, key) then CriterionValidity(KappaOf(judged, key), CountOf(holdouts, key), target, root)
    else Ok(1.0)
  }

  predicate ValidCounts(weights: Dict<string>, judged: seq<Judged>, holdouts: seq<Holdout>, target: int) {
    forall i :: 0 <= i < |weights| && IsJudged(judged, weights[i].key) ==>
      target > 0 && CountOf(holdouts, weights[i].key) >= 0
  }

  function ValidityTerm(judged: seq<Judged>, holdouts: seq<Holdout>, target: int, root: real -> real): Entry<string> -> real {
    (e: Entry<string>) =>
      var v := KeyValidity(e.key, judged, holdouts, target, root);
      if v.Ok? then Times(e.value, v.value) else 0.0
  }

  function Clamp(x: real): real { Min(1.0, Max(FLOOR, x)) }

  /** The weighted mean of the criteria's validities, clamped to [0.05, 1]. */
  function Factor(weights: Dict<string>, judged: seq<Judged>, holdouts: seq<Holdout>, target: int, root: real -> real): Result<real> {
    if weights == [] || !AllWeighted(judged, weights) || SumOf(weights, Weight) <= 0.0
       || !ValidCounts(weights, judged, holdouts, target) then ValueError
    else Ok(Clamp(SumOf(weights, ValidityTerm(judged, holdouts, target, root)) / SumOf(weights, Weight)))
  }

  method JudgeValidityFactor(weights: Dict<string>, judged: seq<Judged>, holdouts: seq<Holdout>, target: int, root: real -> real)
    returns (r: Result<real>)
    ensures r == Factor(weights, judged, holdouts, target, root)
  {
    hide Clamp, CountOf, KappaOf;
    if weights == [] || !AllWeighted(judged, weights) {
      return ValueError;
    }
    var total := SumOf(weights, Weight);
    if total <= 0.0 {
      return ValueError;
    }
    var accumulated := 0.0;
    for i := 0 to |weights|
      invariant accumulated == SumOf(weights[..i], ValidityTerm(judged, holdouts, target, root))
      invariant ValidCounts(weights[..i], judged, holdouts, target)
    {
      assert weights[..i + 1] == weights[..i] + [weights[i]];
      SumSnoc(weights[..i], weights[i], ValidityTerm(judged, holdouts, target, root));
      var validity := KeyValidity(weights[i].key, judged, holdouts, target, root);
      if validity.ValueError? {
        assert !ValidCounts(weights, judged, holdouts, target);
        return ValueError;
      }
      accumulated := accumulated + Times(weights[i].value, validity.value);
    }
    assert weights[..|weights|] == weights;
    return Ok(Clamp(accumulated / total));
  }

  // ---------------------------------------------------------------------------------------
  // What the factor promises
  // ---------------------------------------------------------------------------------------

  predicate NonNegative(weights: Dict<string>) {
    forall i :: 0 <= i < |weights| ==> 0.0 <= weights[i].value
  }

  /** A rubric with no judged criterion has factor 1. */
  lemma NothingJudged(weights: Dict<string>, holdouts: seq<Holdout>, target: int, root: real -> real)
    requires SumOf(weights, Weight) > 0.0
    ensures Factor(weights, [], holdouts, target, root) == Ok(1.0)
  {
    forall e: Entry<string> ensures ValidityTerm([], holdouts, target, root)(e) == Weight(e) {
    }
    SumCongruent(weights, ValidityTerm([], holdouts, target, root), Weight);
    hide ValidityTerm;
    SelfQuotient(SumOf(weights, Weight));
  }

  lemma SelfQuotient(x: real)
    requires x > 0.0
    ensures Clamp(x / x) == 1.0
  {
    assert x / x == 1.0;
  }

  /** Every criterion judged in the second state was judged in the first, on a coefficient worth no
      more and on no more held-out samples. */
  ghost predicate NoWorse(judged: seq<Judged>, holdouts: seq<Holdout>, judged': seq<Judged>, holdouts': seq<Holdout>) {
    forall key :: IsJudged(judged', key) ==>
      && IsJudged(judged, key)
      && Established(KappaOf(judged, key)) <= Established(KappaOf(judged', key)) <= 1.0
      && CountOf(holdouts, key) <= CountOf(holdouts', key)
  }

  ghost predicate KappasAtMostOne(judged: seq<Judged>) {
    forall key :: IsJudged(judged, key) ==> Established(KappaOf(judged, key)) <= 1.0
  }

  lemma TermMonotone(judged: seq<Judged>, holdouts: seq<Holdout>, judged': seq<Judged>, holdouts': seq<Holdout>,
                     target: int, root: real -> real, e: Entry<string>)
    requires IsSquareRoot(root) && 0.0 <= e.value
    requires NoWorse(judged, holdouts, judged', holdouts') && KappasAtMostOne(judged)
    requires IsJudged(judged, e.key) ==> target > 0 && CountOf(holdouts, e.key) >= 0
    ensures IsJudged(judged', e.key) ==> CountOf(holdouts', e.key) >= 0
    ensures ValidityTerm(judged, holdouts, target, root)(e) <= ValidityTerm(judged', holdouts', target, root)(e)
  {
    if IsJudged(judged, e.key) {
      var k, n := KappaOf(judged, e.key), CountOf(holdouts, e.key);
      CriterionValidityMonotone(k, k, n, n, target, root);
      if IsJudged(judged', e.key) {
        CriterionValidityMonotone(k, KappaOf(judged', e.key), n, CountOf(holdouts', e.key), target, root);
      }
    }
    hide CriterionValidity, KappaOf, CountOf, IsJudged;
    var v, v' := KeyValidity(e.key, judged, holdouts, target, root), KeyValidity(e.key, judged', holdouts', target, root);
    assert v.Ok? && v'.Ok? && v.value <= v'.value;
    WeightedOrder(e.value, v.value, v'.value);
  }

  lemma WeightedOrder(w: real, x: real, y: real)
    requires 0.0 <= w && x <= y
    ensures Times(w, x) <= Times(w, y)
  {
    NonNegativeProduct(w, y - x);
  }

  lemma ClampedOrder(x: real, y: real, total: real)
    requires x <= y && total > 0.0
    ensures Clamp(x / total) <= Clamp(y / total)
  {
    var p, q := x / total, y / total;
    assert p * total == x && q * total == y;
    if p > q {
      PositiveProduct(p - q, total, (p - q) * total);
    }
  }

  /** The factor never falls when a criterion is mechanised, when a coefficient rises or when a
      holdout grows. Coefficients are at most 1, as they are for kappa. */
  lemma FactorMonotone(weights: Dict<string>, judged: seq<Judged>, holdouts: seq<Holdout>,
                       judged': seq<Judged>, holdouts': seq<Holdout>, target: int, root: real -> real)
    requires IsSquareRoot(root) && NonNegative(weights)
    requires NoWorse(judged, holdouts, judged', holdouts') && KappasAtMostOne(judged)
    requires Factor(weights, judged, holdouts, target, root).Ok?
    ensures var r, r' := Factor(weights, judged, holdouts, target, root), Factor(weights, judged', holdouts', target, root);
            r'.Ok? && FLOOR <= r.value <= r'.value <= 1.0
  {
    var f, f' := ValidityTerm(judged, holdouts, target, root), ValidityTerm(judged', holdouts', target, root);
    forall i | 0 <= i < |weights| ensures f(weights[i]) <= f'(weights[i]) &&
      (IsJudged(judged', weights[i].key) ==> target > 0 && CountOf(holdouts', weights[i].key) >= 0)
    {
      TermMonotone(judged, holdouts, judged', holdouts', target, root, weights[i]);
    }
    StillWeighted(judged, judged', weights);
    SumMonotone(weights, f, f');
    hide ValidityTerm, CountOf, IsJudged, AllWeighted, SumOf;
    ClampedOrder(SumOf(weights, f), SumOf(weights, f'), SumOf(weights, Weight));
  }

  lemma StillWeighted(judged: seq<Judged>, judged': seq<Judged>, weights: Dict<string>)
    requires AllWeighted(judged, weights) && forall key :: IsJudged(judged', key) ==> IsJudged(judged, key)
    ensures AllWeighted(judged', weights)
  {
    forall i | 0 <= i < |judged'| ensures HasKey(weights, judged'[i].key) {
      assert IsJudged(judged', judged'[i].key);
      var k :| 0 <= k < |judged| && judged[k].key == judged'[i].key;
      assert HasKey(weights, judged[k].key);
    }
  }

  /** The criteria still judged once one of them no longer is. */
  function Without(judged: seq<Judged>, i: nat): seq<Judged>
    requires i < |judged|
  {
    judged[..i] + judged[i + 1..]
  }

  /** Where a remaining criterion stood. */
  function Before(i: nat, j: nat): nat { if j < i then j else j + 1 }

  lemma WithoutAt(judged: seq<Judged>, i: nat, j: nat)
    requires i < |judged| && j < |judged| - 1
    ensures |Without(judged, i)| == |judged| - 1 && Without(judged, i)[j] == judged[Before(i, j)]
  {
  }

  lemma StaysJudged(judged: seq<Judged>, i: nat, k: nat)
    requires i < |judged| && k < |judged| && k != i
    ensures IsJudged(Without(judged, i), judged[k].key)
  {
    hide Without;
    WithoutAt(judged, i, if k < i then k else k - 1);
  }

  lemma KeepsKappa(judged: seq<Judged>, i: nat, j: nat)
    requires DistinctKeys(judged) && i < |judged|
    requires DistinctKeys(Without(judged, i)) && j < |judged| - 1 == |Without(judged, i)|
    ensures var key := Without(judged, i)[j].key;
            key != judged[i].key && IsJudged(judged, key) && KappaOf(judged, key) == KappaOf(Without(judged, i), key)
  {
    hide Without, KappaOf;
    WithoutAt(judged, i, j);
    KappaAt(judged, Before(i, j));
    KappaAt(Without(judged, i), j);
  }

  lemma WithoutDistinct(judged: seq<Judged>, i: nat)
    requires DistinctKeys(judged) && i < |judged|
    ensures DistinctKeys(Without(judged, i)) && !IsJudged(Without(judged, i), judged[i].key)
  {
  }

  /** Moving one criterion to a deterministic rung is such a change. */
  lemma MechanisingIsNoWorse(judged: seq<Judged>, holdouts: seq<Holdout>, i: nat)
    requires DistinctKeys(judged) && i < |judged| && KappasAtMostOne(judged)
    ensures NoWorse(judged, holdouts, Without(judged, i), holdouts)
    ensures !IsJudged(Without(judged, i), judged[i].key)
  {
    WithoutDistinct(judged, i);
    var rest := Without(judged, i);
    hide KappaOf, CountOf, Established, Without;
    forall key | IsJudged(rest, key)
      ensures IsJudged(judged, key) && KappaOf(judged, key) == KappaOf(rest, key)
    {
      var j :| 0 <= j < |rest| && rest[j].key == key;
      WithoutAt(judged, i, j);
      KeepsKappa(judged, i, j);
    }
  }

  // how much mechanising raises it

  /** What a criterion that leaves judged adds to the weighted sum. */
  function Gain(key: string, validity: real): Entry<string> -> real {
    (e: Entry<string>) => if e.key == key then Times(e.value, 1.0 - validity) else 0.0
  }

  lemma {:induction false} GainSum(weights: Dict<string>, key: string, validity: real)
    requires Distinct(weights)
    ensures SumOf(weights, Gain(key, validity)) == Times(Get(weights, key), 1.0 - validity)
  {
    if weights == [] {
      ZeroTimes(1.0 - validity);
    } else {
      var n := |weights| - 1;
      GainSum(weights[..n], key, validity);
      if weights[n].key == key {
        NoOther(weights, key);
        ZeroTimes(1.0 - validity);
      }
      hide Times;
    }
  }

  lemma ZeroTimes(x: real)
    ensures Times(0.0, x) == 0.0
  {
  }

  lemma {:induction false} NoOther(weights: Dict<string>, key: string)
    requires Distinct(weights) && weights != [] && weights[|weights| - 1].key == key
    ensures Get(weights[..|weights| - 1], key) == 0.0
  {
    AbsentIsZero(weights[..|weights| - 1], key);
  }

  lemma {:induction false} AbsentIsZero(weights: Dict<string>, key: string)
    requires forall i :: 0 <= i < |weights| ==> weights[i].key != key
    ensures Get(weights, key) == 0.0
  {
    if weights != [] {
      AbsentIsZero(weights[..|weights| - 1], key);
    }
  }

  /** A judged criterion's own validity. */
  function OwnValidity(j: Judged, holdouts: seq<Holdout>, target: int, root: real -> real): Result<real> {
    CriterionValidity(j.kappa, CountOf(holdouts, j.key), target, root)
  }

  lemma TermGains(judged: seq<Judged>, holdouts: seq<Holdout>, i: nat, target: int, root: real -> real, e: Entry<string>)
    requires DistinctKeys(judged) && i < |judged| && KappasAtMostOne(judged)
    requires OwnValidity(judged[i], holdouts, target, root).Ok?
    ensures var validity := OwnValidity(judged[i], holdouts, target, root).value;
            ValidityTerm(Without(judged, i), holdouts, target, root)(e) ==
            ValidityTerm(judged, holdouts, target, root)(e) + Gain(judged[i].key, validity)(e)
  {
    MechanisingIsNoWorse(judged, holdouts, i);
    KappaAt(judged, i);
    SameKappas(judged, i, e.key);
    hide CriterionValidity, KappaOf, CountOf, IsJudged, Without, NoWorse;
    if e.key == judged[i].key {
      JudgedHere(judged, i);
      TimesSplit(e.value, OwnValidity(judged[i], holdouts, target, root).value);
    }
  }

  lemma JudgedHere(judged: seq<Judged>, i: nat)
    requires i < |judged|
    ensures IsJudged(judged, judged[i].key)
  {
  }

  lemma TimesSplit(w: real, v: real)
    ensures Times(w, 1.0) == Times(w, v) + Times(w, 1.0 - v)
  {
  }

  /** Every other criterion stays as it was. */
  lemma SameKappas(judged: seq<Judged>, i: nat, key: string)
    requires DistinctKeys(judged) && i < |judged|
    ensures key != judged[i].key ==> (IsJudged(Without(judged, i), key) <==> IsJudged(judged, key))
    ensures IsJudged(Without(judged, i), key) ==> KappaOf(judged, key) == KappaOf(Without(judged, i), key)
  {
    hide KappaOf;
    var rest := Without(judged, i);
    if IsJudged(rest, key) {
      var j :| 0 <= j < |rest| && rest[j].key == key;
      KeepsKappa(judged, i, j);
    }
    if IsJudged(judged, key) && key != judged[i].key {
      var k :| 0 <= k < |judged| && judged[k].key == key;
      StaysJudged(judged, i, k);
    }
  }

  /** The weighted mean of the validities, before it is clamped. */
  function MeanValidity(weights: Dict<string>, judged: seq<Judged>, holdouts: seq<Holdout>, target: int, root: real -> real): real
    requires SumOf(weights, Weight) > 0.0
  {
    SumOf(weights, ValidityTerm(judged, holdouts, target, root)) / SumOf(weights, Weight)
  }

  lemma ValidCountHere(weights: Dict<string>, judged: seq<Judged>, holdouts: seq<Holdout>, target: int, i: nat)
    requires i < |judged| && AllWeighted(judged, weights) && ValidCounts(weights, judged, holdouts, target)
    ensures target > 0 && CountOf(holdouts, judged[i].key) >= 0
  {
    JudgedHere(judged, i);
    assert HasKey(weights, judged[i].key);
    var k :| 0 <= k < |weights| && weights[k].key == judged[i].key;
    hide CountOf;
  }

  lemma GainOfWhole(weights: Dict<string>, judged: seq<Judged>, holdouts: seq<Holdout>, i: nat, target: int, root: real -> real)
    requires Distinct(weights) && DistinctKeys(judged) && i < |judged| && KappasAtMostOne(judged)
    requires OwnValidity(judged[i], holdouts, target, root).Ok?
    ensures var validity := OwnValidity(judged[i], holdouts, target, root).value;
            SumOf(weights, ValidityTerm(Without(judged, i), holdouts, target, root)) ==
            SumOf(weights, ValidityTerm(judged, holdouts, target, root)) + Times(Get(weights, judged[i].key), 1.0 - validity)
  {
    hide *;
    var validity := OwnValidity(judged[i], holdouts, target, root).value;
    var before, after := ValidityTerm(judged, holdouts, target, root), ValidityTerm(Without(judged, i), holdouts, target, root);
    forall e: Entry<string> ensures after(e) == before(e) + Gain(judged[i].key, validity)(e) {
      TermGains(judged, holdouts, i, target, root, e);
    }
    SumAdd(weights, before, Gain(judged[i].key, validity), after);
    GainSum(weights, judged[i].key, validity);
  }

  lemma TermAtMostWeight(judged: seq<Judged>, holdouts: seq<Holdout>, target: int, root: real -> real, e: Entry<string>)
    requires IsSquareRoot(root) && 0.0 <= e.value && KappasAtMostOne(judged)
    requires IsJudged(judged, e.key) ==> target > 0 && CountOf(holdouts, e.key) >= 0
    ensures ValidityTerm(judged, holdouts, target, root)(e) <= Weight(e)
  {
    if IsJudged(judged, e.key) {
      CriterionValidityMonotone(KappaOf(judged, e.key), KappaOf(judged, e.key), CountOf(holdouts, e.key),
          CountOf(holdouts, e.key), target, root);
    }
    hide CriterionValidity, KappaOf, CountOf, IsJudged;
    WeightedOrder(e.value, KeyValidity(e.key, judged, holdouts, target, root).value, 1.0);
  }

  lemma MeanAtMostOne(weights: Dict<string>, judged: seq<Judged>, holdouts: seq<Holdout>, target: int, root: real -> real)
    requires IsSquareRoot(root) && NonNegative(weights) && KappasAtMostOne(judged) && SumOf(weights, Weight) > 0.0
    requires ValidCounts(weights, judged, holdouts, target)
    ensures MeanValidity(weights, judged, holdouts, target, root) <= 1.0
  {
    var f := ValidityTerm(judged, holdouts, target, root);
    forall i | 0 <= i < |weights| ensures f(weights[i]) <= Weight(weights[i]) {
      TermAtMostWeight(judged, holdouts, target, root, weights[i]);
    }
    hide ValidityTerm;
    SumMonotone(weights, f, Weight);
    QuotientWithinOne(SumOf(weights, f), SumOf(weights, Weight));
  }

  lemma QuotientWithinOne(x: real, t: real)
    requires t > 0.0 && x <= t
    ensures x / t <= 1.0
  {
    var q := x / t;
    assert q * t == x;
    if q > 1.0 {
      PositiveProduct(q - 1.0, t, (q - 1.0) * t);
    }
  }

  lemma GainInQuotient(x: real, y: real, t: real, w: real, v: real)
    requires t > 0.0 && w >= 0.0 && v <= 1.0 && y == x + Times(w, 1.0 - v)
    ensures x / t <= y / t
    ensures x / t < y / t <==> w > 0.0 && v < 1.0
  {
    var p, q, d := x / t, y / t, Times(w, 1.0 - v);
    assert p * t == x && q * t == y;
    NonNegativeProduct(w, 1.0 - v);
    if w > 0.0 && v < 1.0 {
      PositiveProduct(w, 1.0 - v, d);
    }
    if p > q {
      PositiveProduct(p - q, t, (p - q) * t);
    }
    if p < q {
      PositiveProduct(q - p, t, (q - p) * t);
    }
  }

  lemma {:induction false} NonNegativeWeight(weights: Dict<string>, key: string)
    requires NonNegative(weights)
    ensures Get(weights, key) >= 0.0
  {
    if weights != [] {
      NonNegativeWeight(weights[..|weights| - 1], key);
    }
  }

  lemma OwnValidityRange(judged: seq<Judged>, holdouts: seq<Holdout>, i: nat, target: int, root: real -> real)
    requires IsSquareRoot(root) && DistinctKeys(judged) && i < |judged| && KappasAtMostOne(judged)
    requires target > 0 && CountOf(holdouts, judged[i].key) >= 0
    ensures OwnValidity(judged[i], holdouts, target, root).Ok?
    ensures 0.0 <= OwnValidity(judged[i], holdouts, target, root).value <= 1.0
  {
    KappaAt(judged, i);
    JudgedHere(judged, i);
    var n := CountOf(holdouts, judged[i].key);
    CriterionValidityMonotone(judged[i].kappa, judged[i].kappa, n, n, target, root);
    hide CriterionValidity, KappaOf, CountOf;
  }

  lemma ClampRises(p: real, q: real)
    requires p <= q <= 1.0
    ensures Clamp(q) > Clamp(p) <==> q > p && q > FLOOR
  {
  }

  lemma FactorIsMean(weights: Dict<string>, judged: seq<Judged>, holdouts: seq<Holdout>, target: int, root: real -> real)
    requires Factor(weights, judged, holdouts, target, root).Ok?
    ensures SumOf(weights, Weight) > 0.0 && AllWeighted(judged, weights) && ValidCounts(weights, judged, holdouts, target)
    ensures Factor(weights, judged, holdouts, target, root) == Ok(Clamp(MeanValidity(weights, judged, holdouts, target, root)))
  {
    hide SumOf, ValidityTerm, AllWeighted, ValidCounts, Clamp;
  }

  /** Moving one criterion to a deterministic rung raises the factor if and only if the criterion weighs something, its
      validity was below 1, and the mean that results lies above the floor. */
  lemma MechanisingRaises(weights: Dict<string>, judged: seq<Judged>, holdouts: seq<Holdout>, i: nat, target: int, root: real -> real)
    requires IsSquareRoot(root) && NonNegative(weights) && Distinct(weights)
    requires DistinctKeys(judged) && i < |judged| && KappasAtMostOne(judged)
    requires Factor(weights, judged, holdouts, target, root).Ok?
    ensures SumOf(weights, Weight) > 0.0 && OwnValidity(judged[i], holdouts, target, root).Ok?
    ensures Factor(weights, Without(judged, i), holdouts, target, root).Ok?
    ensures Factor(weights, Without(judged, i), holdouts, target, root).value > Factor(weights, judged, holdouts,
        target, root).value <==>
            && Get(weights, judged[i].key) > 0.0
            && OwnValidity(judged[i], holdouts, target, root).value < 1.0
            && MeanValidity(weights, Without(judged, i), holdouts, target, root) > FLOOR
  {
    hide *;
    var rest := Without(judged, i);
    FactorIsMean(weights, judged, holdouts, target, root);
    ValidCountHere(weights, judged, holdouts, target, i);
    OwnValidityRange(judged, holdouts, i, target, root);
    Mechanised(weights, judged, holdouts, i, target, root);
    FactorIsMean(weights, rest, holdouts, target, root);
    GainOfWhole(weights, judged, holdouts, i, target, root);
    NonNegativeWeight(weights, judged[i].key);
    MeansRise(weights, judged, holdouts, i, target, root);
    MeanAtMostOne(weights, rest, holdouts, target, root);
    ClampRises(MeanValidity(weights, judged, holdouts, target, root), MeanValidity(weights, rest, holdouts, target, root));
  }

  lemma Mechanised(weights: Dict<string>, judged: seq<Judged>, holdouts: seq<Holdout>, i: nat, target: int, root: real -> real)
    requires IsSquareRoot(root) && NonNegative(weights)
    requires DistinctKeys(judged) && i < |judged| && KappasAtMostOne(judged)
    requires Factor(weights, judged, holdouts, target, root).Ok?
    ensures Factor(weights, Without(judged, i), holdouts, target, root).Ok? && KappasAtMostOne(Without(judged, i))
  {
    hide Factor;
    MechanisingIsNoWorse(judged, holdouts, i);
    FactorMonotone(weights, judged, holdouts, Without(judged, i), holdouts, target, root);
  }

  lemma MeansRise(weights: Dict<string>, judged: seq<Judged>, holdouts: seq<Holdout>, i: nat, target: int, root: real -> real)
    requires i < |judged| && SumOf(weights, Weight) > 0.0 && Get(weights, judged[i].key) >= 0.0
    requires OwnValidity(judged[i], holdouts, target, root).Ok? && OwnValidity(judged[i], holdouts, target, root).value <= 1.0
    requires SumOf(weights, ValidityTerm(Without(judged, i), holdouts, target, root)) ==
             SumOf(weights, ValidityTerm(judged, holdouts, target, root))
             + Times(Get(weights, judged[i].key), 1.0 - OwnValidity(judged[i], holdouts, target, root).value)
    ensures var p, q := MeanValidity(weights, judged, holdouts, target, root), MeanValidity(weights, Without(judged,
        i), holdouts, target, root);
            p <= q && (p < q <==> Get(weights, judged[i].key) > 0.0 && OwnValidity(judged[i], holdouts, target, root).value < 1.0)
  {
    hide SumOf, ValidityTerm, Without, Get, OwnValidity, Times;
    GainInQuotient(SumOf(weights, ValidityTerm(judged, holdouts, target, root)),
                   SumOf(weights, ValidityTerm(Without(judged, i), holdouts, target, root)), SumOf(weights, Weight),
                   Get(weights, judged[i].key), OwnValidity(judged[i], holdouts, target, root).value);
  }

  lemma {:induction false} KappaAt(judged: seq<Judged>, k: nat)
    requires DistinctKeys(judged) && k < |judged|
    ensures KappaOf(judged, judged[k].key) == judged[k].kappa
  {
    if k < |judged| - 1 {
      KappaAt(judged[..|judged| - 1], k);
    }
  }

  // ---------------------------------------------------------------------------------------
  // The gate
  // ---------------------------------------------------------------------------------------

  datatype State = NotRequired | Insufficient | Uncalibrated | Calibrated

  datatype Verdict = Verdict(
    state: State, weightedKappa: Option<real>, minAgreement: real, factor: real, nHoldout: int, nAnchor: int,
    gradedSamples: int, minSamples: int, nJudged: int)
  {
    predicate Passed() { state == NotRequired || state == Calibrated }
  }

  /** weights.get(key, 0) */
  function WeightOf(weights: Dict<string>, key: string): real { Get(weights, key) }

  /** The measured coefficients of criteria with a positive weight. */
  function Usable(judged: seq<Judged>, weights: Dict<string>): seq<Judged> {
    if judged == [] then []
    else
      var front, last := Usable(judged[..|judged| - 1], weights), judged[|judged| - 1];
      if last.kappa.Some? && WeightOf(weights, last.key) > 0.0 then front + [last] else front
  }

  function UsableWeight(weights: Dict<string>): Judged -> real { (j: Judged) => WeightOf(weights, j.key) }

  function UsableTerm(weights: Dict<string>): Judged -> real {
    (j: Judged) => Times(WeightOf(weights, j.key), if j.kappa.Some? then j.kappa.value else 0.0)
  }

  function WeightedMean(judged: seq<Judged>, weights: Dict<string>): Option<real> {
    var usable := Usable(judged, weights);
    if usable == [] then None
    else
      UsablePositive(judged, weights);
      Some(SumOf(usable, UsableTerm(weights)) / SumOf(usable, UsableWeight(weights)))
  }

  lemma {:induction false} UsablePositive(judged: seq<Judged>, weights: Dict<string>)
    ensures forall i :: 0 <= i < |Usable(judged, weights)| ==>
              var j := Usable(judged, weights)[i]; j.kappa.Some? && WeightOf(weights, j.key) > 0.0
    ensures SumOf(Usable(judged, weights), UsableWeight(weights)) >= 0.0
    ensures Usable(judged, weights) != [] ==> SumOf(Usable(judged, weights), UsableWeight(weights)) > 0.0
  {
    if judged != [] {
      UsablePositive(judged[..|judged| - 1], weights);
    }
  }

  function GreatestCount(holdouts: seq<Holdout>): int {
    if holdouts == [] then 0
    else if |holdouts| == 1 then holdouts[0].count
    else
      var front, last := GreatestCount(holdouts[..|holdouts| - 1]), holdouts[|holdouts| - 1].count;
      if last > front then last else front
  }

  function VerdictFor(weights: Dict<string>, judged: seq<Judged>, holdouts: seq<Holdout>, gradedSamples: int, minSamples: int,
                      minAgreement: real, nAnchor: int, target: int, nJudged: int, root: real -> real): Result<Verdict>
  {
    if judged == [] then Ok(Verdict(NotRequired, None, minAgreement, 1.0, 0, 0, gradedSamples, minSamples, 0))
    else
      var factor := Factor(weights, judged, holdouts, target, root);
      if factor.ValueError? then ValueError
      else
        var n := GreatestCount(holdouts);
        if gradedSamples < minSamples then
          Ok(Verdict(Insufficient, None, minAgreement, factor.value, n, nAnchor, gradedSamples, minSamples, nJudged))
        else
          var weighted := WeightedMean(judged, weights);
          var state := if weighted.Some? && weighted.value >= minAgreement then Calibrated else Uncalibrated;
          Ok(Verdict(state, weighted, minAgreement, factor.value, n, nAnchor, gradedSamples, minSamples, nJudged))
  }

  ghost predicate KappasBetween(judged: seq<Judged>, low: real, high: real) {
    forall i :: 0 <= i < |judged| && judged[i].kappa.Some? ==> low <= judged[i].kappa.value <= high
  }

  lemma UsableStep(judged: seq<Judged>, weights: Dict<string>)
    ensures judged == [] ==> SumOf(Usable(judged, weights), UsableWeight(weights)) == SumOf(Usable(judged, weights),
        UsableTerm(weights)) == 0.0
    ensures judged != [] ==>
      var front, last := Usable(judged[..|judged| - 1], weights), judged[|judged| - 1];
      if last.kappa.Some? && WeightOf(weights, last.key) > 0.0 then
        && SumOf(Usable(judged, weights), UsableWeight(weights)) == SumOf(front, UsableWeight(weights)) + WeightOf(weights, last.key)
        && SumOf(Usable(judged, weights), UsableTerm(weights)) ==
           SumOf(front, UsableTerm(weights)) + Times(WeightOf(weights, last.key), last.kappa.value)
      else Usable(judged, weights) == front
  {
    hide Times, WeightOf;
  }

  lemma {:induction false} UsableBetween(judged: seq<Judged>, weights: Dict<string>, low: real, high: real)
    requires KappasBetween(judged, low, high)
    ensures var u := Usable(judged, weights);
            Times(low, SumOf(u, UsableWeight(weights))) <= SumOf(u, UsableTerm(weights))
              <= Times(high, SumOf(u, UsableWeight(weights)))
  {
    hide Times, Usable, SumOf, WeightOf;
    UsableStep(judged, weights);
    if judged == [] {
      TimesAdd(low, 0.0, 0.0);
      TimesAdd(high, 0.0, 0.0);
    } else {
      var front, last := judged[..|judged| - 1], judged[|judged| - 1];
      UsableBetween(front, weights, low, high);
      if last.kappa.Some? && WeightOf(weights, last.key) > 0.0 {
        var w, s := WeightOf(weights, last.key), SumOf(Usable(front, weights), UsableWeight(weights));
        TimesAdd(low, s, w);
        TimesAdd(high, s, w);
        SwappedOrder(w, low, last.kappa.value, high);
      }
    }
  }

  lemma SwappedOrder(w: real, low: real, x: real, high: real)
    requires w > 0.0 && low <= x <= high
    ensures Times(low, w) <= Times(w, x) <= Times(high, w)
  {
    NonNegativeProduct(w, x - low);
    NonNegativeProduct(w, high - x);
  }

  /** The gated figure lies between the least and the greatest measured coefficient. */
  lemma WeightedMeanBetween(judged: seq<Judged>, weights: Dict<string>, low: real, high: real)
    requires KappasBetween(judged, low, high) && WeightedMean(judged, weights).Some?
    ensures low <= WeightedMean(judged, weights).value <= high
  {
    UsableBetween(judged, weights, low, high);
    UsablePositive(judged, weights);
    var x, t := SumOf(Usable(judged, weights), UsableTerm(weights)), SumOf(Usable(judged, weights), UsableWeight(weights));
    var m := WeightedMean(judged, weights).value;
    hide SumOf, Usable;
    QuotientWithin(x, t, low, high, m);
  }

  lemma QuotientWithin(x: real, t: real, low: real, high: real, m: real)
    requires t > 0.0 && Times(low, t) <= x <= Times(high, t) && m == x / t
    ensures low <= m <= high
  {
    assert m * t == x;
    if m < low {
      PositiveProduct(low - m, t, (low - m) * t);
    } else if m > high {
      PositiveProduct(m - high, t, (m - high) * t);
    }
  }

  /** The same criteria, each measured where it was, none lower. */
  ghost predicate RaisedTo(judged: seq<Judged>, judged': seq<Judged>) {
    |judged| == |judged'| && forall i :: 0 <= i < |judged| ==>
      judged[i].key == judged'[i].key && judged[i].kappa.Some? == judged'[i].kappa.Some?
      && (judged[i].kappa.Some? ==> judged[i].kappa.value <= judged'[i].kappa.value)
  }

  lemma {:induction false} UsableRaised(judged: seq<Judged>, judged': seq<Judged>, weights: Dict<string>)
    requires RaisedTo(judged, judged')
    ensures |Usable(judged, weights)| == |Usable(judged', weights)|
    ensures SumOf(Usable(judged, weights), UsableWeight(weights)) == SumOf(Usable(judged', weights), UsableWeight(weights))
    ensures SumOf(Usable(judged, weights), UsableTerm(weights)) <= SumOf(Usable(judged', weights), UsableTerm(weights))
  {
    if judged != [] {
      var n := |judged| - 1;
      UsableRaised(judged[..n], judged'[..n], weights);
      if judged[n].kappa.Some? && WeightOf(weights, judged[n].key) > 0.0 {
        WeightedOrder(WeightOf(weights, judged[n].key), judged[n].kappa.value, judged'[n].kappa.value);
        hide Times, WeightOf;
      }
    }
  }

  lemma RaisedMean(judged: seq<Judged>, judged': seq<Judged>, weights: Dict<string>)
    requires RaisedTo(judged, judged') && WeightedMean(judged, weights).Some?
    ensures WeightedMean(judged', weights).Some?
    ensures WeightedMean(judged, weights).value <= WeightedMean(judged', weights).value
  {
    UsableRaised(judged, judged', weights);
    UsablePositive(judged, weights);
    UsablePositive(judged', weights);
    var u, u' := Usable(judged, weights), Usable(judged', weights);
    var t := SumOf(u, UsableWeight(weights));
    hide SumOf, Usable;
    QuotientRaised(SumOf(u, UsableTerm(weights)), SumOf(u', UsableTerm(weights)), t, SumOf(u', UsableWeight(weights)));
  }

  /** Raising measured coefficients never turns a calibrated rubric into an uncalibrated one. */
  lemma RaisingKeepsCalibrated(weights: Dict<string>, judged: seq<Judged>, judged': seq<Judged>, holdouts: seq<Holdout>,
                               gradedSamples: int, minSamples: int, minAgreement: real, nAnchor: int, target: int,
                               nJudged: int, root: real -> real)
    requires RaisedTo(judged, judged')
    ensures var r := VerdictFor(weights, judged, holdouts, gradedSamples, minSamples, minAgreement, nAnchor, target, nJudged, root);
            var r' := VerdictFor(weights, judged', holdouts, gradedSamples, minSamples, minAgreement, nAnchor, target, nJudged, root);
            r.Ok? ==> r'.Ok? && (r.value.state == Calibrated ==> r'.value.state == Calibrated)
  {
    forall key ensures IsJudged(judged, key) <==> IsJudged(judged', key) {
      if i :| 0 <= i < |judged| && judged[i].key == key {
        assert judged'[i].key == key;
      }
      if i :| 0 <= i < |judged'| && judged'[i].key == key {
        assert judged[i].key == key;
      }
    }
    if AllWeighted(judged, weights) {
      StillWeighted(judged, judged', weights);
    }
    if WeightedMean(judged, weights).Some? {
      RaisedMean(judged, judged', weights);
    }
    hide WeightedMean, IsJudged, AllWeighted, SumOf, Clamp, CountOf;
  }

  lemma QuotientRaised(x: real, y: real, t: real, t': real)
    requires x <= y && t > 0.0 && t' == t
    ensures x / t <= y / t'
  {
    var p, q := x / t, y / t';
    assert p * t == x && q * t == y;
    if p > q {
      PositiveProduct(p - q, t, (p - q) * t);
    }
  }
}
