/** The unbiased pass@k estimator of src/freeweight/domain/statistics.py: proved to be the share of
    k-element draws from the attempts that contain a success. */
module PassAtK {
  import opened Metrics
  import opened Results
  import opened Sums

  /** math.comb */
  function Choose(n: nat, k: nat): nat {
    if k == 0 then 1 else if n == 0 then 0 else Choose(n - 1, k - 1) + Choose(n - 1, k)
  }

  function PassAtK(successes: int, attempts: int, k: int): Result<Statistic> {
    if k < 1 then ValueError
    else if successes < 0 || successes > attempts then ValueError
    else if attempts <= 0 then Ok(Statistic(Unavailable(NoAttempts), 0, 0))
    else if k > attempts then Ok(Statistic(Unavailable(KExceedsAttempts), attempts, 0))
    else
      var failures := attempts - successes;
      if failures < k then Ok(Statistic(Value(1.0), attempts, 0))
      else
        ChoosePositive(attempts, k);
        Ok(Statistic(Value(1.0 - Choose(failures, k) as real / Choose(attempts, k) as real), attempts, 0))
  }

  lemma {:induction false} ChoosePositive(n: nat, k: nat)
    ensures Choose(n, k) > 0 <==> k <= n
  {
    if n > 0 && k > 0 {
      ChoosePositive(n - 1, k - 1);
      ChoosePositive(n - 1, k);
    }
  }

  // ---------------------------------------------------------------------------------------
  // Draws, and how many there are
  // ---------------------------------------------------------------------------------------

  /** The ways to draw k of the attempts in s. */
  ghost function Draws(s: set<nat>, k: nat): set<set<nat>> {
    set d: set<nat> | d <= s && |d| == k
  }

  ghost function WithElement(ds: set<set<nat>>, x: nat): set<set<nat>> {
    set d | d in ds :: d + {x}
  }

  lemma ElementTakenOff(d: set<nat>, x: nat)
    requires x !in d
    ensures (d + {x}) - {x} == d
  {
  }

  lemma NothingWithElement(x: nat)
    ensures WithElement({}, x) == {}
  {
  }

  lemma WithElementStep(ds: set<set<nat>>, d: set<nat>, x: nat)
    requires d in ds && forall d :: d in ds ==> x !in d
    ensures WithElement(ds, x) == WithElement(ds - {d}, x) + {d + {x}}
    ensures d + {x} !in WithElement(ds - {d}, x)
  {
    forall d' | d' in ds - {d} ensures d' + {x} != d + {x} {
      ElementTakenOff(d', x);
      ElementTakenOff(d, x);
    }
  }

  lemma {:induction false} WithElementSize(ds: set<set<nat>>, x: nat)
    requires forall d :: d in ds ==> x !in d
    ensures |WithElement(ds, x)| == |ds|
  {
    hide WithElement;
    if ds == {} {
      NothingWithElement(x);
    } else {
      var d :| d in ds;
      WithElementSize(ds - {d}, x);
      WithElementStep(ds, d, x);
    }
  }

  lemma DrawsSplit(s: set<nat>, x: nat, k: nat)
    requires x in s && k > 0
    ensures Draws(s, k) == Draws(s - {x}, k) + WithElement(Draws(s - {x}, k - 1), x)
    ensures Draws(s - {x}, k) !! WithElement(Draws(s - {x}, k - 1), x)
  {
    forall d | d in Draws(s, k) ensures d in Draws(s - {x}, k) + WithElement(Draws(s - {x}, k - 1), x) {
      if x in d {
        assert d - {x} in Draws(s - {x}, k - 1) && d == (d - {x}) + {x};
      }
    }
    forall d | d in WithElement(Draws(s - {x}, k - 1), x) ensures d in Draws(s, k) && x in d {
    }
  }

  /** There are exactly C(n, k) draws of k from n attempts. */
  lemma {:induction false} DrawsCount(s: set<nat>, k: nat)
    ensures |Draws(s, k)| == Choose(|s|, k)
    decreases |s|
  {
    hide Draws, WithElement;
    if k == 0 || s == {} {
      TrivialDraws(s, k);
    } else {
      var x :| x in s;
      DrawsSplit(s, x, k);
      DrawsCount(s - {x}, k);
      DrawsCount(s - {x}, k - 1);
      DrawsInside(s - {x}, k - 1);
      WithElementSize(Draws(s - {x}, k - 1), x);
    }
  }

  lemma TrivialDraws(s: set<nat>, k: nat)
    ensures Draws(s, 0) == {{}}
    ensures k > 0 ==> Draws({}, k) == {}
  {
  }

  lemma DrawsInside(s: set<nat>, k: nat)
    ensures forall d :: d in Draws(s, k) ==> d <= s
  {
  }

  // ---------------------------------------------------------------------------------------
  // The estimate is the share of draws with a success
  // ---------------------------------------------------------------------------------------

  function Attempts(outcomes: seq<bool>): set<nat> { Failures(outcomes) + Successes(outcomes) }

  function Failures(outcomes: seq<bool>): set<nat> { set i: nat | i < |outcomes| && !outcomes[i] }

  function Successes(outcomes: seq<bool>): set<nat> { set i: nat | i < |outcomes| && outcomes[i] }

  /** The draws of k attempts that contain at least one success. */
  ghost function Passing(outcomes: seq<bool>, k: nat): set<set<nat>> {
    set d | d in Draws(Attempts(outcomes), k) && exists i :: i in d && i in Successes(outcomes)
  }

  lemma AttemptsStep(outcomes: seq<bool>)
    ensures outcomes == [] ==> Attempts(outcomes) == {}
    ensures outcomes != [] ==>
      var n := |outcomes| - 1;
      n !in Attempts(outcomes[..n]) && Attempts(outcomes) == Attempts(outcomes[..n]) + {n}
    ensures Attempts(outcomes) == Failures(outcomes) + Successes(outcomes) && Failures(outcomes) !! Successes(outcomes)
  {
  }

  lemma {:induction false} AttemptsSize(outcomes: seq<bool>)
    ensures |Attempts(outcomes)| == |outcomes|
    ensures |Failures(outcomes)| + |Successes(outcomes)| == |outcomes|
  {
    AttemptsStep(outcomes);
    hide Attempts, Failures, Successes;
    if outcomes != [] {
      AttemptsSize(outcomes[..|outcomes| - 1]);
    }
  }

  lemma FailingDraws(outcomes: seq<bool>, k: nat)
    ensures Draws(Attempts(outcomes), k) == Passing(outcomes, k) + Draws(Failures(outcomes), k)
    ensures Passing(outcomes, k) !! Draws(Failures(outcomes), k)
  {
    forall d | d in Draws(Attempts(outcomes), k)
      ensures d in Passing(outcomes, k) <==> d !in Draws(Failures(outcomes), k)
    {
      if d !in Draws(Failures(outcomes), k) {
        var i :| i in d && i !in Failures(outcomes);
        assert i in Successes(outcomes);
      }
    }
    forall d | d in Draws(Failures(outcomes), k) ensures d in Draws(Attempts(outcomes), k) {
    }
  }

  lemma PassAtKFormula(successes: int, attempts: int, k: int)
    requires 1 <= k <= attempts && 0 <= successes <= attempts
    ensures Choose(attempts, k) > 0
    ensures var share := Choose(attempts - successes, k) as real / Choose(attempts, k) as real;
            PassAtK(successes, attempts, k) == Ok(Statistic(Value(1.0 - share), attempts, 0))
  {
    ChoosePositive(attempts, k);
    ChoosePositive(attempts - successes, k);
    hide Choose;
  }

  /** pass@k is the number of passing draws over the number of draws, the early answer for fewer
      than k failures included. */
  lemma PassAtKIsShare(outcomes: seq<bool>, k: nat)
    requires 1 <= k <= |outcomes|
    ensures var c, n := |Successes(outcomes)|, |outcomes|;
            var draws := |Draws(Attempts(outcomes), k)|;
            draws > 0 &&
            PassAtK(c, n, k) == Ok(Statistic(Value(|Passing(outcomes, k)| as real / draws as real), n, 0))
  {
    hide PassAtK, Choose, Draws, Passing, Attempts, Failures, Successes;
    var c, n := |Successes(outcomes)|, |outcomes|;
    AttemptsSize(outcomes);
    FailingDraws(outcomes, k);
    DrawsCount(Attempts(outcomes), k);
    DrawsCount(Failures(outcomes), k);
    PassAtKFormula(c, n, k);
    var draws, failing := Choose(n, k), Choose(n - c, k);
    assert |Passing(outcomes, k)| == draws - failing;
    Complement(draws as real, failing as real);
  }

  lemma Complement(draws: real, failing: real)
    requires draws > 0.0
    ensures (draws - failing) / draws == 1.0 - failing / draws
  {
    var p, q := (draws - failing) / draws, failing / draws;
    assert p * draws == draws - failing && q * draws == failing;
    Cancel(p, 1.0 - q, draws);
  }

  // ---------------------------------------------------------------------------------------
  // Bounds and monotonicity
  // ---------------------------------------------------------------------------------------

  ghost predicate Defined(successes: int, attempts: int, k: int) {
    1 <= k <= attempts && 0 <= successes <= attempts
  }

  function Estimate(successes: int, attempts: int, k: int): real
    requires Defined(successes, attempts, k)
  {
    PassAtK(successes, attempts, k).value.result.value
  }

  /** What is refused, what has no figure, and how many samples every answer stands for. */
  lemma PassAtKAnswers(successes: int, attempts: int, k: int)
    ensures PassAtK(successes, attempts, k).ValueError? <==> k < 1 || successes < 0 || successes > attempts
    ensures k >= 1 && 0 <= successes <= attempts ==>
      var answer := PassAtK(successes, attempts, k).value;
      && answer.sampleCount == attempts && answer.excludedCount == 0
      && (answer.result == Unavailable(NoAttempts) <==> attempts == 0)
      && (answer.result == Unavailable(KExceedsAttempts) <==> 0 < attempts < k)
      && (answer.result.Value? <==> k <= attempts)
  {
    hide Choose;
  }

  /** Fewer than k failures leave no failing draw, so the early answer agrees with the formula. */
  lemma EstimateFormula(successes: int, attempts: int, k: int)
    requires Defined(successes, attempts, k)
    ensures Choose(attempts, k) > 0
    ensures Estimate(successes, attempts, k)
         == 1.0 - Choose(attempts - successes, k) as real / Choose(attempts, k) as real
  {
    PassAtKFormula(successes, attempts, k);
    hide PassAtK, Choose;
  }

  lemma {:induction false} ChooseMonotone(m: nat, n: nat, k: nat)
    requires m <= n
    ensures Choose(m, k) <= Choose(n, k)
  {
    if m < n {
      ChooseMonotone(m, n - 1, k);
    }
  }

  /** (k + 1) C(n, k + 1) = (n - k) C(n, k) */
  lemma {:induction false} ChooseNext(n: nat, k: nat)
    ensures (k + 1) * Choose(n, k + 1) == (n - k) * Choose(n, k)
  {
    if n == 0 {
    } else if k == 0 {
      ChooseNext(n - 1, 0);
    } else {
      ChooseNext(n - 1, k);
      ChooseNext(n - 1, k - 1);
      ChooseNextStep(n, k, Choose(n - 1, k + 1), Choose(n - 1, k), Choose(n - 1, k - 1));
    }
  }

  lemma ChooseNextStep(n: int, k: int, a: int, b: int, c: int)
    requires (k + 1) * a == (n - 1 - k) * b && k * b == (n - k) * c
    ensures (k + 1) * (b + a) == (n - k) * (c + b)
  {
  }

  /** The estimate lies in [0, 1]. */
  lemma EstimateRange(successes: int, attempts: int, k: int)
    requires Defined(successes, attempts, k)
    ensures 0.0 <= Estimate(successes, attempts, k) <= 1.0
  {
    EstimateFormula(successes, attempts, k);
    ChooseMonotone(attempts - successes, attempts, k);
    ShareOrder(Choose(attempts - successes, k) as real, Choose(attempts, k) as real, 1.0, 1.0);
  }

  lemma ShareOrder(a: real, b: real, c: real, d: real)
    requires 0.0 <= a && 0.0 < b && 0.0 < d && a * d <= c * b
    ensures 0.0 <= a / b <= c / d
  {
    var p, q := a / b, c / d;
    assert p * b == a && q * d == c;
    if p > q {
      PositiveProduct(b, d, b * d);
      PositiveProduct(p - q, b * d, (p - q) * (b * d));
    }
    if p < 0.0 {
      PositiveProduct(-p, b, -p * b);
    }
  }

  /** One more success never lowers the estimate. */
  lemma MoreSuccesses(successes: int, attempts: int, k: int)
    requires Defined(successes, attempts, k) && successes < attempts
    ensures Estimate(successes, attempts, k) <= Estimate(successes + 1, attempts, k)
  {
    EstimateFormula(successes, attempts, k);
    EstimateFormula(successes + 1, attempts, k);
    var n := Choose(attempts, k) as real;
    ChooseMonotone(attempts - successes - 1, attempts - successes, k);
    var a, c := Choose(attempts - successes - 1, k) as real, Choose(attempts - successes, k) as real;
    hide Estimate, Choose;
    if a * n > c * n {
      NonNegativeProduct(c - a, n);
    }
    ShareOrder(a, n, c, n);
  }

  /** A larger draw never lowers the estimate. */
  lemma LargerDraw(successes: int, attempts: int, k: int)
    requires Defined(successes, attempts, k) && Defined(successes, attempts, k + 1)
    ensures Estimate(successes, attempts, k) <= Estimate(successes, attempts, k + 1)
  {
    hide Estimate, Choose;
    EstimateFormula(successes, attempts, k);
    EstimateFormula(successes, attempts, k + 1);
    var f := attempts - successes;
    ChooseNext(f, k);
    ChooseNext(attempts, k);
    CrossMultiply(k, f, attempts, Choose(f, k), Choose(f, k + 1), Choose(attempts, k), Choose(attempts, k + 1));
    ShareOrder(Choose(f, k + 1) as real, Choose(attempts, k + 1) as real, Choose(f, k) as real, Choose(attempts, k) as real);
  }

  lemma Regroup(s: int, a: int, b: int, product: int, ab: int)
    requires product == s * a && ab == a * b
    ensures s * ab == product * b
  {
  }

  lemma ScaledOrder(s: int, x: int, y: int, low: int, high: int, m: int)
    requires s > 0 && m >= 0 && low <= high && s * x == low * m && s * y == high * m
    ensures x <= y
  {
    NonNegativeTimes(high - low, m);
    if x > y {
      NonNegativeTimes(x - y - 1, s);
    }
  }

  lemma NonNegativeTimes(x: int, y: int)
    requires x >= 0 && y >= 0
    ensures x * y >= 0
  {
  }

  lemma CrossMultiply(k: nat, f: nat, n: nat, fk: nat, fk': nat, nk: nat, nk': nat)
    requires f <= n && (k + 1) * fk' == (f - k) * fk && (k + 1) * nk' == (n - k) * nk
    ensures fk' * nk <= fk * nk'
    ensures fk' as real * nk as real <= fk as real * nk' as real
  {
    var lower, upper, m := fk' * nk, nk' * fk, fk * nk;
    Regroup(k + 1, fk', nk, (f - k) * fk, lower);
    Regroup(k + 1, nk', fk, (n - k) * nk, upper);
    Regroup(f - k, fk, nk, (f - k) * fk, m);
    Regroup(n - k, nk, fk, (n - k) * nk, m);
    ScaledOrder(k + 1, lower, upper, f - k, n - k, m);
    RealProduct(fk', nk);
    RealProduct(fk, nk');
  }

  lemma RealProduct(x: nat, y: nat)
    ensures (x * y) as real == x as real * y as real
  {
  }

  /** pass@1 is the plain success rate. */
  lemma SingleDraw(successes: int, attempts: int)
    requires Defined(successes, attempts, 1)
    ensures Estimate(successes, attempts, 1) == successes as real / attempts as real
  {
    EstimateFormula(successes, attempts, 1);
    ChooseOne(attempts);
    ChooseOne(attempts - successes);
    var n, f := attempts as real, (attempts - successes) as real;
    hide Estimate, Choose;
    Complement(n, f);
  }

  lemma {:induction false} ChooseOne(n: nat)
    ensures Choose(n, 1) == n
  {
    if n > 0 {
      ChooseOne(n - 1);
    }
  }
}
