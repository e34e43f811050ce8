/** Exact sums over sequences, and the handful of laws the statistics below rest on.
    Floating-point numbers are modelled as exact reals throughout the project. */
module Sums {

  function SumOf<T>(xs: seq<T>, f: T -> real): real {
    if xs == [] then 0.0 else SumOf(xs[..|xs| - 1], f) + f(xs[|xs| - 1])
  }

  function Sq(x: real): real {
    x * x
  }

  /** The indices 0, 1, ..., n - 1: what range(n) iterates over. */
  function Range(n: nat): (r: seq<int>)
    ensures |r| == n && forall i :: 0 <= i < n ==> r[i] == i
  {
    seq(n, i => i)
  }

  lemma RangeStep(n: nat)
    ensures Range(n + 1) == Range(n) + [n]
  {
  }

  lemma {:induction false} SumSnoc<T>(xs: seq<T>, x: T, f: T -> real)
    ensures SumOf(xs + [x], f) == SumOf(xs, f) + f(x)
  {
    assert (xs + [x])[..|xs|] == xs;
  }

  lemma {:induction false} SumConcat<T>(xs: seq<T>, ys: seq<T>, f: T -> real)
    ensures SumOf(xs + ys, f) == SumOf(xs, f) + SumOf(ys, f)
  {
    if ys == [] {
      assert xs + ys == xs;
    } else {
      var ys' := ys[..|ys| - 1];
      assert xs + ys == (xs + ys') + [ys[|ys| - 1]];
      SumSnoc(xs + ys', ys[|ys| - 1], f);
      SumConcat(xs, ys', f);
    }
  }

  lemma {:induction false} SumCongruent<T>(xs: seq<T>, f: T -> real, g: T -> real)
    requires forall x :: x in xs ==> f(x) == g(x)
    ensures SumOf(xs, f) == SumOf(xs, g)
  {
    if xs != [] {
      SumCongruent(xs[..|xs| - 1], f, g);
    }
  }

  /** Linearity: a sum of a*f + b*g is a times the sum of f plus b times the sum of g. */
  lemma {:induction false} SumLinear<T>(xs: seq<T>, a: real, f: T -> real, b: real, g: T -> real, h: T -> real)
    requires forall x :: x in xs ==> h(x) == a * f(x) + b * g(x)
    ensures SumOf(xs, h) == a * SumOf(xs, f) + b * SumOf(xs, g)
  {
    if xs != [] {
      SumLinear(xs[..|xs| - 1], a, f, b, g, h);
    }
  }

  lemma {:induction false} SumAdd<T>(xs: seq<T>, f: T -> real, g: T -> real, h: T -> real)
    requires forall x :: x in xs ==> h(x) == f(x) + g(x)
    ensures SumOf(xs, h) == SumOf(xs, f) + SumOf(xs, g)
  {
    if xs != [] {
      SumAdd(xs[..|xs| - 1], f, g, h);
    }
  }

  lemma {:induction false} SumScaled<T>(xs: seq<T>, a: real, f: T -> real, h: T -> real)
    requires forall x :: x in xs ==> h(x) == a * f(x)
    ensures SumOf(xs, h) == a * SumOf(xs, f)
  {
    if xs != [] {
      SumScaled(xs[..|xs| - 1], a, f, h);
    }
  }

  lemma {:induction false} SumConstant<T>(xs: seq<T>, c: real, f: T -> real)
    requires forall x :: x in xs ==> f(x) == c
    ensures SumOf(xs, f) == c * |xs| as real
  {
    if xs != [] {
      SumConstant(xs[..|xs| - 1], c, f);
    }
  }

  lemma {:induction false} SumZeros<T>(xs: seq<T>, f: T -> real)
    requires forall k :: 0 <= k < |xs| ==> f(xs[k]) == 0.0
    ensures SumOf(xs, f) == 0.0
  {
    if xs != [] {
      SumZeros(xs[..|xs| - 1], f);
    }
  }

  lemma {:induction false} SumOnes<T>(xs: seq<T>, f: T -> real)
    requires forall k :: 0 <= k < |xs| ==> f(xs[k]) == 1.0
    ensures SumOf(xs, f) == |xs| as real
  {
    if xs != [] {
      SumOnes(xs[..|xs| - 1], f);
    }
  }

  lemma {:induction false} SumMonotone<T>(xs: seq<T>, f: T -> real, g: T -> real)
    requires forall x :: x in xs ==> f(x) <= g(x)
    ensures SumOf(xs, f) <= SumOf(xs, g)
  {
    if xs != [] {
      SumMonotone(xs[..|xs| - 1], f, g);
    }
  }

  lemma PositiveProduct(x: real, y: real, product: real)
    requires (x > 0.0 && y > 0.0) || (x < 0.0 && y < 0.0)
    requires product == x * y
    ensures product > 0.0
  {
    assert x * y > 0.0;
  }

  lemma NonZeroProduct(x: real, y: real)
    requires x > 0.0 && y != 0.0
    ensures x * y != 0.0
  {
    if y > 0.0 {
      PositiveProduct(x, y, x * y);
    } else {
      PositiveProduct(x, -y, x * (-y));
    }
  }

  lemma Cancel(x: real, y: real, scale: real)
    requires scale > 0.0 && x * scale == y * scale
    ensures x == y
  {
    if x != y {
      NonZeroProduct(scale, x - y);
    }
  }

  lemma Associate(x: real, y: real, z: real)
    ensures x * y * z == x * (y * z)
  {
  }

  /** A product behind a name, for proofs that need its laws but not its arithmetic. */
  function Times(x: real, y: real): real { x * y }

  lemma TimesAdd(x: real, y: real, z: real)
    ensures Times(x, y + z) == Times(x, y) + Times(x, z)
    ensures Times(x, 0.0) == 0.0
  {
  }

  lemma SquareZero(x: real)
    ensures 0.0 <= Sq(x) && (Sq(x) == 0.0 <==> x == 0.0)
  {
    if x != 0.0 {
      PositiveProduct(x, x, Sq(x));
    }
  }

  /** A sum of non-negative terms is non-negative, and zero exactly when every term is. */
  lemma {:induction false} SumNonNegative<T>(xs: seq<T>, f: T -> real)
    requires forall x :: x in xs ==> 0.0 <= f(x)
    ensures 0.0 <= SumOf(xs, f)
    ensures SumOf(xs, f) == 0.0 <==> forall x :: x in xs ==> f(x) == 0.0
  {
    if xs != [] {
      var front, last := xs[..|xs| - 1], xs[|xs| - 1];
      SumNonNegative(front, f);
      assert xs == front + [last];
    }
  }

  function Right<A, B>(f: (A, B) -> real, x: A): B -> real { y => f(x, y) }

  function Left<A, B>(f: (A, B) -> real, y: B): A -> real { x => f(x, y) }

  /** Exchanging the order of a double sum. */
  lemma {:induction false} SumSwap<A, B>(xs: seq<A>, ys: seq<B>, f: (A, B) -> real, rows: A -> real, columns: B -> real)
    requires forall x :: x in xs ==> rows(x) == SumOf(ys, Right(f, x))
    requires forall y :: y in ys ==> columns(y) == SumOf(xs, Left(f, y))
    ensures SumOf(xs, rows) == SumOf(ys, columns)
  {
    if xs == [] {
      SumConstant(ys, 0.0, columns);
    } else {
      var front, last := xs[..|xs| - 1], xs[|xs| - 1];
      var columns' := y => SumOf(front, Left(f, y));
      SumSwap(front, ys, f, rows, columns');
      SumLinear(ys, 1.0, columns', 1.0, Right(f, last), columns);
    }
  }

  /** A sum over indices with a single non-zero term is that term. */
  lemma {:induction false} PointSum(n: nat, k: int, f: int -> real)
    requires 0 <= k < n
    requires forall i :: 0 <= i < n && i != k ==> f(i) == 0.0
    ensures SumOf(Range(n), f) == f(k)
  {
    RangeStep(n - 1);
    SumSnoc(Range(n - 1), n - 1, f);
    if k == n - 1 {
      SumConstant(Range(n - 1), 0.0, f);
    } else {
      PointSum(n - 1, k, f);
    }
  }

  /** A sum does not depend on the order of its terms. */
  lemma {:induction false} SumPermutation<T>(xs: seq<T>, ys: seq<T>, f: T -> real)
    requires multiset(xs) == multiset(ys)
    ensures SumOf(xs, f) == SumOf(ys, f)
  {
    if xs == [] {
      assert |multiset(ys)| == 0;
    } else {
      var front, last := xs[..|xs| - 1], xs[|xs| - 1];
      assert xs == front + [last];
      assert last in multiset(ys);
      var i :| 0 <= i < |ys| && ys[i] == last;
      assert ys == ys[..i] + [last] + ys[i + 1..];
      assert multiset(front + [last]) == multiset(front) + multiset{last};
      assert multiset(ys[..i] + [last] + ys[i + 1..]) == multiset(ys[..i] + ys[i + 1..]) + multiset{last};
      assert multiset(front) == multiset(xs) - multiset{last};
      SumPermutation(front, ys[..i] + ys[i + 1..], f);
      SumConcat(ys[..i], ys[i + 1..], f);
      SumConcat(ys[..i] + [last], ys[i + 1..], f);
      SumSnoc(ys[..i], last, f);
    }
  }

  function SumSq<T>(xs: seq<T>, f: T -> real): real {
    if xs == [] then 0.0 else SumSq(xs[..|xs| - 1], f) + Sq(f(xs[|xs| - 1]))
  }

  /** The sum over ys of (c - g(y))^2. */
  function SquaresFrom<B>(c: real, ys: seq<B>, g: B -> real): real {
    if ys == [] then 0.0 else SquaresFrom(c, ys[..|ys| - 1], g) + Sq(c - g(ys[|ys| - 1]))
  }

  /** The sum over all pairs (x, y) of (f(x) - g(y))^2. */
  function CrossSquares<A, B>(xs: seq<A>, f: A -> real, ys: seq<B>, g: B -> real): real {
    if xs == [] then 0.0 else CrossSquares(xs[..|xs| - 1], f, ys, g) + SquaresFrom(f(xs[|xs| - 1]), ys, g)
  }

  lemma {:induction false} SquaresAsSum<B>(c: real, ys: seq<B>, g: B -> real, h: B -> real)
    requires forall y :: y in ys ==> h(y) == Sq(c - g(y))
    ensures SquaresFrom(c, ys, g) == SumOf(ys, h)
  {
    if ys != [] {
      SquaresAsSum(c, ys[..|ys| - 1], g, h);
    }
  }

  lemma {:induction false} CrossAsSum<A, B>(xs: seq<A>, f: A -> real, ys: seq<B>, g: B -> real, h: A -> real)
    requires forall x :: x in xs ==> h(x) == SquaresFrom(f(x), ys, g)
    ensures CrossSquares(xs, f, ys, g) == SumOf(xs, h)
  {
    if xs != [] {
      CrossAsSum(xs[..|xs| - 1], f, ys, g, h);
    }
  }

  lemma {:induction false} DistanceMoments<B>(c: real, ys: seq<B>, g: B -> real)
    ensures SquaresFrom(c, ys, g) == |ys| as real * Sq(c) - 2.0 * c * SumOf(ys, g) + SumSq(ys, g)
  {
    if ys != [] {
      var front, last := ys[..|ys| - 1], ys[|ys| - 1];
      DistanceMoments(c, front, g);
      DistanceStep(|front| as real, c, SumOf(front, g), g(last), |ys| as real, SumOf(ys, g));
    }
  }

  lemma DistanceStep(n: real, c: real, s: real, y: real, n': real, s': real)
    requires n' == n + 1.0 && s' == s + y
    ensures n * Sq(c) - 2.0 * c * s + Sq(c - y) == n' * Sq(c) - 2.0 * c * s' + Sq(y)
  {
  }

  /** The all-pairs sum of squared differences, reduced to counts, sums and sums of squares. */
  lemma {:induction false} CrossMoments<A, B>(xs: seq<A>, f: A -> real, ys: seq<B>, g: B -> real)
    ensures CrossSquares(xs, f, ys, g)
         == |ys| as real * SumSq(xs, f) - 2.0 * SumOf(xs, f) * SumOf(ys, g) + |xs| as real * SumSq(ys, g)
  {
    hide Sq;
    if xs != [] {
      var front, last := xs[..|xs| - 1], xs[|xs| - 1];
      CrossMoments(front, f, ys, g);
      DistanceMoments(f(last), ys, g);
      MomentStep(|ys| as real, SumSq(front, f), SumOf(front, f), SumOf(ys, g), |front| as real, SumSq(ys, g), f(last),
                 SumSq(xs, f), SumOf(xs, f), |xs| as real);
    }
  }

  lemma MomentStep(m: real, qf: real, sf: real, sg: real, n: real, qg: real, c: real, qf': real, sf': real, n': real)
    requires qf' == qf + Sq(c) && sf' == sf + c && n' == n + 1.0
    ensures m * qf - 2.0 * sf * sg + n * qg + (m * Sq(c) - 2.0 * c * sg + qg) == m * qf' - 2.0 * sf' * sg + n' * qg
  {
  }

  lemma {:induction false} DistanceNonNegative<B>(c: real, ys: seq<B>, g: B -> real)
    ensures 0.0 <= SquaresFrom(c, ys, g)
    ensures SquaresFrom(c, ys, g) == 0.0 <==> forall y :: y in ys ==> g(y) == c
  {
    if ys != [] {
      var front, last := ys[..|ys| - 1], ys[|ys| - 1];
      DistanceNonNegative(c, front, g);
      SquareZero(c - g(last));
      assert ys == front + [last];
    }
  }

  lemma {:induction false} CrossNonNegative<A, B>(xs: seq<A>, f: A -> real, ys: seq<B>, g: B -> real)
    ensures 0.0 <= CrossSquares(xs, f, ys, g)
    ensures CrossSquares(xs, f, ys, g) == 0.0 <==> forall x, y :: x in xs && y in ys ==> f(x) == g(y)
  {
    if xs != [] {
      var front, last := xs[..|xs| - 1], xs[|xs| - 1];
      CrossNonNegative(front, f, ys, g);
      DistanceNonNegative(f(last), ys, g);
      assert xs == front + [last];
    }
  }

  /** Cauchy's inequality for one series: (sum f)^2 <= n * sum f^2. */
  lemma SumSquaredBound<T>(xs: seq<T>, f: T -> real)
    ensures Sq(SumOf(xs, f)) <= |xs| as real * SumSq(xs, f)
  {
    CrossMoments(xs, f, xs, f);
    CrossNonNegative(xs, f, xs, f);
  }

  function Dot<T>(xs: seq<T>, f: T -> real, g: T -> real): real {
    if xs == [] then 0.0 else Dot(xs[..|xs| - 1], f, g) + f(xs[|xs| - 1]) * g(xs[|xs| - 1])
  }

  lemma {:induction false} SumSqZero<T>(xs: seq<T>, f: T -> real)
    ensures 0.0 <= SumSq(xs, f)
    ensures SumSq(xs, f) == 0.0 <==> forall x :: x in xs ==> f(x) == 0.0
  {
    if xs != [] {
      var front, last := xs[..|xs| - 1], xs[|xs| - 1];
      SumSqZero(front, f);
      SquareZero(f(last));
      assert xs == front + [last];
    }
  }

  /** The Cauchy-Schwarz inequality. */
  lemma {:induction false} CauchySchwarz<T>(xs: seq<T>, f: T -> real, g: T -> real)
    ensures Sq(Dot(xs, f, g)) <= Times(SumSq(xs, f), SumSq(xs, g))
  {
    if xs == [] {
      TimesAdd(0.0, 0.0, 0.0);
    } else {
      var front, last := xs[..|xs| - 1], xs[|xs| - 1];
      CauchySchwarz(front, f, g);
      SumSqZero(front, f);
      SumSqZero(front, g);
      CauchyStep(Dot(front, f, g), SumSq(front, f), SumSq(front, g), f(last), g(last),
                 Dot(xs, f, g), SumSq(xs, f), SumSq(xs, g));
    }
  }

  lemma ProductOfSums(a: real, b: real, c: real, d: real, u: real)
    requires u == a * d + b * c
    ensures Times(a + c, b + d) == Times(a, b) + u + Times(c, d)
  {
  }

  lemma SquareOfSum(p: real, x: real, y: real, v: real)
    requires v == 2.0 * p * x * y
    ensures Sq(p + x * y) == Sq(p) + v + Times(Sq(x), Sq(y))
  {
    var q := x * y;
    assert Sq(q) == Times(Sq(x), Sq(y));
    assert Sq(p + q) == Sq(p) + 2.0 * p * q + Sq(q);
  }

  /** From p^2 <= a b, one more term keeps the bound: (p + x y)^2 <= (a + x^2) (b + y^2). */
  lemma CauchyStep(p: real, a: real, b: real, x: real, y: real, p': real, a': real, b': real)
    requires 0.0 <= a && 0.0 <= b && Sq(p) <= Times(a, b)
    requires p' == p + x * y && a' == a + Sq(x) && b' == b + Sq(y)
    ensures Sq(p') <= Times(a', b')
  {
    var u, v := a * Sq(y) + b * Sq(x), 2.0 * p * x * y;
    CrossTermBound(p, a, b, x, y, u, v);
    ProductOfSums(a, b, Sq(x), Sq(y), u);
    SquareOfSum(p, x, y, v);
    hide Sq, Times;
  }

  lemma SquareGrows(u: real, v: real)
    requires 0.0 <= u < v
    ensures Sq(u) < Sq(v)
  {
    PositiveProduct(v - u, v + u, (v - u) * (v + u));
  }

  /** (2 p x y)^2 <= (a y^2 + b x^2)^2 where p^2 <= a b. */
  lemma CrossTermSquares(p: real, a: real, b: real, x: real, y: real, u: real, v: real)
    requires 0.0 <= a && 0.0 <= b && Sq(p) <= Times(a, b)
    requires u == a * Sq(y) + b * Sq(x) && v == 2.0 * p * x * y
    ensures Sq(v) <= Sq(u)
  {
    var s, t := a * Sq(y), b * Sq(x);
    var w := Sq(x) * Sq(y);
    SquareZero(x);
    SquareZero(y);
    NonNegativeProduct(Sq(x), Sq(y));
    NonNegativeProduct(Times(a, b) - Sq(p), w);
    CrossTermParts(p, a, b, x, y, w);
    SquareZero(s - t);
    SquareOfParts(s, t);
    hide Sq, Times;
  }

  lemma CrossTermParts(p: real, a: real, b: real, x: real, y: real, w: real)
    requires w == Sq(x) * Sq(y)
    ensures Sq(2.0 * p * x * y) == 4.0 * (Sq(p) * w)
    ensures (a * Sq(y)) * (b * Sq(x)) == Times(a, b) * w
  {
  }

  lemma SquareOfParts(s: real, t: real)
    ensures Sq(s + t) == Sq(s - t) + 4.0 * (s * t)
  {
  }

  lemma CrossTermBound(p: real, a: real, b: real, x: real, y: real, u: real, v: real)
    requires 0.0 <= a && 0.0 <= b && Sq(p) <= Times(a, b)
    requires u == a * Sq(y) + b * Sq(x) && v == 2.0 * p * x * y
    ensures v <= u
  {
    NonNegativeProduct(a, Sq(y));
    NonNegativeProduct(b, Sq(x));
    if v > u {
      SquareGrows(u, v);
      CrossTermSquares(p, a, b, x, y, u, v);
    }
  }

  lemma NonNegativeProduct(x: real, y: real)
    requires 0.0 <= x && 0.0 <= y
    ensures 0.0 <= x * y
  {
  }
}
