/** Spearman's rank correlation with ties on average ranks: the tie-scanning loop and the
    correlation of src/freeweight/domain/agreement.py. */
module Spearman {
  import opened Agreement
  import Measures
  import opened Ordering
  import opened Results
  import opened Roots
  import opened Sums

  // ---------------------------------------------------------------------------------------
  // The reference definition of an average rank
  // ---------------------------------------------------------------------------------------

  function Below(x: real): real -> real { (y: real) => if y < x then 1.0 else 0.0 }

  function Same(x: real): real -> real { (y: real) => if y == x then 1.0 else 0.0 }

  /** One more than the number of smaller values, moved to the middle of the values it ties with. */
  function Rank(values: seq<real>, x: real): real {
    SumOf(values, Below(x)) + (SumOf(values, Same(x)) + 1.0) / 2.0
  }

  function Ranks(values: seq<real>): (ranks: seq<real>)
    ensures |ranks| == |values| && forall i :: 0 <= i < |values| ==> ranks[i] == Rank(values, values[i])
  {
    seq(|values|, i requires 0 <= i < |values| => Rank(values, values[i]))
  }

  // ---------------------------------------------------------------------------------------
  // The computation
  // ---------------------------------------------------------------------------------------

  function Value(values: seq<real>, i: int): real {
    if 0 <= i < |values| then values[i] else 0.0
  }

  function At(values: seq<real>): int -> real { (i: int) => Value(values, i) }

  function Order(values: seq<real>): seq<int> {
    SortBy(Range(|values|), At(values))
  }

  /** The last position that ties with the one given. */
  method EndOfTies(values: seq<real>, order: seq<int>, position: nat) returns (end: nat)
    requires Arranged(values, order) && position < |order|
    ensures position <= end < |order| && values[order[end]] == values[order[position]]
    ensures end + 1 < |order| ==> values[order[end]] < values[order[end + 1]]
  {
    end := position;
    while end + 1 < |order| && values[order[end + 1]] == values[order[position]]
      invariant position <= end < |order|
      invariant values[order[end]] == values[order[position]]
    {
      end := end + 1;
    }
  }

  /** The same rank for every sample from one position of the order to another. */
  method Assign(ranks: array<real>, order: seq<int>, first: nat, last: nat, rank: real)
    requires Reordering(order, ranks.Length) && first <= last < |order|
    modifies ranks
    ensures forall k :: first <= k <= last ==> ranks[order[k]] == rank
    ensures forall k :: 0 <= k < |order| && !(first <= k <= last) ==> ranks[order[k]] == old(ranks[order[k]])
  {
    for index := first to last + 1
      invariant forall k :: first <= k < index ==> ranks[order[k]] == rank
      invariant forall k :: 0 <= k < |order| && !(first <= k < index) ==> ranks[order[k]] == old(ranks[order[k]])
    {
      ranks[order[index]] := rank;
    }
  }

  method AverageRanks(values: seq<real>) returns (r: seq<real>)
    ensures r == Ranks(values)
  {
    var order := Order(values);
    OrderIsPermutation(values);
    hide SumOf, Rank, Order;
    var ranks := new real[|values|](_ => 0.0);
    var position := 0;
    while position < |order|
      invariant 0 <= position <= |order|
      invariant 0 < position < |order| ==> values[order[position - 1]] < values[order[position]]
      invariant forall k :: 0 <= k < position ==> ranks[order[k]] == Rank(values, values[order[k]])
    {
      var end := EndOfTies(values, order, position);
      TieGroupRank(values, order, position, end);
      Assign(ranks, order, position, end, (position + end) as real / 2.0 + 1.0);
      position := end + 1;
    }
    AllRanked(values, order, ranks[..]);
    return ranks[..];
  }

  lemma AllRanked(values: seq<real>, order: seq<int>, ranks: seq<real>)
    requires |ranks| == |values| && Reordering(order, |values|) && forall i :: 0 <= i < |values| ==> i in order
    requires forall k :: 0 <= k < |order| ==> ranks[order[k]] == Rank(values, values[order[k]])
    ensures ranks == Ranks(values)
  {
    hide Rank;
    forall i | 0 <= i < |values| ensures ranks[i] == Rank(values, values[i]) {
      assert i in order;
      var k :| 0 <= k < |order| && order[k] == i;
    }
  }

  // ---------------------------------------------------------------------------------------
  // Why the loop computes the reference ranks
  // ---------------------------------------------------------------------------------------

  /** Each of the first n positions, once. */
  predicate Reordering(order: seq<int>, n: nat) {
    && |order| == n
    && (forall k :: 0 <= k < |order| ==> 0 <= order[k] < n)
    && (forall j, k :: 0 <= j < k < |order| ==> order[j] != order[k])
  }

  lemma OrderIsPermutation(values: seq<real>)
    ensures Arranged(values, Order(values)) && Reordering(Order(values), |values|)
    ensures forall i :: 0 <= i < |values| ==> i in Order(values)
  {
    hide Order, Arranged;
    OrderArranged(values);
    OrderDistinct(values);
  }

  lemma OrderInRange(values: seq<real>)
    ensures |Order(values)| == |values| && multiset(Order(values)) == multiset(Range(|values|))
    ensures forall k :: 0 <= k < |values| ==> 0 <= Order(values)[k] < |values|
    ensures forall i :: 0 <= i < |values| ==> i in Order(values)
  {
    hide SortBy;
    var order, range := Order(values), Range(|values|);
    hide Order;
    forall k | 0 <= k < |values| ensures 0 <= order[k] < |values| {
      assert order[k] in multiset(range);
    }
    forall i | 0 <= i < |values| ensures i in order {
      assert range[i] in multiset(order);
    }
  }

  lemma OrderArranged(values: seq<real>)
    ensures Arranged(values, Order(values))
  {
    OrderInRange(values);
    hide SortBy;
    var order := Order(values);
    forall j, k | 0 <= j < k < |values| ensures values[order[j]] <= values[order[k]] {
      assert At(values)(order[j]) <= At(values)(order[k]);
    }
  }

  lemma OrderDistinct(values: seq<real>)
    ensures Reordering(Order(values), |values|)
    ensures forall i :: 0 <= i < |values| ==> i in Order(values)
  {
    hide Order, Range;
    OrderInRange(values);
    RangeDistinct(|values|);
    var order := Order(values);
    forall j, k | 0 <= j < k < |values| ensures order[j] != order[k] {
      if order[j] == order[k] {
        CountTwice(order, j, k);
      }
    }
  }

  lemma CountTwice(s: seq<int>, j: nat, k: nat)
    requires j < k < |s| && s[j] == s[k]
    ensures multiset(s)[s[j]] >= 2
  {
    assert s == s[..j] + [s[j]] + s[j + 1..k] + [s[k]] + s[k + 1..];
  }

  lemma {:induction false} RangeDistinct(n: nat)
    ensures forall i :: multiset(Range(n))[i] <= 1
  {
    if n > 0 {
      RangeStep(n - 1);
      RangeDistinct(n - 1);
      forall i ensures multiset(Range(n))[i] <= 1 {
        assert n - 1 !in Range(n - 1);
      }
    }
  }

  function Through(f: real -> real, values: seq<real>): int -> real {
    (i: int) => f(Value(values, i))
  }

  lemma {:induction false} SumByIndex(values: seq<real>, f: real -> real, n: nat)
    requires n <= |values|
    ensures SumOf(Range(n), Through(f, values)) == SumOf(values[..n], f)
  {
    if n > 0 {
      SumByIndex(values, f, n - 1);
      RangeStep(n - 1);
      SumSnoc(Range(n - 1), n - 1, Through(f, values));
      assert values[..n] == values[..n - 1] + [values[n - 1]];
      SumSnoc(values[..n - 1], values[n - 1], f);
      assert Through(f, values)(n - 1) == f(Value(values, n - 1));
    }
  }

  lemma SumByOrder(values: seq<real>, f: real -> real)
    ensures SumOf(values, f) == SumOf(Order(values), Through(f, values))
  {
    hide SumOf;
    SumByIndex(values, f, |values|);
    assert values[..|values|] == values;
    SumPermutation(Range(|values|), Order(values), Through(f, values));
  }

  /** A sum that counts the elements of the middle part of a list. */
  lemma SumWindow(before: seq<int>, window: seq<int>, after: seq<int>, h: int -> real)
    requires forall k :: 0 <= k < |before| ==> h(before[k]) == 0.0
    requires forall k :: 0 <= k < |window| ==> h(window[k]) == 1.0
    requires forall k :: 0 <= k < |after| ==> h(after[k]) == 0.0
    ensures SumOf(before + window + after, h) == |window| as real
  {
    hide SumOf;
    SumConcat(before + window, after, h);
    SumConcat(before, window, h);
    SumZeros(before, h);
    SumOnes(window, h);
    SumZeros(after, h);
  }

  predicate Arranged(values: seq<real>, order: seq<int>) {
    |order| == |values|
    && (forall k :: 0 <= k < |order| ==> 0 <= order[k] < |values|)
    && (forall j, k :: 0 <= j < k < |order| ==> values[order[j]] <= values[order[k]])
  }

  /** A maximal run of equal values in sorted order: its members share the middle of its ranks. */
  lemma TieGroupRank(values: seq<real>, order: seq<int>, p: nat, e: nat)
    requires order == Order(values) && Arranged(values, order) && p <= e < |order|
    requires values[order[p]] == values[order[e]]
    requires p > 0 ==> values[order[p - 1]] < values[order[p]]
    requires e + 1 < |order| ==> values[order[e]] < values[order[e + 1]]
    ensures forall k :: p <= k <= e ==> Rank(values, values[order[k]]) == (p + e) as real / 2.0 + 1.0
  {
    hide Order, Rank;
    var x := values[order[p]];
    RankFromSegments(values, order, p, e, x);
    forall k | p <= k <= e ensures values[order[k]] == x {
    }
  }

  lemma RankFromSegments(values: seq<real>, order: seq<int>, p: nat, e: nat, x: real)
    requires p <= e < |order| && order == Order(values)
    requires forall k :: 0 <= k < p ==> Value(values, order[k]) < x
    requires forall k :: p <= k < e + 1 ==> Value(values, order[k]) == x
    requires forall k :: e + 1 <= k < |order| ==> Value(values, order[k]) > x
    ensures Rank(values, x) == (p + e) as real / 2.0 + 1.0
  {
    hide SumOf, Order, Value;
    SumByOrder(values, Below(x));
    SumByOrder(values, Same(x));
    var before, window, after := order[..p], order[p..e + 1], order[e + 1..];
    assert order == [] + before + (window + after);
    SumWindow([], before, window + after, Through(Below(x), values));
    assert order == before + window + after;
    SumWindow(before, window, after, Through(Same(x), values));
  }

  // ---------------------------------------------------------------------------------------
  // What ranks mean
  // ---------------------------------------------------------------------------------------

  /** Ranks order exactly as the values do. */
  lemma RankPreservesOrder(values: seq<real>, x: real, y: real)
    requires x in values && y in values
    ensures x < y <==> Rank(values, x) < Rank(values, y)
    ensures x == y <==> Rank(values, x) == Rank(values, y)
  {
    if x < y {
      RankIncreases(values, x, y);
    } else if y < x {
      RankIncreases(values, y, x);
    }
  }

  lemma RankIncreases(values: seq<real>, x: real, y: real)
    requires x in values && y in values && x < y
    ensures Rank(values, x) < Rank(values, y)
  {
    hide SumOf;
    forall z ensures AtMost(x)(z) == Below(x)(z) + Same(x)(z) && AtMost(x)(z) <= Below(y)(z) {
    }
    hide Below, Same, AtMost;
    SumAdd(values, Below(x), Same(x), AtMost(x));
    SumMonotone(values, AtMost(x), Below(y));
    TiesWithItself(values, x);
    TiesWithItself(values, y);
  }

  lemma TiesWithItself(values: seq<real>, x: real)
    requires x in values
    ensures SumOf(values, Same(x)) > 0.0
  {
    forall z ensures 0.0 <= Same(x)(z) {
    }
    assert Same(x)(x) == 1.0;
    SumNonNegative(values, Same(x));
  }

  function RankOf(values: seq<real>): real -> real { (x: real) => Rank(values, x) }

  function CountBelow(values: seq<real>): real -> real { (x: real) => SumOf(values, Below(x)) }

  function CountAbove(values: seq<real>): real -> real { (x: real) => SumOf(values, Above(x)) }

  function CountSame(values: seq<real>): real -> real { (x: real) => SumOf(values, Same(x)) }

  lemma BelowBalancesAbove(values: seq<real>)
    ensures SumOf(values, CountBelow(values)) == SumOf(values, CountAbove(values))
  {
    var f := (x: real, y: real) => if y < x then 1.0 else 0.0;
    forall x ensures CountBelow(values)(x) == SumOf(values, Right(f, x)) {
      SumCongruent(values, Below(x), Right(f, x));
    }
    forall y ensures CountAbove(values)(y) == SumOf(values, Left(f, y)) {
      SumCongruent(values, Above(y), Left(f, y));
    }
    hide SumOf;
    SumSwap(values, values, f, CountBelow(values), CountAbove(values));
  }

  /** The ranks of a series of n values sum to n (n + 1) / 2, ties or not. */
  lemma RankSum(values: seq<real>)
    ensures SumOf(values, RankOf(values)) == |values| as real * (|values| as real + 1.0) / 2.0
  {
    BelowBalancesAbove(values);
    PairCount(values);
    RankSumParts(values);
    hide SumOf;
    SquareAsProduct(|values| as real, SumOf(values, CountBelow(values)) + SumOf(values, CountAbove(values))
                                      + SumOf(values, CountSame(values)));
  }

  function CountApart(values: seq<real>): real -> real {
    (x: real) => CountBelow(values)(x) + CountAbove(values)(x)
  }

  function Everything(values: seq<real>): real -> real { (x: real) => |values| as real }

  lemma ApartOrSame(values: seq<real>, x: real)
    ensures Everything(values)(x) == CountApart(values)(x) + CountSame(values)(x)
  {
    TrichotomyCount(values, x);
  }

  lemma AddApart(values: seq<real>)
    ensures SumOf(values, CountApart(values)) == SumOf(values, CountBelow(values)) + SumOf(values, CountAbove(values))
  {
    hide SumOf, CountBelow, CountAbove;
    SumAdd(values, CountBelow(values), CountAbove(values), CountApart(values));
  }

  lemma AddEverything(values: seq<real>)
    ensures SumOf(values, Everything(values)) == |values| as real * |values| as real
  {
    hide SumOf;
    SumConstant(values, |values| as real, Everything(values));
  }

  /** Of the n * n ordered pairs, each is below, above or tied. */
  lemma PairCount(values: seq<real>)
    ensures SumOf(values, CountBelow(values)) + SumOf(values, CountAbove(values)) + SumOf(values, CountSame(values))
         == |values| as real * |values| as real
  {
    hide *;
    forall x: real ensures Everything(values)(x) == CountApart(values)(x) + CountSame(values)(x) {
      ApartOrSame(values, x);
    }
    SumAdd(values, CountApart(values), CountSame(values), Everything(values));
    AddApart(values);
    AddEverything(values);
  }

  lemma SquareAsProduct(n: real, total: real)
    requires total == n * n
    ensures n * (n + 1.0) / 2.0 == total / 2.0 + n / 2.0
  {
  }

  lemma RankSumParts(values: seq<real>)
    ensures SumOf(values, RankOf(values))
         == SumOf(values, CountBelow(values)) + SumOf(values, CountSame(values)) / 2.0 + |values| as real / 2.0
  {
    hide SumOf;
    var half := (x: real) => 0.5;
    SumConstant(values, 0.5, half);
    var tie := (x: real) => 0.5 * CountSame(values)(x) + 0.5;
    SumLinear(values, 0.5, CountSame(values), 1.0, half, tie);
    SumLinear(values, 1.0, CountBelow(values), 1.0, tie, RankOf(values));
  }

  function Above(x: real): real -> real { (y: real) => if y > x then 1.0 else 0.0 }

  lemma TrichotomyCount(values: seq<real>, x: real)
    ensures CountBelow(values)(x) + CountAbove(values)(x) + CountSame(values)(x) == |values| as real
  {
    hide SumOf;
    var either := (y: real) => if y != x then 1.0 else 0.0;
    var always := (y: real) => 1.0;
    SumAdd(values, Below(x), Above(x), either);
    SumAdd(values, either, Same(x), always);
    SumConstant(values, 1.0, always);
  }

  // ---------------------------------------------------------------------------------------
  // The correlation
  // ---------------------------------------------------------------------------------------

  function Deviation(xs: seq<real>): int -> real
    requires xs != []
  {
    var mean := Measures.MeanOf(xs);
    (i: int) => Value(xs, i) - mean
  }

  function Covariance(left: seq<real>, right: seq<real>): real
    requires |left| == |right| > 0
  {
    Dot(Range(|left|), Deviation(left), Deviation(right))
  }

  /** The sum of squared deviations, whose root the program calls the spread. */
  function Variation(xs: seq<real>): real
    requires xs != []
  {
    SumSq(Range(|xs|), Deviation(xs))
  }

  function Pearson(left: seq<real>, right: seq<real>, root: real -> real): Option<real>
    requires |left| == |right| > 0
  {
    var spreadLeft, spreadRight := root(Variation(left)), root(Variation(right));
    if spreadLeft == 0.0 || spreadRight == 0.0 then None
    else Some(Quotient(Covariance(left, right), spreadLeft, spreadRight))
  }

  function Quotient(covariance: real, spreadLeft: real, spreadRight: real): real
    requires spreadLeft != 0.0 && spreadRight != 0.0
  {
    SpreadsNonZero(spreadLeft, spreadRight, spreadLeft * spreadRight);
    covariance / (spreadLeft * spreadRight)
  }

  lemma SpreadsNonZero(x: real, y: real, product: real)
    requires x != 0.0 && y != 0.0 && product == x * y
    ensures product != 0.0
  {
    if x > 0.0 {
      NonZeroProduct(x, y);
    } else {
      NonZeroProduct(-x, y);
    }
  }

  function Rho(author: seq<real>, jury: seq<real>, root: real -> real): Option<real>
    requires |author| == |jury|
  {
    if |author| < MINIMUM_PAIRS || !HasVariance(author) || !HasVariance(jury) then None
    else Pearson(Ranks(author), Ranks(jury), root)
  }

  method SpearmanRho(author: seq<real>, jury: seq<real>, root: real -> real) returns (r: Result<Option<real>>)
    ensures r == if |author| != |jury| then ValueError else Ok(Rho(author, jury, root))
  {
    if |author| != |jury| {
      return ValueError;
    }
    if |author| < MINIMUM_PAIRS || !HasVariance(author) || !HasVariance(jury) {
      return Ok(None);
    }
    hide Pearson, Rank;
    var left := AverageRanks(author);
    var right := AverageRanks(jury);
    return Ok(Pearson(left, right, root));
  }

  /** A series that varies has ranks that vary: the spread of its ranks is never zero. */
  lemma RanksVary(values: seq<real>)
    requires HasVariance(values)
    ensures Variation(Ranks(values)) > 0.0
  {
    hide Rank, SumOf, Measures.MeanOf, Range, SumSq;
    var ranks := Ranks(values);
    var i, j :| 0 <= i < j < |values| && values[i] != values[j];
    RankPreservesOrder(values, values[i], values[j]);
    SumSqZero(Range(|ranks|), Deviation(ranks));
    assert Deviation(ranks)(i) == ranks[i] - Measures.MeanOf(ranks) && Deviation(ranks)(j) == ranks[j] - Measures.MeanOf(ranks);
    assert Range(|ranks|)[i] in Range(|ranks|) && Range(|ranks|)[j] in Range(|ranks|);
  }

  lemma PearsonDefined(left: seq<real>, right: seq<real>, root: real -> real)
    requires |left| == |right| > 0 && IsSquareRoot(root) && Variation(left) > 0.0 && Variation(right) > 0.0
    ensures Pearson(left, right, root).Some?
  {
    RootPositive(root, Variation(left));
    RootPositive(root, Variation(right));
    hide Variation, Covariance, Quotient;
  }

  predicate Constant(values: seq<real>) { forall i, j :: 0 <= i < j < |values| ==> values[i] == values[j] }

  /** The correlation is undefined exactly when there are fewer than two pairs or a series is
      constant; the zero-spread exit of the correlation itself is never taken. */
  lemma RhoUndefined(author: seq<real>, jury: seq<real>, root: real -> real)
    requires |author| == |jury| && IsSquareRoot(root)
    ensures Rho(author, jury, root).None? <==> |author| < 2 || Constant(author) || Constant(jury)
  {
    assert |author| >= 2 ==> (Constant(author) <==> !HasVariance(author)) && (Constant(jury) <==> !HasVariance(jury));
    hide Pearson, HasVariance, Ranks, Variation;
    if |author| >= MINIMUM_PAIRS && HasVariance(author) && HasVariance(jury) {
      RanksVary(author);
      RanksVary(jury);
      PearsonDefined(Ranks(author), Ranks(jury), root);
    }
  }

  /** cov^2 <= spread^2 * spread^2, so the correlation lies in [-1, 1]. */
  lemma RhoRange(author: seq<real>, jury: seq<real>, root: real -> real)
    requires |author| == |jury| && IsSquareRoot(root) && Rho(author, jury, root).Some?
    ensures -1.0 <= Rho(author, jury, root).value <= 1.0
  {
    var left, right := Ranks(author), Ranks(jury);
    RanksVary(author);
    RanksVary(jury);
    CauchySchwarz(Range(|left|), Deviation(left), Deviation(right));
    RootPositive(root, Variation(left));
    RootPositive(root, Variation(right));
    CorrelationBound(Covariance(left, right), Variation(left), Variation(right), root(Variation(left)), root(Variation(right)));
    hide Variation, Covariance, Quotient, HasVariance, Ranks;
  }

  lemma CorrelationBound(c: real, a: real, b: real, x: real, y: real)
    requires x > 0.0 && y > 0.0 && Sq(x) == a && Sq(y) == b && Sq(c) <= Times(a, b)
    ensures -1.0 <= Quotient(c, x, y) <= 1.0
  {
    var q := Quotient(c, x, y);
    PositiveProduct(x, y, x * y);
    assert c == q * (x * y);
    assert Sq(x * y) == Times(a, b);
    SquareOrder(c, x * y);
    if q > 1.0 {
      PositiveProduct(q - 1.0, x * y, (q - 1.0) * (x * y));
    } else if q < -1.0 {
      PositiveProduct(-1.0 - q, x * y, (-1.0 - q) * (x * y));
    }
  }

  // ---------------------------------------------------------------------------------------
  // The correlation in terms of the ranks
  // ---------------------------------------------------------------------------------------

  lemma {:induction false} RanksTotal(values: seq<real>, among: seq<real>)
    ensures SumOf(values, RankOf(among)) == SumOf(RanksIn(values, among), Identity)
  {
    hide Rank;
    if values != [] {
      var n := |values| - 1;
      RanksTotal(values[..n], among);
      assert RanksIn(values, among)[..n] == RanksIn(values[..n], among);
    }
  }

  function RanksIn(values: seq<real>, among: seq<real>): (ranks: seq<real>)
    ensures |ranks| == |values| && forall i :: 0 <= i < |values| ==> ranks[i] == Rank(among, values[i])
  {
    seq(|values|, i requires 0 <= i < |values| => Rank(among, values[i]))
  }

  function Middle(n: nat): real { (n as real + 1.0) / 2.0 }

  /** Ranks have the mean (n + 1) / 2, ties or not. */
  lemma RankMean(values: seq<real>)
    requires values != []
    ensures Measures.MeanOf(Ranks(values)) == Middle(|values|)
  {
    hide Rank;
    RankSum(values);
    RanksTotal(values, values);
    assert RanksIn(values, values) == Ranks(values);
    hide SumOf, Ranks, RanksIn;
    Measures.MeanTimesSize(Ranks(values));
    hide Measures.MeanOf;
    TotalIs(Ranks(values));
    HalfOf(Measures.MeanOf(Ranks(values)), |values| as real);
  }

  lemma TotalIs(values: seq<real>)
    ensures Measures.Total(values) == SumOf(values, Identity)
  {
  }

  lemma HalfOf(mean: real, n: real)
    requires n > 0.0
    ensures mean * n == n * (n + 1.0) / 2.0 ==> mean == (n + 1.0) / 2.0
  {
    if mean * n == n * (n + 1.0) / 2.0 {
      Cancel(mean, (n + 1.0) / 2.0, n);
    }
  }

  function FromPoint(ranks: seq<real>, m: real): int -> real { (i: int) => Value(ranks, i) - m }

  /** How far the i-th of n ranks lies from the middle one. */
  function FromMiddle(ranks: seq<real>): int -> real { FromPoint(ranks, Middle(|ranks|)) }

  lemma DeviationIs(values: seq<real>)
    requires values != []
    ensures forall i: int :: Deviation(Ranks(values))(i) == FromMiddle(Ranks(values))(i)
  {
    RankMean(values);
    hide Rank, Measures.MeanOf;
  }

  lemma {:induction false} DotCongruent<T>(xs: seq<T>, f: T -> real, f': T -> real, g: T -> real, g': T -> real)
    requires forall x :: f(x) == f'(x) && g(x) == g'(x)
    ensures Dot(xs, f, g) == Dot(xs, f', g') && SumSq(xs, f) == SumSq(xs, f')
  {
    if xs != [] {
      DotCongruent(xs[..|xs| - 1], f, f', g, g');
    }
  }

  /** The correlation, times the roots of the two sums of squared distances of the ranks from the middle one, is the sum of
      the products of these distances. */
  lemma RhoMeans(author: seq<real>, jury: seq<real>, root: real -> real)
    requires |author| == |jury| && IsSquareRoot(root) && Rho(author, jury, root).Some?
    ensures var left, right, places := FromMiddle(Ranks(author)), FromMiddle(Ranks(jury)), Range(|author|);
            Rho(author, jury, root).value * (root(SumSq(places, left)) * root(SumSq(places, right))) == Dot(places, left, right)
  {
    hide *;
    RhoIs(author, jury, root);
    CovarianceIs(author, jury);
    VariationIs(author);
    VariationIs(jury);
    QuotientBack(Covariance(Ranks(author), Ranks(jury)), root(Variation(Ranks(author))), root(Variation(Ranks(jury))));
  }

  lemma CovarianceIs(author: seq<real>, jury: seq<real>)
    requires |author| == |jury| > 0
    ensures Covariance(Ranks(author), Ranks(jury)) == Dot(Range(|author|), FromMiddle(Ranks(author)), FromMiddle(Ranks(jury)))
  {
    DeviationIs(author);
    DeviationIs(jury);
    hide Rank, Deviation, FromMiddle, Dot, Range;
    var left, right := Ranks(author), Ranks(jury);
    DotCongruent(Range(|author|), Deviation(left), FromMiddle(left), Deviation(right), FromMiddle(right));
  }

  lemma VariationIs(values: seq<real>)
    requires values != []
    ensures Variation(Ranks(values)) == SumSq(Range(|values|), FromMiddle(Ranks(values)))
  {
    DeviationIs(values);
    hide Rank, Deviation, FromMiddle, SumSq, Range;
    var ranks := Ranks(values);
    DotCongruent(Range(|values|), Deviation(ranks), FromMiddle(ranks), Deviation(ranks), FromMiddle(ranks));
  }

  lemma RhoIs(author: seq<real>, jury: seq<real>, root: real -> real)
    requires |author| == |jury| && Rho(author, jury, root).Some?
    ensures |author| >= 2
    ensures var x, y := root(Variation(Ranks(author))), root(Variation(Ranks(jury)));
            x != 0.0 && y != 0.0 && Rho(author, jury, root) == Some(Quotient(Covariance(Ranks(author), Ranks(jury)), x, y))
  {
    hide HasVariance, Ranks, Covariance, Variation, Quotient;
  }

  lemma QuotientBack(c: real, x: real, y: real)
    ensures x != 0.0 && y != 0.0 ==> Quotient(c, x, y) * (x * y) == c
  {
    if x != 0.0 && y != 0.0 {
      SpreadsNonZero(x, y, x * y);
    }
  }

  // ---------------------------------------------------------------------------------------
  // Without ties: the textbook formula
  // ---------------------------------------------------------------------------------------

  predicate NoTies(values: seq<real>) { forall i, j :: 0 <= i < j < |values| ==> values[i] != values[j] }

  /** The sum of (1 - m)^2, ..., (j - m)^2. */
  function SquaresTo(j: nat, m: real): real {
    var k := j as real;
    k * (k + 1.0) * (2.0 * k + 1.0) / 6.0 - m * k * (k + 1.0) + k * m * m
  }

  lemma SquaresStep(j: nat, m: real)
    ensures SquaresTo(j + 1, m) == SquaresTo(j, m) + Sq((j + 1) as real - m)
  {
    var k := j as real;
    assert (k + 1.0) * (k + 2.0) * (2.0 * k + 3.0) == k * (k + 1.0) * (2.0 * k + 1.0) + 6.0 * (k + 1.0) * (k + 1.0);
    assert Sq(k + 1.0 - m) == (k + 1.0) * (k + 1.0) - 2.0 * m * (k + 1.0) + m * m;
    assert m * (k + 1.0) * (k + 2.0) == m * k * (k + 1.0) + 2.0 * m * (k + 1.0);
  }

  /** The squared distance of a value's rank from m. */
  function RankGap(values: seq<real>, m: real): real -> real { (x: real) => Sq(Rank(values, x) - m) }

  lemma RankAt(values: seq<real>, order: seq<int>, k: nat)
    requires NoTies(values) && order == Order(values) && Arranged(values, order) && Reordering(order, |values|) && k < |order|
    ensures Rank(values, values[order[k]]) == (k + 1) as real
  {
    hide Order, Rank;
    if k > 0 {
      Apart(values, order, k - 1);
    }
    if k + 1 < |order| {
      Apart(values, order, k);
    }
    TieGroupRank(values, order, k, k);
  }

  lemma Apart(values: seq<real>, order: seq<int>, k: nat)
    requires NoTies(values) && Arranged(values, order) && Reordering(order, |values|) && k + 1 < |order|
    ensures values[order[k]] < values[order[k + 1]]
  {
    var a, b := order[k], order[k + 1];
    assert a != b;
    assert values[if a < b then a else b] != values[if a < b then b else a];
  }

  lemma {:induction false} GapsInOrder(values: seq<real>, order: seq<int>, m: real, j: nat)
    requires NoTies(values) && order == Order(values) && Arranged(values, order) && Reordering(order, |values|) && j <= |order|
    ensures SumOf(order[..j], Through(RankGap(values, m), values)) == SquaresTo(j, m)
  {
    hide Order, Rank, SquaresTo, Arranged, Reordering, NoTies;
    if j == 0 {
      NoSquares(m);
      assert order[..0] == [];
    } else {
      GapsInOrder(values, order, m, j - 1);
      assert order[..j] == order[..j - 1] + [order[j - 1]];
      SumSnoc(order[..j - 1], order[j - 1], Through(RankGap(values, m), values));
      hide SumOf;
      GapAt(values, order, m, j - 1);
      SquaresStep(j - 1, m);
    }
  }

  lemma NoSquares(m: real)
    ensures SquaresTo(0, m) == 0.0
  {
  }

  lemma GapAt(values: seq<real>, order: seq<int>, m: real, k: nat)
    requires NoTies(values) && order == Order(values) && Arranged(values, order) && Reordering(order, |values|) && k < |order|
    ensures Through(RankGap(values, m), values)(order[k]) == Sq((k + 1) as real - m)
  {
    RankAt(values, order, k);
    hide Order, Rank, Sq;
  }

  lemma RangeOfValues(values: seq<real>, m: real)
    ensures SumOf(values, RankGap(values, m)) == SumSq(Range(|values|), FromPoint(Ranks(values), m))
  {
    hide Rank;
    GapsOf(values, m, |values|);
    assert values[..|values|] == values;
  }

  lemma SumSqRange(n: nat, f: int -> real)
    ensures SumSq(Range(0), f) == 0.0
    ensures n > 0 ==> SumSq(Range(n), f) == SumSq(Range(n - 1), f) + Sq(f(n - 1))
  {
    hide Sq;
    if n > 0 {
      assert Range(n)[..n - 1] == Range(n - 1);
    }
  }

  lemma GapHere(values: seq<real>, m: real, i: nat)
    requires i < |values|
    ensures RankGap(values, m)(values[i]) == Sq(FromPoint(Ranks(values), m)(i))
  {
    hide Rank, Sq;
  }

  lemma {:induction false} GapsOf(values: seq<real>, m: real, n: nat)
    requires n <= |values|
    ensures SumOf(values[..n], RankGap(values, m)) == SumSq(Range(n), FromPoint(Ranks(values), m))
  {
    hide SumSq, RankGap, FromPoint, Ranks, Sq, Range;
    SumSqRange(n, FromPoint(Ranks(values), m));
    if n == 0 {
      assert values[..0] == [];
    } else {
      GapsOf(values, m, n - 1);
      assert values[..n] == values[..n - 1] + [values[n - 1]];
      SumSnoc(values[..n - 1], values[n - 1], RankGap(values, m));
      hide SumOf;
      GapHere(values, m, n - 1);
    }
  }

  lemma {:induction false} Polarize<T>(xs: seq<T>, f: T -> real, g: T -> real, d: T -> real)
    requires forall x :: d(x) == f(x) - g(x)
    ensures 2.0 * Dot(xs, f, g) == SumSq(xs, f) + SumSq(xs, g) - SumSq(xs, d)
  {
    if xs != [] {
      var n := |xs| - 1;
      Polarize(xs[..n], f, g, d);
      SquareOfGap(f(xs[n]), g(xs[n]));
      hide Sq;
    }
  }

  lemma SquareOfGap(x: real, y: real)
    ensures 2.0 * (x * y) == Sq(x) + Sq(y) - Sq(x - y)
  {
  }

  /** The distance between the two ranks at a place. */
  function RankDifference(left: seq<real>, right: seq<real>): int -> real {
    (i: int) => Value(left, i) - Value(right, i)
  }

  function Twelfth(n: nat): real {
    var k := n as real;
    k * (k * k - 1.0) / 12.0
  }

  lemma SquaresAtMiddle(n: nat)
    ensures SquaresTo(n, Middle(n)) == Twelfth(n)
  {
    var k := n as real;
    var m := (k + 1.0) / 2.0;
    assert m * k * (k + 1.0) == k * (k + 1.0) * (k + 1.0) / 2.0;
    assert k * m * m == k * (k + 1.0) * (k + 1.0) / 4.0;
    assert k * (k + 1.0) * (2.0 * k + 1.0) / 6.0 - k * (k + 1.0) * (k + 1.0) / 4.0 == k * (k * k - 1.0) / 12.0;
  }

  /** The ranks of values without ties vary by n (n^2 - 1) / 12. */
  lemma VariationWithoutTies(values: seq<real>)
    requires NoTies(values)
    ensures SumSq(Range(|values|), FromMiddle(Ranks(values))) == Twelfth(|values|)
  {
    hide Rank, SumOf, SumSq, Order, Twelfth, SquaresTo, NoTies, Range;
    var m, order := Middle(|values|), Order(values);
    OrderIsPermutation(values);
    SumByOrder(values, RankGap(values, m));
    GapsInOrder(values, order, m, |order|);
    assert order[..|order|] == order;
    SquaresAtMiddle(|values|);
    RangeOfValues(values, m);
  }

  lemma RootSquared(root: real -> real, x: real)
    requires IsSquareRoot(root) && x >= 0.0
    ensures root(x) * root(x) == x
  {
  }

  /** Without ties the coefficient is 1 - 6 sum d^2 / (n (n^2 - 1)), d the differences of the ranks. */
  lemma RhoWithoutTies(author: seq<real>, jury: seq<real>, root: real -> real)
    requires |author| == |jury| && IsSquareRoot(root) && Rho(author, jury, root).Some? && NoTies(author) && NoTies(jury)
    ensures var n := |author| as real;
            (1.0 - Rho(author, jury, root).value) * (n * (n * n - 1.0)) ==
            6.0 * SumSq(Range(|author|), RankDifference(Ranks(author), Ranks(jury)))
  {
    hide *;
    RhoIs(author, jury, root);
    RhoMeans(author, jury, root);
    VariationWithoutTies(author);
    VariationWithoutTies(jury);
    DifferencesOf(author, jury);
    TwelfthIs(|author|);
    RootSquared(root, Twelfth(|author|));
    LastStep(Rho(author, jury, root).value, root(Twelfth(|author|)), Twelfth(|author|),
             Dot(Range(|author|), FromMiddle(Ranks(author)), FromMiddle(Ranks(jury))),
             SumSq(Range(|author|), RankDifference(Ranks(author), Ranks(jury))));
  }

  lemma DifferencesOf(author: seq<real>, jury: seq<real>)
    requires |author| == |jury|
    ensures var places, left, right := Range(|author|), Ranks(author), Ranks(jury);
            2.0 * Dot(places, FromMiddle(left), FromMiddle(right)) ==
            SumSq(places, FromMiddle(left)) + SumSq(places, FromMiddle(right)) - SumSq(places, RankDifference(left, right))
  {
    hide Rank, Dot, SumSq, Range, Value;
    var places, left, right := Range(|author|), Ranks(author), Ranks(jury);
    forall i: int ensures RankDifference(left, right)(i) == FromMiddle(left)(i) - FromMiddle(right)(i) {
    }
    Polarize(places, FromMiddle(left), FromMiddle(right), RankDifference(left, right));
  }

  lemma TwelfthIs(n: nat)
    requires n >= 2
    ensures var k := n as real; Twelfth(n) >= 0.0 && 12.0 * Twelfth(n) == k * (k * k - 1.0)
  {
    var k := n as real;
    NonNegativeProduct(k, k);
    NonNegativeProduct(k - 1.0, k + 1.0);
    NonNegativeProduct(k, k * k - 1.0);
  }

  lemma LastStep(rho: real, r: real, v: real, dot: real, d: real)
    requires r * r == v && rho * (r * r) == dot && 2.0 * dot == v + v - d
    ensures (1.0 - rho) * (12.0 * v) == 6.0 * d
  {
  }

  // ---------------------------------------------------------------------------------------
  // Only the order of the grades matters
  // ---------------------------------------------------------------------------------------

  function Relabel(g: real -> real, values: seq<real>): (relabelled: seq<real>)
    ensures |relabelled| == |values| && forall i :: 0 <= i < |values| ==> relabelled[i] == g(values[i])
  {
    seq(|values|, i requires 0 <= i < |values| => g(values[i]))
  }

  predicate IncreasingOn(g: real -> real, values: seq<real>) {
    forall x, y :: x in values && y in values && x < y ==> g(x) < g(y)
  }

  lemma {:induction false} SumRelabelled(g: real -> real, values: seq<real>, f: real -> real, f': real -> real)
    requires forall x :: x in values ==> f'(g(x)) == f(x)
    ensures SumOf(Relabel(g, values), f') == SumOf(values, f)
  {
    if values != [] {
      var n := |values| - 1;
      SumRelabelled(g, values[..n], f, f');
      var r := Relabel(g, values);
      assert r[..|r| - 1] == Relabel(g, values[..n]) && values[..|values| - 1] == values[..n];
      var x := values[n];
      assert x in values;
      assert r[n] == g(x);
      assert f'(g(x)) == f(x);
    }
  }

  lemma RankRelabelled(g: real -> real, values: seq<real>, x: real)
    requires IncreasingOn(g, values) && x in values
    ensures Rank(Relabel(g, values), g(x)) == Rank(values, x)
  {
    hide SumOf, Relabel;
    SumRelabelled(g, values, Below(x), Below(g(x)));
    SumRelabelled(g, values, Same(x), Same(g(x)));
  }

  lemma VarianceRelabelled(g: real -> real, values: seq<real>)
    requires IncreasingOn(g, values)
    ensures HasVariance(Relabel(g, values)) <==> HasVariance(values)
  {
    var relabelled := Relabel(g, values);
    forall i, j | 0 <= i < j < |values| ensures relabelled[i] != relabelled[j] <==> values[i] != values[j] {
      assert values[i] in values && values[j] in values;
    }
  }

  lemma RanksRelabelled(g: real -> real, values: seq<real>)
    requires IncreasingOn(g, values)
    ensures Ranks(Relabel(g, values)) == Ranks(values)
    ensures HasVariance(Relabel(g, values)) <==> HasVariance(values)
  {
    hide Rank;
    var relabelled := Relabel(g, values);
    forall i | 0 <= i < |values| ensures Rank(relabelled, relabelled[i]) == Rank(values, values[i]) {
      RankRelabelled(g, values, values[i]);
    }
    VarianceRelabelled(g, values);
  }

  /** The correlation is unchanged by any strictly increasing relabelling of either series. */
  lemma RhoOrderOnly(author: seq<real>, jury: seq<real>, g: real -> real, h: real -> real, root: real -> real)
    requires |author| == |jury| && IncreasingOn(g, author) && IncreasingOn(h, jury)
    ensures Rho(Relabel(g, author), Relabel(h, jury), root) == Rho(author, jury, root)
  {
    RanksRelabelled(g, author);
    RanksRelabelled(h, jury);
    hide Pearson, HasVariance, Ranks;
  }

  /** A jury that orders every pair of samples as the author does, however generously, scores 1. */
  lemma RhoOfSameOrder(author: seq<real>, g: real -> real, root: real -> real)
    requires IncreasingOn(g, author) && HasVariance(author) && IsSquareRoot(root)
    ensures Rho(author, Relabel(g, author), root) == Some(1.0)
  {
    var ranks := Ranks(author);
    RanksRelabelled(g, author);
    RanksVary(author);
    RootPositive(root, Variation(ranks));
    DotWithItself(Range(|ranks|), Deviation(ranks));
    var spread := root(Variation(ranks));
    assert Sq(spread) == Variation(ranks) == Covariance(ranks, ranks);
    SquareQuotient(Covariance(ranks, ranks), spread);
    hide Variation, Covariance, Ranks, HasVariance, Quotient, IncreasingOn;
    hide Sq;
  }

  lemma SquareQuotient(c: real, x: real)
    requires x > 0.0 && Sq(x) == c
    ensures Quotient(c, x, x) == 1.0
  {
    var d := x * x;
    PositiveProduct(x, x, d);
    assert c == d;
    assert c / d == 1.0;
  }

  lemma {:induction false} DotWithItself(xs: seq<int>, f: int -> real)
    ensures Dot(xs, f, f) == SumSq(xs, f)
  {
    if xs != [] {
      DotWithItself(xs[..|xs| - 1], f);
    }
  }
}
