/** Quadratic-weighted Cohen's kappa: the table-driven computation of
    src/freeweight/domain/agreement.py, proved equal to a closed form over the pairs. */
module WeightedKappa {
  import opened Agreement
  import opened Results
  import opened Sums

  datatype Pair = Pair(author: int, jury: int)

  function Author(p: Pair): real { p.author as real }

  function Jury(p: Pair): real { p.jury as real }

  predicate OnScale(grades: seq<int>, scalePoints: int) {
    forall g :: g in grades ==> 1 <= g <= scalePoints
  }

  predicate PairsOnScale(pairs: seq<Pair>, size: nat) {
    forall p :: p in pairs ==> 1 <= p.author <= size && 1 <= p.jury <= size
  }

  function Zip(author: seq<int>, jury: seq<int>): (pairs: seq<Pair>)
    requires |author| == |jury|
    ensures |pairs| == |author|
    ensures forall i :: 0 <= i < |pairs| ==> pairs[i] == Pair(author[i], jury[i])
  {
    seq(|author|, i requires 0 <= i < |author| => Pair(author[i], jury[i]))
  }

  // ---------------------------------------------------------------------------------------
  // The reference definition: no table, no weights, no scale
  // ---------------------------------------------------------------------------------------

  function SquaredGap(p: Pair): real { Sq(Author(p) - Jury(p)) }

  /** The squared disagreement between the two grades of each pair, summed. */
  function Observed(pairs: seq<Pair>): real {
    SumOf(pairs, SquaredGap)
  }

  /** The squared disagreement between every author grade and every jury grade, summed. */
  function Expected(pairs: seq<Pair>): real {
    CrossSquares(pairs, Author, pairs, Jury)
  }

  /** kappa = 1 - n * (sum over i of (a_i - b_i)^2) / (sum over i, j of (a_i - b_j)^2). */
  function Kappa(pairs: seq<Pair>): Option<real> {
    Coefficient(|pairs|, Observed(pairs), Expected(pairs))
  }

  function Coefficient(n: nat, observed: real, expected: real): Option<real> {
    if n < MINIMUM_PAIRS || expected == 0.0 then None
    else Some(1.0 - Disagreement(n as real, observed, expected))
  }

  function Disagreement(n: real, observed: real, expected: real): real
    requires expected != 0.0
  {
    n * observed / expected
  }

  // ---------------------------------------------------------------------------------------
  // The computation
  // ---------------------------------------------------------------------------------------

  type Matrix = seq<seq<real>>

  predicate Square(m: Matrix, size: nat) {
    |m| == size && forall r :: 0 <= r < size ==> |m[r]| == size
  }

  function Cell(m: Matrix, row: int, column: int): real {
    if 0 <= row < |m| && 0 <= column < |m[row]| then m[row][column] else 0.0
  }

  function Weight(size: nat, row: int, column: int): real
    requires size >= 2
  {
    Sq(row as real - column as real) / Sq(size as real - 1.0)
  }

  function RowTotal(observed: Matrix, size: nat, row: int): real {
    SumOf(Range(size), (column: int) => Cell(observed, row, column))
  }

  function ColumnTotal(observed: Matrix, size: nat, column: int): real {
    SumOf(Range(size), (row: int) => Cell(observed, row, column))
  }

  function NumeratorTerm(observed: Matrix, size: nat, total: real, row: int): int -> real
    requires size >= 2 && total != 0.0
  {
    column => Weight(size, row, column) * Cell(observed, row, column) / total
  }

  function NumeratorRow(observed: Matrix, size: nat, total: real): int -> real
    requires size >= 2 && total != 0.0
  {
    row => SumOf(Range(size), NumeratorTerm(observed, size, total, row))
  }

  function DenominatorTerm(observed: Matrix, size: nat, total: real, row: int): int -> real
    requires size >= 2 && total != 0.0
  {
    column => Weight(size, row, column) * (RowTotal(observed, size, row) / total)
                * (ColumnTotal(observed, size, column) / total)
  }

  function DenominatorRow(observed: Matrix, size: nat, total: real): int -> real
    requires size >= 2 && total != 0.0
  {
    row => SumOf(Range(size), DenominatorTerm(observed, size, total, row))
  }

  /** Counting the pairs into the table, one cell increment per pair. */
  method Tabulate(author: seq<int>, jury: seq<int>, size: nat) returns (observed: Matrix)
    requires |author| == |jury| && OnScale(author, size) && OnScale(jury, size)
    ensures observed == Table(Zip(author, jury), size)
  {
    hide Sq, SumOf, Table;
    ghost var pairs := Zip(author, jury);
    observed := seq(size, _ => seq(size, _ => 0.0));
    TableEmpty(size, observed);
    assert pairs[..0] == [];
    for t := 0 to |author|
      invariant observed == Table(pairs[..t], size)
    {
      var left, right := author[t] - 1, jury[t] - 1;
      assert author[t] in author && jury[t] in jury;
      assert pairs[..t + 1] == pairs[..t] + [Pair(author[t], jury[t])];
      TableStep(pairs[..t], Pair(author[t], jury[t]), size);
      observed := observed[left := observed[left][right := observed[left][right] + 1.0]];
    }
    assert pairs[..|author|] == pairs;
  }

  /** The agreement coefficient, computed through the k-by-k table of observed pairs. */
  method CohensKappaWeighted(author: seq<int>, jury: seq<int>, scalePoints: int)
    returns (r: Result<Option<real>>)
    ensures r.ValueError? <==> |author| != |jury| || scalePoints < 3
                               || exists g :: (g in author || g in jury) && !(1 <= g <= scalePoints)
    ensures r.Ok? ==> r.value == Kappa(Zip(author, jury))
  {
    hide Sq, SumOf, NumeratorRow, DenominatorRow, Table, Observed, Expected;
    if |author| != |jury| || scalePoints < 3 || !OnScale(author, scalePoints) || !OnScale(jury, scalePoints) {
      return ValueError;
    }
    if |author| < MINIMUM_PAIRS {
      return Ok(None);
    }
    var size: nat := scalePoints;
    var total := |author| as real;
    var observed := Tabulate(author, jury, size);
    var numerator := SumOf(Range(size), NumeratorRow(observed, size, total));
    var denominator := SumOf(Range(size), DenominatorRow(observed, size, total));
    forall p | p in Zip(author, jury) ensures 1 <= p.author <= size && 1 <= p.jury <= size {
      var i :| 0 <= i < |author| && p == Pair(author[i], jury[i]);
      assert author[i] in author && jury[i] in jury;
    }
    KappaFromTable(Zip(author, jury), size, numerator, denominator);
    if denominator == 0.0 {
      return Ok(None);
    }
    return Ok(Some(1.0 - numerator / denominator));
  }

  // ---------------------------------------------------------------------------------------
  // Summing over the table is summing over the pairs
  // ---------------------------------------------------------------------------------------

  function Hit(wanted: bool): real { if wanted then 1.0 else 0.0 }

  function IsCell(row: int, column: int): Pair -> real {
    (p: Pair) => Hit(p.author == row + 1 && p.jury == column + 1)
  }

  /** How many of the pairs fall in one cell. */
  function Count(pairs: seq<Pair>, row: int, column: int): real {
    SumOf(pairs, IsCell(row, column))
  }

  function Table(pairs: seq<Pair>, size: nat): (m: Matrix)
    ensures Square(m, size)
    ensures forall r, c :: 0 <= r < size && 0 <= c < size ==> m[r][c] == Count(pairs, r, c)
  {
    seq(size, (r: int) => seq(size, (c: int) => Count(pairs, r, c)))
  }

  lemma TableEmpty(size: nat, zeros: Matrix)
    requires Square(zeros, size) && forall r, c :: 0 <= r < size && 0 <= c < size ==> zeros[r][c] == 0.0
    ensures zeros == Table([], size)
  {
    forall r | 0 <= r < size ensures zeros[r] == Table([], size)[r] {
    }
  }

  lemma TableStep(pairs: seq<Pair>, p: Pair, size: nat)
    requires 1 <= p.author <= size && 1 <= p.jury <= size
    ensures var m, left, right := Table(pairs, size), p.author - 1, p.jury - 1;
            Table(pairs + [p], size) == m[left := m[left][right := m[left][right] + 1.0]]
  {
    var m, m', left, right := Table(pairs, size), Table(pairs + [p], size), p.author - 1, p.jury - 1;
    forall r, c | 0 <= r < size && 0 <= c < size
      ensures m'[r][c] == m[r][c] + if r == left && c == right then 1.0 else 0.0
    {
      SumSnoc(pairs, p, IsCell(r, c));
    }
    forall r | 0 <= r < size ensures m'[r] == m[left := m[left][right := m[left][right] + 1.0]][r] {
    }
  }

  function CellTerm(pairs: seq<Pair>, w: (int, int) -> real, row: int): int -> real {
    column => Count(pairs, row, column) * w(row, column)
  }

  function RowTerm(pairs: seq<Pair>, size: nat, w: (int, int) -> real): int -> real {
    row => SumOf(Range(size), CellTerm(pairs, w, row))
  }

  function PairTerm(w: (int, int) -> real): (int, Pair) -> real {
    (row: int, p: Pair) => if row == p.author - 1 then w(row, p.jury - 1) else 0.0
  }

  lemma RowTermIs(pairs: seq<Pair>, size: nat, w: (int, int) -> real, row: int)
    ensures RowTerm(pairs, size, w)(row) == SumOf(Range(size), CellTerm(pairs, w, row))
  {
    hide SumOf, CellTerm;
  }

  /** The weight of a cell of the row where the pair falls into it, and nothing elsewhere. */
  function OnCell(w: (int, int) -> real, row: int): (int, Pair) -> real {
    (column: int, p: Pair) => Hit(p.author == row + 1 && p.jury == column + 1) * w(row, column)
  }

  lemma CellByPairs(pairs: seq<Pair>, w: (int, int) -> real, row: int, column: int)
    ensures CellTerm(pairs, w, row)(column) == SumOf(pairs, Right(OnCell(w, row), column))
  {
    hide SumOf;
    SumScaled(pairs, w(row, column), IsCell(row, column), Right(OnCell(w, row), column));
  }

  lemma OnScalePair(pairs: seq<Pair>, size: nat, p: Pair)
    requires PairsOnScale(pairs, size) && p in pairs
    ensures 1 <= p.author <= size && 1 <= p.jury <= size
  {
  }

  lemma HitTimes(wanted: bool, x: real)
    ensures Hit(wanted) * x == if wanted then x else 0.0
  {
  }

  lemma PointOfPair(size: nat, w: (int, int) -> real, row: int, p: Pair)
    requires 1 <= p.author <= size && 1 <= p.jury <= size
    ensures Right(PairTerm(w), row)(p) == SumOf(Range(size), Left(OnCell(w, row), p))
  {
    hide SumOf;
    forall i: int ensures Left(OnCell(w, row), p)(i) == if p.author == row + 1 && p.jury == i + 1 then w(row, i) else 0.0 {
      HitTimes(p.author == row + 1 && p.jury == i + 1, w(row, i));
    }
    PointSum(size, p.jury - 1, Left(OnCell(w, row), p));
  }

  lemma RowTermByPairs(pairs: seq<Pair>, size: nat, w: (int, int) -> real, row: int)
    requires PairsOnScale(pairs, size)
    ensures RowTerm(pairs, size, w)(row) == SumOf(pairs, Right(PairTerm(w), row))
  {
    hide *;
    forall column: int ensures CellTerm(pairs, w, row)(column) == SumOf(pairs, Right(OnCell(w, row), column)) {
      CellByPairs(pairs, w, row, column);
    }
    forall p: Pair | p in pairs ensures Right(PairTerm(w), row)(p) == SumOf(Range(size), Left(OnCell(w, row), p)) {
      OnScalePair(pairs, size, p);
      PointOfPair(size, w, row, p);
    }
    RowTermIs(pairs, size, w, row);
    SumSwap(Range(size), pairs, OnCell(w, row), CellTerm(pairs, w, row), Right(PairTerm(w), row));
  }

  /** A weighted sum over the whole table equals the sum of each pair's own weight. */
  lemma TableSum(pairs: seq<Pair>, size: nat, w: (int, int) -> real, point: Pair -> real)
    requires PairsOnScale(pairs, size)
    requires forall p :: p in pairs ==> point(p) == w(p.author - 1, p.jury - 1)
    ensures SumOf(Range(size), RowTerm(pairs, size, w)) == SumOf(pairs, point)
  {
    forall row ensures RowTerm(pairs, size, w)(row) == SumOf(pairs, Right(PairTerm(w), row)) {
      RowTermByPairs(pairs, size, w, row);
    }
    forall p | p in pairs ensures point(p) == SumOf(Range(size), Left(PairTerm(w), p)) {
      PointSum(size, p.author - 1, Left(PairTerm(w), p));
    }
    SumSwap(Range(size), pairs, PairTerm(w), RowTerm(pairs, size, w), point);
  }

  function KeyIs(key: Pair -> int, i: int): Pair -> real {
    p => Hit(key(p) == i + 1)
  }

  function AuthorGrade(p: Pair): int { p.author }

  function JuryGrade(p: Pair): int { p.jury }

  lemma RowTotals(pairs: seq<Pair>, size: nat, row: int)
    requires PairsOnScale(pairs, size) && 0 <= row < size
    ensures RowTotal(Table(pairs, size), size, row) == SumOf(pairs, KeyIs(AuthorGrade, row))
  {
    var f := (column: int, p: Pair) => Hit(p.author == row + 1 && p.jury == column + 1);
    var total := (column: int) => Cell(Table(pairs, size), row, column);
    forall column | 0 <= column < size ensures total(column) == SumOf(pairs, Right(f, column)) {
      SumCongruent(pairs, IsCell(row, column), Right(f, column));
    }
    forall p | p in pairs ensures KeyIs(AuthorGrade, row)(p) == SumOf(Range(size), Left(f, p)) {
      assert forall i :: Left(f, p)(i) == Hit(p.author == row + 1 && p.jury == i + 1);
      PointSum(size, p.jury - 1, Left(f, p));
      assert AuthorGrade(p) == p.author;
      assert KeyIs(AuthorGrade, row)(p) == Hit(p.author == row + 1);
    }
    SumSwap(Range(size), pairs, f, total, KeyIs(AuthorGrade, row));
    SumCongruent(Range(size), total, (column: int) => Cell(Table(pairs, size), row, column));
  }

  lemma ColumnTotals(pairs: seq<Pair>, size: nat, column: int)
    requires PairsOnScale(pairs, size) && 0 <= column < size
    ensures ColumnTotal(Table(pairs, size), size, column) == SumOf(pairs, KeyIs(JuryGrade, column))
  {
    var f := (row: int, p: Pair) => Hit(p.author == row + 1 && p.jury == column + 1);
    var total := (row: int) => Cell(Table(pairs, size), row, column);
    forall row | 0 <= row < size ensures total(row) == SumOf(pairs, Right(f, row)) {
      SumCongruent(pairs, IsCell(row, column), Right(f, row));
    }
    forall p | p in pairs ensures KeyIs(JuryGrade, column)(p) == SumOf(Range(size), Left(f, p)) {
      assert forall i :: Left(f, p)(i) == Hit(p.author == i + 1 && p.jury == column + 1);
      PointSum(size, p.author - 1, Left(f, p));
      assert JuryGrade(p) == p.jury;
      assert KeyIs(JuryGrade, column)(p) == Hit(p.jury == column + 1);
    }
    SumSwap(Range(size), pairs, f, total, KeyIs(JuryGrade, column));
    SumCongruent(Range(size), total, (row: int) => Cell(Table(pairs, size), row, column));
  }

  /** Summing count(i) * h(i) over the grades is summing h over the series. */
  lemma MarginalSum(pairs: seq<Pair>, size: nat, key: Pair -> int, h: int -> real, weighted: int -> real, g: Pair -> real)
    requires forall p :: p in pairs ==> 1 <= key(p) <= size && g(p) == h(key(p) - 1)
    requires forall i :: 0 <= i < size ==> weighted(i) == SumOf(pairs, KeyIs(key, i)) * h(i)
    ensures SumOf(Range(size), weighted) == SumOf(pairs, g)
  {
    hide SumOf;
    forall i | 0 <= i < size ensures weighted(i) == SumOf(pairs, Right(OnKey(key, h), i)) {
      KeyRow(pairs, key, h, i);
    }
    forall p | p in pairs ensures g(p) == SumOf(Range(size), Left(OnKey(key, h), p)) {
      KeyPoint(size, key, h, p);
    }
    SumSwap(Range(size), pairs, OnKey(key, h), weighted, g);
  }

  /** h(i) where the key is i, and nothing elsewhere. */
  function OnKey(key: Pair -> int, h: int -> real): (int, Pair) -> real {
    (i, p) => if key(p) == i + 1 then h(i) else 0.0
  }

  lemma KeyRow(pairs: seq<Pair>, key: Pair -> int, h: int -> real, i: int)
    ensures SumOf(pairs, KeyIs(key, i)) * h(i) == SumOf(pairs, Right(OnKey(key, h), i))
  {
    hide SumOf;
    forall p | p in pairs ensures Right(OnKey(key, h), i)(p) == h(i) * KeyIs(key, i)(p) {
    }
    SumScaled(pairs, h(i), KeyIs(key, i), Right(OnKey(key, h), i));
  }

  lemma KeyPoint(size: nat, key: Pair -> int, h: int -> real, p: Pair)
    requires 1 <= key(p) <= size
    ensures SumOf(Range(size), Left(OnKey(key, h), p)) == h(key(p) - 1)
  {
    hide SumOf;
    PointSum(size, key(p) - 1, Left(OnKey(key, h), p));
  }

  // ---------------------------------------------------------------------------------------
  // The numerator and the denominator in closed form
  // ---------------------------------------------------------------------------------------

  function Gap(row: int, column: int): real { Sq(row as real - column as real) }

  lemma ScaleNumerator(d: real, k: real, c: real, n: real, scale: real)
    requires k != 0.0 && n != 0.0 && k * n != 0.0 && scale == 1.0 / (k * n)
    ensures d / k * c / n == scale * (c * d)
  {
  }

  lemma InRange(size: nat, i: int)
    ensures i in Range(size) <==> 0 <= i < size
  {
    if 0 <= i < size {
      assert Range(size)[i] == i;
    }
  }

  lemma NumeratorTermScaled(pairs: seq<Pair>, size: nat, n: real, scale: real, row: int, column: int)
    requires size >= 2 && n != 0.0 && Sq(size as real - 1.0) * n != 0.0
    requires scale == 1.0 / (Sq(size as real - 1.0) * n) && 0 <= row < size && 0 <= column < size
    ensures NumeratorTerm(Table(pairs, size), size, n, row)(column) == scale * CellTerm(pairs, Gap, row)(column)
  {
    hide Sq, Table, Count;
    ScaleNumerator(Gap(row, column), Sq(size as real - 1.0), Cell(Table(pairs, size), row, column), n, scale);
  }

  lemma NumeratorRowIs(table: Matrix, size: nat, n: real, row: int)
    requires size >= 2 && n != 0.0
    ensures NumeratorRow(table, size, n)(row) == SumOf(Range(size), NumeratorTerm(table, size, n, row))
  {
    hide SumOf, NumeratorTerm;
  }

  lemma NumeratorRowScaled(pairs: seq<Pair>, size: nat, n: real, scale: real, row: int)
    requires size >= 2 && n != 0.0 && Sq(size as real - 1.0) * n != 0.0
    requires scale == 1.0 / (Sq(size as real - 1.0) * n) && 0 <= row < size
    ensures NumeratorRow(Table(pairs, size), size, n)(row) == scale * RowTerm(pairs, size, Gap)(row)
  {
    hide *;
    var table := Table(pairs, size);
    forall column: int | column in Range(size)
      ensures NumeratorTerm(table, size, n, row)(column) == scale * CellTerm(pairs, Gap, row)(column)
    {
      InRange(size, column);
      NumeratorTermScaled(pairs, size, n, scale, row, column);
    }
    SumScaled(Range(size), scale, CellTerm(pairs, Gap, row), NumeratorTerm(table, size, n, row));
    NumeratorRowIs(table, size, n, row);
    RowTermIs(pairs, size, Gap, row);
  }

  lemma GapSum(pairs: seq<Pair>, size: nat)
    requires PairsOnScale(pairs, size)
    ensures SumOf(Range(size), RowTerm(pairs, size, Gap)) == Observed(pairs)
  {
    hide Sq;
    forall p | p in pairs ensures SquaredGap(p) == Gap(p.author - 1, p.jury - 1) {
      assert Author(p) - Jury(p) == (p.author - 1) as real - (p.jury - 1) as real;
    }
    TableSum(pairs, size, Gap, SquaredGap);
  }

  lemma NumeratorClosedForm(pairs: seq<Pair>, size: nat, n: real, scale: real)
    requires size >= 2 && n != 0.0 && Sq(size as real - 1.0) * n != 0.0
    requires scale == 1.0 / (Sq(size as real - 1.0) * n)
    requires PairsOnScale(pairs, size)
    ensures SumOf(Range(size), NumeratorRow(Table(pairs, size), size, n)) == scale * Observed(pairs)
  {
    hide *;
    forall row: int | row in Range(size)
      ensures NumeratorRow(Table(pairs, size), size, n)(row) == scale * RowTerm(pairs, size, Gap)(row)
    {
      InRange(size, row);
      NumeratorRowScaled(pairs, size, n, scale, row);
    }
    SumScaled(Range(size), scale, RowTerm(pairs, size, Gap), NumeratorRow(Table(pairs, size), size, n));
    GapSum(pairs, size);
  }

  /** The squared distance of one author grade to every jury grade, as a sum over jury totals. */
  function JuryTerm(pairs: seq<Pair>, size: nat, row: int): int -> real {
    column => ColumnTotal(Table(pairs, size), size, column) * Gap(row, column)
  }

  function Spread(pairs: seq<Pair>, row: int): real {
    SquaresFrom((row + 1) as real, pairs, Jury)
  }

  function AuthorTerm(pairs: seq<Pair>, size: nat): int -> real {
    row => RowTotal(Table(pairs, size), size, row) * Spread(pairs, row)
  }

  lemma JuryTermSum(pairs: seq<Pair>, size: nat, row: int)
    requires PairsOnScale(pairs, size)
    ensures SumOf(Range(size), JuryTerm(pairs, size, row)) == Spread(pairs, row)
  {
    hide Sq, SumOf, Table, SquaresFrom, ColumnTotal, KeyIs;
    forall column | 0 <= column < size
      ensures JuryTerm(pairs, size, row)(column) == SumOf(pairs, KeyIs(JuryGrade, column)) * Right(Gap, row)(column)
    {
      ColumnTotals(pairs, size, column);
    }
    var g := (p: Pair) => Gap(row, p.jury - 1);
    forall p | p in pairs ensures 1 <= JuryGrade(p) <= size && g(p) == Right(Gap, row)(JuryGrade(p) - 1) {
      assert JuryGrade(p) == p.jury;
    }
    MarginalSum(pairs, size, JuryGrade, Right(Gap, row), JuryTerm(pairs, size, row), g);
    forall p | p in pairs ensures g(p) == Sq((row + 1) as real - Jury(p)) {
      assert row as real - (p.jury - 1) as real == (row + 1) as real - Jury(p);
    }
    SquaresAsSum((row + 1) as real, pairs, Jury, g);
  }

  lemma AuthorTermSum(pairs: seq<Pair>, size: nat)
    requires PairsOnScale(pairs, size)
    ensures SumOf(Range(size), AuthorTerm(pairs, size)) == Expected(pairs)
  {
    hide Sq, SumOf, Table, SquaresFrom, CrossSquares, RowTotal, KeyIs;
    var h := (row: int) => Spread(pairs, row);
    forall row | 0 <= row < size
      ensures AuthorTerm(pairs, size)(row) == SumOf(pairs, KeyIs(AuthorGrade, row)) * h(row)
    {
      RowTotals(pairs, size, row);
    }
    var g := (p: Pair) => SquaresFrom(Author(p), pairs, Jury);
    forall p | p in pairs ensures 1 <= AuthorGrade(p) <= size && g(p) == h(AuthorGrade(p) - 1) {
      assert AuthorGrade(p) == p.author;
    }
    MarginalSum(pairs, size, AuthorGrade, h, AuthorTerm(pairs, size), g);
    CrossAsSum(pairs, Author, pairs, Jury, g);
  }

  lemma ScaleDenominator(d: real, k: real, r: real, c: real, n: real, scale: real)
    requires k != 0.0 && n != 0.0 && k * n * n != 0.0 && scale == 1.0 / (k * n * n)
    ensures d / k * (r / n) * (c / n) == (scale * r) * (c * d)
  {
  }

  lemma DenominatorTermScaled(pairs: seq<Pair>, size: nat, n: real, scale: real, row: int, column: int)
    requires size >= 2 && n != 0.0 && Sq(size as real - 1.0) * n * n != 0.0 && Sq(size as real - 1.0) != 0.0
    requires scale == 1.0 / (Sq(size as real - 1.0) * n * n)
    ensures DenominatorTerm(Table(pairs, size), size, n, row)(column) ==
            (scale * RowTotal(Table(pairs, size), size, row)) * JuryTerm(pairs, size, row)(column)
  {
    hide Sq, Table, RowTotal, ColumnTotal;
    var table := Table(pairs, size);
    ScaleDenominator(Gap(row, column), Sq(size as real - 1.0), RowTotal(table, size, row), ColumnTotal(table, size, column), n, scale);
  }

  lemma DenominatorSumScaled(pairs: seq<Pair>, size: nat, n: real, scale: real, row: int)
    requires size >= 2 && n != 0.0 && Sq(size as real - 1.0) * n * n != 0.0 && Sq(size as real - 1.0) != 0.0
    requires scale == 1.0 / (Sq(size as real - 1.0) * n * n)
    ensures SumOf(Range(size), DenominatorTerm(Table(pairs, size), size, n, row)) ==
            (scale * RowTotal(Table(pairs, size), size, row)) * SumOf(Range(size), JuryTerm(pairs, size, row))
  {
    hide Sq, SumOf, Table, RowTotal, ColumnTotal;
    var table := Table(pairs, size);
    var share := scale * RowTotal(table, size, row);
    forall column | column in Range(size)
      ensures DenominatorTerm(table, size, n, row)(column) == share * JuryTerm(pairs, size, row)(column)
    {
      DenominatorTermScaled(pairs, size, n, scale, row, column);
    }
    hide DenominatorTerm, JuryTerm;
    SumScaled(Range(size), share, JuryTerm(pairs, size, row), DenominatorTerm(table, size, n, row));
  }

  lemma DenominatorRowScaled(pairs: seq<Pair>, size: nat, n: real, scale: real, row: int)
    requires size >= 2 && n != 0.0 && Sq(size as real - 1.0) * n * n != 0.0 && Sq(size as real - 1.0) != 0.0
    requires scale == 1.0 / (Sq(size as real - 1.0) * n * n) && PairsOnScale(pairs, size)
    ensures DenominatorRow(Table(pairs, size), size, n)(row) == scale * AuthorTerm(pairs, size)(row)
  {
    hide Sq, SumOf, Table, RowTotal, DenominatorTerm, JuryTerm, Spread, Range;
    DenominatorSumScaled(pairs, size, n, scale, row);
    JuryTermSum(pairs, size, row);
    Associate(scale, RowTotal(Table(pairs, size), size, row), Spread(pairs, row));
  }

  lemma DenominatorClosedForm(pairs: seq<Pair>, size: nat, n: real, scale: real)
    requires size >= 2 && n != 0.0 && Sq(size as real - 1.0) * n * n != 0.0 && Sq(size as real - 1.0) != 0.0
    requires scale == 1.0 / (Sq(size as real - 1.0) * n * n)
    requires PairsOnScale(pairs, size)
    ensures SumOf(Range(size), DenominatorRow(Table(pairs, size), size, n)) == scale * Expected(pairs)
  {
    hide *;
    forall row: int | row in Range(size)
      ensures DenominatorRow(Table(pairs, size), size, n)(row) == scale * AuthorTerm(pairs, size)(row)
    {
      DenominatorRowScaled(pairs, size, n, scale, row);
    }
    SumScaled(Range(size), scale, AuthorTerm(pairs, size), DenominatorRow(Table(pairs, size), size, n));
    AuthorTermSum(pairs, size);
  }

  lemma CancelScale(k: real, n: real, o: real, e: real, s1: real, s2: real)
    requires k > 0.0 && n > 0.0 && k * n > 0.0 && k * n * n > 0.0
    requires s1 == 1.0 / (k * n) && s2 == 1.0 / (k * n * n)
    ensures s2 * e == 0.0 <==> e == 0.0
    ensures e != 0.0 ==> s1 * o / (s2 * e) == Disagreement(n, o, e)
  {
    assert s1 == n * s2;
    assert s2 > 0.0;
    if e != 0.0 {
      NonZeroProduct(s2, e);
      var q := Disagreement(n, o, e);
      assert q * e == n * o;
      assert s1 * o == q * (s2 * e) by {
        calc {
          s1 * o;
          n * s2 * o;
          s2 * (n * o);
          s2 * (q * e);
          q * (s2 * e);
        }
      }
    }
  }

  lemma CancelCoefficient(k: real, count: nat, n: real, o: real, e: real, s1: real, s2: real, numerator: real, denominator: real)
    requires count >= MINIMUM_PAIRS && n == count as real
    requires k > 0.0 && k * n > 0.0 && k * n * n > 0.0
    requires s1 == 1.0 / (k * n) && s2 == 1.0 / (k * n * n)
    requires numerator == s1 * o && denominator == s2 * e
    ensures Coefficient(count, o, e) == if denominator == 0.0 then None else Some(1.0 - numerator / denominator)
  {
    CancelScale(k, count as real, o, e, s1, s2);
    hide Disagreement;
    if e != 0.0 {
      assert numerator / denominator == Disagreement(count as real, o, e);
    }
  }

  lemma KappaFromTable(pairs: seq<Pair>, size: nat, numerator: real, denominator: real)
    requires size >= 2 && |pairs| >= MINIMUM_PAIRS && PairsOnScale(pairs, size)
    requires numerator == SumOf(Range(size), NumeratorRow(Table(pairs, size), size, |pairs| as real))
    requires denominator == SumOf(Range(size), DenominatorRow(Table(pairs, size), size, |pairs| as real))
    ensures Kappa(pairs) == if denominator == 0.0 then None else Some(1.0 - numerator / denominator)
  {
    hide SumOf, NumeratorRow, DenominatorRow, CrossSquares, Coefficient;
    var k, n := Sq(size as real - 1.0), |pairs| as real;
    PositiveProduct(size as real - 1.0, size as real - 1.0, k);
    hide Sq;
    PositiveProduct(k, n, k * n);
    PositiveProduct(k * n, n, k * n * n);
    NumeratorClosedForm(pairs, size, n, 1.0 / (k * n));
    DenominatorClosedForm(pairs, size, n, 1.0 / (k * n * n));
    CancelCoefficient(k, |pairs|, n, Observed(pairs), Expected(pairs), 1.0 / (k * n), 1.0 / (k * n * n),
                      numerator, denominator);
  }

  // ---------------------------------------------------------------------------------------
  // What the coefficient means
  // ---------------------------------------------------------------------------------------

  function Swap(pairs: seq<Pair>): (swapped: seq<Pair>)
    ensures |swapped| == |pairs|
    ensures forall i :: 0 <= i < |pairs| ==> swapped[i] == Pair(pairs[i].jury, pairs[i].author)
  {
    seq(|pairs|, i requires 0 <= i < |pairs| => Pair(pairs[i].jury, pairs[i].author))
  }

  predicate Identical(pairs: seq<Pair>) {
    forall p :: p in pairs ==> p.author == p.jury
  }

  /** Both graders gave every sample one and the same grade. */
  predicate ConstantOnOneGrade(pairs: seq<Pair>) {
    forall p, q :: p in pairs && q in pairs ==> p.author == q.jury
  }

  lemma ExpectedZero(pairs: seq<Pair>)
    ensures 0.0 <= Expected(pairs)
    ensures Expected(pairs) == 0.0 <==> ConstantOnOneGrade(pairs)
  {
    hide CrossSquares;
    CrossNonNegative(pairs, Author, pairs, Jury);
    forall p, q | p in pairs && q in pairs ensures Author(p) == Jury(q) <==> p.author == q.jury {
    }
  }

  lemma ObservedZero(pairs: seq<Pair>)
    ensures 0.0 <= Observed(pairs)
    ensures Observed(pairs) == 0.0 <==> Identical(pairs)
  {
    forall p ensures 0.0 <= SquaredGap(p) && (SquaredGap(p) == 0.0 <==> p.author == p.jury) {
      SquareZero(Author(p) - Jury(p));
    }
    SumNonNegative(pairs, SquaredGap);
  }

  /** Undefined exactly on fewer than two pairs, or when both graders are constant on the same grade. */
  lemma KappaUndefined(pairs: seq<Pair>)
    ensures Kappa(pairs).None? <==> |pairs| < 2 || ConstantOnOneGrade(pairs)
  {
    hide Expected, ConstantOnOneGrade;
    ExpectedZero(pairs);
  }

  /** Two graders constant on different grades, such as 1, 1 against 2, 2, have a coefficient, and it is 0. */
  lemma DifferentConstants(pairs: seq<Pair>, a: int, b: int)
    requires |pairs| >= MINIMUM_PAIRS && a != b
    requires forall i :: 0 <= i < |pairs| ==> pairs[i] == Pair(a, b)
    ensures Kappa(pairs) == Some(0.0)
  {
    var n, d := |pairs| as real, Sq(a as real - b as real);
    SumConstant(pairs, d, SquaredGap);
    ConstantCross(pairs, pairs, a, b, d);
    SquareZero(a as real - b as real);
    hide Sq, SumOf, CrossSquares;
    PositiveProduct(n, d, d * n);
    PositiveProduct(n, d * n, n * (d * n));
    WholeDisagreement(n, d * n, n * (d * n));
    assert Observed(pairs) == d * n && Expected(pairs) == n * (d * n);
  }

  lemma WholeDisagreement(n: real, observed: real, expected: real)
    requires expected != 0.0 && expected == n * observed
    ensures Disagreement(n, observed, expected) == 1.0
  {
  }

  lemma ConstantRow(ys: seq<Pair>, a: int, b: int, d: real)
    requires d == Sq(a as real - b as real)
    requires forall i :: 0 <= i < |ys| ==> ys[i] == Pair(a, b)
    ensures SquaresFrom(a as real, ys, Jury) == d * |ys| as real
  {
    var gap := (p: Pair) => Sq(a as real - Jury(p));
    hide Sq, SumOf, SquaresFrom;
    SquaresAsSum(a as real, ys, Jury, gap);
    SumConstant(ys, d, gap);
  }

  lemma OneRowMore(n: nat, row: real)
    ensures (n + 1) as real * row == n as real * row + row
  {
  }

  lemma {:induction false} ConstantCross(xs: seq<Pair>, ys: seq<Pair>, a: int, b: int, d: real)
    requires d == Sq(a as real - b as real)
    requires forall i :: 0 <= i < |xs| ==> xs[i] == Pair(a, b)
    requires forall i :: 0 <= i < |ys| ==> ys[i] == Pair(a, b)
    ensures CrossSquares(xs, Author, ys, Jury) == |xs| as real * (d * |ys| as real)
  {
    if xs != [] {
      var n := |xs| - 1;
      ConstantCross(xs[..n], ys, a, b, d);
      ConstantRow(ys, a, b, d);
      OneRowMore(n, d * |ys| as real);
      hide SumOf, Sq, SquaresFrom;
    }
  }

  function Total(p: Pair): real { Author(p) + Jury(p) }

  lemma ParallelogramOf(a: real, b: real)
    ensures Sq(a - b) + Sq(a + b) == 2.0 * Sq(a) + 2.0 * Sq(b)
  {
  }

  /** (a - b)^2 + (a + b)^2 = 2 a^2 + 2 b^2, summed. */
  lemma {:induction false} Parallelogram(pairs: seq<Pair>)
    ensures Observed(pairs) + SumSq(pairs, Total) == 2.0 * SumSq(pairs, Author) + 2.0 * SumSq(pairs, Jury)
  {
    if pairs != [] {
      var n := |pairs| - 1;
      Parallelogram(pairs[..n]);
      ParallelogramOf(Author(pairs[n]), Jury(pairs[n]));
      hide Sq;
    }
  }

  lemma TotalSum(pairs: seq<Pair>)
    ensures SumOf(pairs, Total) == SumOf(pairs, Author) + SumOf(pairs, Jury)
  {
    hide SumOf;
    SumAdd(pairs, Author, Jury, Total);
  }

  lemma ExpectedMoments(pairs: seq<Pair>)
    ensures var n := |pairs| as real;
            Expected(pairs) ==
            n * SumSq(pairs, Author) - 2.0 * SumOf(pairs, Author) * SumOf(pairs, Jury) + n * SumSq(pairs, Jury)
  {
    CrossMoments(pairs, Author, pairs, Jury);
    hide SumOf, SumSq, CrossSquares;
  }

  /** n times the observed disagreement is at most twice the expected disagreement. */
  lemma ObservedBound(pairs: seq<Pair>)
    ensures |pairs| as real * Observed(pairs) <= 2.0 * Expected(pairs)
  {
    hide *;
    var n, sa, sb := |pairs| as real, SumOf(pairs, Author), SumOf(pairs, Jury);
    SumSquaredBound(pairs, Total);
    TotalSum(pairs);
    Parallelogram(pairs);
    ExpectedMoments(pairs);
    BoundFromMoments(n, SumSq(pairs, Author), SumSq(pairs, Jury), sa, sb, Observed(pairs), SumSq(pairs, Total), Expected(pairs));
  }

  lemma BoundFromMoments(n: real, qa: real, qb: real, sa: real, sb: real, o: real, t: real, e: real)
    requires o + t == 2.0 * qa + 2.0 * qb
    requires Sq(sa + sb) <= n * t
    requires e == n * qa - 2.0 * sa * sb + n * qb
    ensures n * o <= 2.0 * e
  {
    SquareZero(sa - sb);
    assert n * o == 2.0 * (n * qa) + 2.0 * (n * qb) - n * t by {
      assert o == 2.0 * qa + 2.0 * qb - t;
    }
    assert Sq(sa + sb) == Sq(sa - sb) + 4.0 * (sa * sb);
  }

  /** The coefficient lies in [-1, 1], and reaches 1 exactly when the two series are identical. */
  lemma KappaRange(pairs: seq<Pair>)
    requires Kappa(pairs).Some?
    ensures -1.0 <= Kappa(pairs).value <= 1.0
    ensures Kappa(pairs).value == 1.0 <==> Identical(pairs)
  {
    hide Observed, Expected, Identical;
    ExpectedZero(pairs);
    ObservedZero(pairs);
    ObservedBound(pairs);
    RatioBounds(|pairs| as real, Observed(pairs), Expected(pairs));
  }

  lemma RatioBounds(n: real, o: real, e: real)
    requires n > 0.0 && o >= 0.0 && e > 0.0 && n * o <= 2.0 * e
    ensures 0.0 <= Disagreement(n, o, e) <= 2.0
    ensures Disagreement(n, o, e) == 0.0 <==> o == 0.0
  {
    var q := Disagreement(n, o, e);
    assert q * e == n * o;
    if o > 0.0 {
      PositiveProduct(n, o, n * o);
    }
  }

  lemma ExpectedSymmetric(pairs: seq<Pair>)
    ensures Expected(Swap(pairs)) == Expected(pairs)
  {
    hide Sq;
    SwapMoments(pairs);
    CrossMoments(pairs, Author, pairs, Jury);
    CrossMoments(Swap(pairs), Author, Swap(pairs), Jury);
    SymmetricMoments(|pairs| as real, SumSq(pairs, Author), SumSq(pairs, Jury), SumOf(pairs, Author), SumOf(pairs, Jury));
  }

  /** Exchanging the two graders changes nothing. */
  lemma KappaSymmetric(pairs: seq<Pair>)
    ensures Kappa(Swap(pairs)) == Kappa(pairs)
  {
    hide SumOf, CrossSquares, Sq;
    SwapMoments(pairs);
    ExpectedSymmetric(pairs);
  }

  lemma SymmetricMoments(n: real, qa: real, qb: real, sa: real, sb: real)
    ensures n * qa - 2.0 * sa * sb + n * qb == n * qb - 2.0 * sb * sa + n * qa
  {
  }

  lemma {:induction false} SwapMoments(pairs: seq<Pair>)
    ensures var s := Swap(pairs);
            Observed(s) == Observed(pairs) &&
            SumOf(s, Author) == SumOf(pairs, Jury) && SumOf(s, Jury) == SumOf(pairs, Author) &&
            SumSq(s, Author) == SumSq(pairs, Jury) && SumSq(s, Jury) == SumSq(pairs, Author)
  {
    if pairs != [] {
      var front := pairs[..|pairs| - 1];
      SwapMoments(front);
      assert Swap(pairs)[..|pairs| - 1] == Swap(front);
      SquareOfNegation(Author(pairs[|front|]) - Jury(pairs[|front|]));
    }
  }

  lemma SquareOfNegation(x: real)
    ensures Sq(-x) == Sq(x)
  {
  }
}
