/** What the agreement statistics of src/freeweight/domain/agreement.py share. */
module Agreement {
  const MINIMUM_PAIRS := 2

  /** Two grades or more, not all the same. */
  predicate HasVariance<T(==)>(values: seq<T>) {
    |values| >= MINIMUM_PAIRS && exists i, j :: 0 <= i < j < |values| && values[i] != values[j]
  }
}
