/** The square root, as the one thing the proofs assume of it: on non-negative arguments it is
    non-negative and its square is its argument. Results are stated for every such function. */
module Roots {
  import opened Sums

  ghost predicate IsSquareRoot(root: real -> real) {
    forall x :: 0.0 <= x ==> 0.0 <= root(x) && Sq(root(x)) == x
  }

  lemma SquareOrder(x: real, y: real)
    requires 0.0 <= y && Sq(x) <= Sq(y)
    ensures -y <= x <= y
  {
    if x > y {
      SquareGrows(y, x);
    } else if -x > y {
      assert Sq(-x) == Sq(x);
      SquareGrows(y, -x);
    }
  }

  lemma RootMonotone(root: real -> real, x: real, y: real)
    requires IsSquareRoot(root) && 0.0 <= x <= y
    ensures root(x) <= root(y)
  {
    SquareOrder(root(x), root(y));
  }

  lemma RootPositive(root: real -> real, x: real)
    requires IsSquareRoot(root) && 0.0 < x
    ensures 0.0 < root(x)
  {
    SquareZero(root(x));
    hide Sq;
    assert Sq(root(x)) == x;
  }
}
