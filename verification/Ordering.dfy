/** Python's sorted(): a stable sort by a numeric key. */
module Ordering {
  predicate SortedBy<T>(xs: seq<T>, key: T -> real) {
    forall i, j :: 0 <= i < j < |xs| ==> key(xs[i]) <= key(xs[j])
  }

  /** Where x belongs: behind every element whose key is not larger. */
  function Position<T>(xs: seq<T>, x: T, key: T -> real): (k: nat)
    requires SortedBy(xs, key)
    ensures k <= |xs|
    ensures forall i :: 0 <= i < k ==> key(xs[i]) <= key(x)
    ensures forall i :: k <= i < |xs| ==> key(x) < key(xs[i])
  {
    if xs == [] || key(xs[|xs| - 1]) <= key(x) then |xs| else Position(xs[..|xs| - 1], x, key)
  }

  function Insert<T>(xs: seq<T>, x: T, key: T -> real): (r: seq<T>)
    requires SortedBy(xs, key)
    ensures SortedBy(r, key) && multiset(r) == multiset(xs) + multiset{x} && |r| == |xs| + 1
  {
    var k := Position(xs, x, key);
    InsertAt(xs, x, k);
    var r := xs[..k] + [x] + xs[k..];
    assert forall i :: 0 <= i < |r| ==> r[i] == if i < k then xs[i] else if i == k then x else xs[i - 1];
    r
  }

  lemma InsertAt<T>(xs: seq<T>, x: T, k: nat)
    requires k <= |xs|
    ensures multiset(xs[..k] + [x] + xs[k..]) == multiset(xs) + multiset{x}
  {
    assert xs == xs[..k] + xs[k..];
  }

  function SortBy<T>(xs: seq<T>, key: T -> real): (r: seq<T>)
    ensures SortedBy(r, key) && multiset(r) == multiset(xs) && |r| == |xs|
  {
    if xs == [] then []
    else
      assert xs == xs[..|xs| - 1] + [xs[|xs| - 1]];
      Insert(SortBy(xs[..|xs| - 1], key), xs[|xs| - 1], key)
  }

  function Identity(x: real): real { x }

  /** Whether a value is at or below a bound, and at or above it, as numbers to be summed. */
  function AtMost(bound: real): real -> real { (v: real) => if v <= bound then 1.0 else 0.0 }

  function AtLeast(bound: real): real -> real { (v: real) => if v >= bound then 1.0 else 0.0 }

  predicate Ascending(values: seq<real>) {
    forall i, j :: 0 <= i < j < |values| ==> values[i] <= values[j]
  }

  function Sorted(values: seq<real>): (r: seq<real>)
    ensures Ascending(r) && multiset(r) == multiset(values) && |r| == |values|
  {
    var r := SortBy(values, Identity);
    assert forall i, j :: 0 <= i < j < |r| ==> Identity(r[i]) <= Identity(r[j]);
    r
  }

  lemma LastDetermined(a: seq<real>, b: seq<real>)
    requires Ascending(a) && Ascending(b) && multiset(a) == multiset(b) && a != [] && b != []
    ensures a[|a| - 1] == b[|b| - 1]
  {
    assert a[|a| - 1] in multiset(b) && b[|b| - 1] in multiset(a);
  }

  lemma FrontMultiset(a: seq<real>)
    requires a != []
    ensures multiset(a[..|a| - 1]) == multiset(a) - multiset{a[|a| - 1]}
  {
    assert a == a[..|a| - 1] + [a[|a| - 1]];
  }

  /** A sorted list is determined by what it holds. */
  lemma {:induction false} SortedUnique(a: seq<real>, b: seq<real>)
    requires Ascending(a) && Ascending(b) && multiset(a) == multiset(b)
    ensures a == b
  {
    assert |multiset(a)| == |multiset(b)|;
    if a != [] {
      var n := |a| - 1;
      LastDetermined(a, b);
      FrontMultiset(a);
      FrontMultiset(b);
      SortedUnique(a[..n], b[..n]);
    }
  }

  lemma SortedPermutation(a: seq<real>, b: seq<real>)
    requires multiset(a) == multiset(b)
    ensures Sorted(a) == Sorted(b)
  {
    SortedUnique(Sorted(a), Sorted(b));
  }
}
