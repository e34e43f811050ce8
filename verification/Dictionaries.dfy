/** An insertion-ordered dictionary of numbers, as Python iterates one: a list of items with
    distinct keys, to which amounts are added key by key. */
module Dictionaries {
  import opened Sums

  datatype Entry<K> = Entry(key: K, value: real)

  type Dict<K> = seq<Entry<K>>

  predicate Distinct<K(==)>(d: Dict<K>) {
    forall i, j :: 0 <= i < j < |d| ==> d[i].key != d[j].key
  }

  /** d.get(k, 0.0) */
  function Get<K(==)>(d: Dict<K>, k: K): real {
    if d == [] then 0.0
    else if d[|d| - 1].key == k then d[|d| - 1].value
    else Get(d[..|d| - 1], k)
  }

  /** d[k] = d.get(k, 0.0) + amount */
  function Add<K(==)>(d: Dict<K>, k: K, amount: real): Dict<K> {
    if d == [] then [Entry(k, amount)]
    else
      var front, last := d[..|d| - 1], d[|d| - 1];
      if last.key == k then front + [Entry(k, last.value + amount)] else Add(front, k, amount) + [last]
  }

  function Term<K>(g: K -> real): Entry<K> -> real {
    (e: Entry<K>) => e.value * g(e.key)
  }

  /** The sum over the items of value * g(key). */
  function Weighted<K>(d: Dict<K>, g: K -> real): real {
    SumOf(d, Term(g))
  }

  /** Adding an amount under k adds amount * g(k) to every weighted sum, whatever the dictionary held. */
  lemma {:induction false} AddWeighted<K>(d: Dict<K>, k: K, amount: real, g: K -> real)
    ensures Weighted(Add(d, k, amount), g) == Weighted(d, g) + amount * g(k)
  {
    if d == [] {
      SumSnoc([], Entry(k, amount), Term(g));
      assert [] + [Entry(k, amount)] == [Entry(k, amount)];
    } else {
      var front, last := d[..|d| - 1], d[|d| - 1];
      assert d == front + [last];
      SumSnoc(front, last, Term(g));
      if last.key == k {
        SumSnoc(front, Entry(k, last.value + amount), Term(g));
        Distribute(last.value, amount, g(k));
      } else {
        AddWeighted(front, k, amount, g);
        SumSnoc(Add(front, k, amount), last, Term(g));
      }
    }
  }

  lemma Distribute(x: real, y: real, z: real)
    ensures (x + y) * z == x * z + y * z
  {
  }

  lemma {:induction false} AddDistinct<K>(d: Dict<K>, k: K, amount: real)
    requires Distinct(d)
    ensures Distinct(Add(d, k, amount)) && Add(d, k, amount) != []
    ensures forall e :: e in Add(d, k, amount) ==> e.key == k || exists e' :: e' in d && e'.key == e.key
  {
    if d != [] {
      var front, last := d[..|d| - 1], d[|d| - 1];
      if last.key != k {
        AddDistinct(front, k, amount);
        var added := Add(front, k, amount);
        forall i | 0 <= i < |added| ensures added[i].key != last.key {
          assert added[i] in added;
        }
      }
    }
  }

  function Is<K(==)>(k: K): K -> real {
    (x: K) => if x == k then 1.0 else 0.0
  }

  /** Reading one key is the weighted sum that looks at that key alone. */
  lemma {:induction false} GetWeighted<K(!new)>(d: Dict<K>, k: K)
    requires Distinct(d)
    ensures Get(d, k) == Weighted(d, Is(k))
  {
    if d != [] {
      var front, last := d[..|d| - 1], d[|d| - 1];
      GetWeighted(front, k);
      if last.key == k {
        forall e | e in front ensures Term(Is(k))(e) == 0.0 {
        }
        SumConstant(front, 0.0, Term(Is(k)));
      }
    }
  }
}
