/** Strings ordered by code point, as Python's sorted orders them, and dotted paths. */
module Strings {
  /** a <= b */
  predicate Below(a: string, b: string) {
    a == [] || (b != [] && (a[0] < b[0] || (a[0] == b[0] && Below(a[1..], b[1..]))))
  }

  lemma {:induction false} BelowTotal(a: string, b: string)
    ensures Below(a, b) || Below(b, a)
    ensures Below(a, b) && Below(b, a) ==> a == b
    ensures Below(a, a)
  {
    if a != [] {
      BelowTotal(a[1..], a[1..]);
    }
    if a != [] && b != [] && a[0] == b[0] {
      BelowTotal(a[1..], b[1..]);
      assert a == [a[0]] + a[1..] && b == [b[0]] + b[1..];
    }
  }

  lemma {:induction false} BelowTransitive(a: string, b: string, c: string)
    requires Below(a, b) && Below(b, c)
    ensures Below(a, c)
  {
    if a != [] && a[0] == b[0] == c[0] {
      BelowTransitive(a[1..], b[1..], c[1..]);
    }
  }

  predicate Ascending(keys: seq<string>) {
    forall i, j :: 0 <= i < j < |keys| ==> Below(keys[i], keys[j]) && keys[i] != keys[j]
  }

  function Insert(keys: seq<string>, k: string): seq<string> {
    if keys == [] then [k]
    else
      var last := keys[|keys| - 1];
      if Below(last, k) then keys + [k] else Insert(keys[..|keys| - 1], k) + [last]
  }

  lemma {:induction false} InsertKeeps(keys: seq<string>, k: string)
    requires Ascending(keys) && k !in keys
    ensures Ascending(Insert(keys, k))
    ensures forall j :: j in Insert(keys, k) <==> j in keys || j == k
  {
    if keys != [] {
      var front, last := keys[..|keys| - 1], keys[|keys| - 1];
      assert keys == front + [last];
      if Below(last, k) {
        forall i | 0 <= i < |keys| ensures Below(keys[i], k) && keys[i] != k {
          BelowTotal(last, last);
          assert i == |keys| - 1 || Below(keys[i], keys[|keys| - 1]);
          BelowTransitive(keys[i], last, k);
        }
      } else {
        InsertKeeps(front, k);
        BelowTotal(last, k);
        var r := Insert(front, k);
        forall i | 0 <= i < |r| ensures Below(r[i], last) && r[i] != last {
          assert r[i] in r;
        }
      }
    }
  }

  ghost function SortedKeys(s: set<string>): (keys: seq<string>)
    ensures Ascending(keys)
    ensures forall k :: k in keys <==> k in s
  {
    if s == {} then []
    else
      var k :| k in s;
      InsertKeeps(SortedKeys(s - {k}), k);
      Insert(SortedKeys(s - {k}), k)
  }

  lemma SameLast(a: seq<string>, b: seq<string>)
    requires Ascending(a) && Ascending(b) && a != [] && b != []
    requires a[|a| - 1] in b && b[|b| - 1] in a
    ensures a[|a| - 1] == b[|b| - 1]
  {
    var last, last' := a[|a| - 1], b[|b| - 1];
    var i :| 0 <= i < |b| && b[i] == last;
    var j :| 0 <= j < |a| && a[j] == last';
    BelowTotal(last, last');
    hide Below;
  }

  lemma FrontHolds(a: seq<string>, k: string)
    requires Ascending(a) && a != []
    ensures k in a[..|a| - 1] <==> k in a && k != a[|a| - 1]
    ensures Ascending(a[..|a| - 1])
  {
    hide Below;
    var n := |a| - 1;
    assert a == a[..n] + [a[n]];
  }

  /** Ascending sequences with the same elements are the same. */
  lemma {:induction false} AscendingUnique(a: seq<string>, b: seq<string>)
    requires Ascending(a) && Ascending(b) && forall k :: k in a <==> k in b
    ensures a == b
  {
    assert a == [] || a[0] in a;
    assert b == [] || b[0] in b;
    if a != [] {
      var n, m := |a| - 1, |b| - 1;
      assert a[n] in b && b[m] in a;
      SameLast(a, b);
      forall k ensures k in a[..n] <==> k in b[..m] {
        FrontHolds(a, k);
        FrontHolds(b, k);
      }
      FrontHolds(a, a[n]);
      FrontHolds(b, b[m]);
      hide Ascending;
      AscendingUnique(a[..n], b[..m]);
      assert a == a[..n] + [a[n]] && b == b[..m] + [b[m]];
    }
  }

  /** sorted(s) */
  method Sorted(s: set<string>) returns (keys: seq<string>)
    ensures keys == SortedKeys(s)
  {
    keys := [];
    var left := s;
    while left != {}
      invariant left <= s && Ascending(keys)
      invariant forall k :: k in keys <==> k in s && k !in left
      decreases left
    {
      var k :| k in left;
      InsertKeeps(keys, k);
      keys := Insert(keys, k);
      left := left - {k};
    }
    AscendingUnique(keys, SortedKeys(s));
  }

  // ---------------------------------------------------------------------------------------
  // Dotted paths
  // ---------------------------------------------------------------------------------------

  predicate Plain(key: string) { key != "" && '.' !in key }

  predicate AllPlain(parts: seq<string>) { forall i :: 0 <= i < |parts| ==> Plain(parts[i]) }

  /** ".".join */
  function Path(parts: seq<string>): string {
    if parts == [] then ""
    else if |parts| == 1 then parts[0]
    else Path(parts[..|parts| - 1]) + "." + parts[|parts| - 1]
  }

  /** path.split(".") */
  function Split(path: string): (parts: seq<string>)
    ensures parts != []
  {
    if path == "" then [""]
    else
      var front := Split(path[..|path| - 1]);
      if path[|path| - 1] == '.' then front + [""]
      else front[..|front| - 1] + [front[|front| - 1] + [path[|path| - 1]]]
  }

  lemma SplitSnoc(path: string, c: char)
    ensures var front := Split(path);
            Split(path + [c]) == if c == '.' then front + [""] else front[..|front| - 1] + [front[|front| - 1] + [c]]
  {
    assert (path + [c])[..|path|] == path;
  }

  lemma SplitEmpty()
    ensures Split("") == [""]
  {
  }

  /** One more character on the right extends both sides alike. */
  lemma SplitAtDotStep(left: seq<string>, front: seq<string>, c: char)
    requires front != []
    ensures var whole := left + front;
            whole[..|whole| - 1] + [whole[|whole| - 1] + [c]] == left + (front[..|front| - 1] + [front[|front| - 1] + [c]])
  {
  }

  /** A dot always separates. */
  lemma {:induction false} SplitAtDot(left: string, right: string)
    ensures Split(left + "." + right) == Split(left) + Split(right)
  {
    hide Split;
    if right == "" {
      SplitSnoc(left, '.');
      SplitEmpty();
      assert left + "." + right == left + ['.'];
    } else {
      var front, c := right[..|right| - 1], right[|right| - 1];
      SplitAtDot(left, front);
      assert left + "." + right == (left + "." + front) + [c];
      assert right == front + [c];
      SplitSnoc(left + "." + front, c);
      SplitSnoc(front, c);
      if c == '.' {
        assert Split(left) + Split(front) + [""] == Split(left) + (Split(front) + [""]);
      } else {
        SplitAtDotStep(Split(left), Split(front), c);
      }
    }
  }

  lemma {:induction false} SplitPlain(key: string)
    requires '.' !in key
    ensures Split(key) == [key]
  {
    if key != "" {
      var front, c := key[..|key| - 1], key[|key| - 1];
      assert key == front + [c];
      SplitPlain(front);
      SplitSnoc(front, c);
    }
  }

  /** Splitting a joined path gives its parts back, so joining is injective. */
  lemma {:induction false} SplitPath(parts: seq<string>)
    requires AllPlain(parts) && parts != []
    ensures Split(Path(parts)) == parts
    ensures Path(parts) != ""
  {
    hide Split;
    if |parts| == 1 {
      SplitPlain(parts[0]);
      assert parts == [parts[0]];
    } else {
      var front, last := parts[..|parts| - 1], parts[|parts| - 1];
      assert AllPlain(front) && Plain(last) && parts == front + [last];
      SplitPath(front);
      SplitAtDot(Path(front), last);
      SplitPlain(last);
    }
  }

  /** The same path, or one underneath it. */
  predicate AtOrBelow(path: string, ancestor: string) {
    path == ancestor || (|path| > |ancestor| && path[..|ancestor|] == ancestor && path[|ancestor|] == '.')
  }

  lemma {:induction false} PathExtends(parts: seq<string>, more: seq<string>)
    requires AllPlain(parts + more) && parts != []
    ensures AtOrBelow(Path(parts + more), Path(parts))
  {
    if more != [] {
      var front, last := more[..|more| - 1], more[|more| - 1];
      assert (parts + more)[..|parts + more| - 1] == parts + front;
      assert AllPlain(parts + front) by {
        assert forall i :: 0 <= i < |parts + front| ==> (parts + front)[i] == (parts + more)[i];
      }
      PathExtends(parts, front);
    } else {
      assert parts + more == parts;
    }
  }

  /** One path is at or below another exactly when its parts extend the other's. */
  lemma BelowIsPrefix(parts: seq<string>, ancestor: seq<string>)
    requires AllPlain(parts) && AllPlain(ancestor) && parts != [] && ancestor != []
    ensures AtOrBelow(Path(parts), Path(ancestor)) <==> ancestor <= parts
  {
    hide Split, Path, Plain;
    SplitPath(parts);
    SplitPath(ancestor);
    if ancestor <= parts {
      assert parts == ancestor + parts[|ancestor|..];
      PathExtends(ancestor, parts[|ancestor|..]);
    }
    var p, a := Path(parts), Path(ancestor);
    if AtOrBelow(p, a) && p != a {
      var rest := p[|a| + 1..];
      assert p == a + "." + rest by {
        assert p == p[..|a|] + [p[|a|]] + rest;
      }
      SplitAtDot(a, rest);
    }
  }
}
