/** The fingerprint-document diff and repeat check of src/freeweight/domain/provenance.py. */
module Provenance {
  import opened Documents
  import opened Strings

  datatype FieldDiff = FieldDiff(path: string, left: Json, right: Json)

  function Child(prefix: string, key: string): string { if prefix == "" then key else prefix + "." + key }

  function Union(a: Json, b: Json): set<string>
    requires a.Object? && b.Object?
  {
    a.fields.Keys + b.fields.Keys
  }

  // ---------------------------------------------------------------------------------------
  // What the walk records, in the order it records it
  // ---------------------------------------------------------------------------------------

  ghost function Walk(prefix: string, first: Json, second: Json): seq<FieldDiff>
    decreases if first.Object? then 1 else 0, first, 1, 0
  {
    if first.Object? && second.Object? then WalkKeys(prefix, first, second, SortedKeys(Union(first, second)))
    else if first != second then [FieldDiff(prefix, first, second)]
    else []
  }

  ghost function WalkKeys(prefix: string, first: Json, second: Json, keys: seq<string>): seq<FieldDiff>
    requires first.Object? && second.Object?
    decreases 1, first, 0, |keys|
  {
    if keys == [] then []
    else
      var key := keys[|keys| - 1];
      WalkKeys(prefix, first, second, keys[..|keys| - 1])
      + Walk(Child(prefix, key), Field(first.fields, key), Field(second.fields, key))
  }

  lemma WalkObjects(prefix: string, first: Json, second: Json)
    requires first.Object? && second.Object?
    ensures Walk(prefix, first, second) == WalkKeys(prefix, first, second, SortedKeys(Union(first, second)))
  {
  }

  lemma WalkKeysSnoc(prefix: string, first: Json, second: Json, keys: seq<string>, key: string)
    requires first.Object? && second.Object?
    ensures WalkKeys(prefix, first, second, keys + [key])
         == WalkKeys(prefix, first, second, keys)
            + Walk(Child(prefix, key), Field(first.fields, key), Field(second.fields, key))
  {
    hide Walk;
    assert (keys + [key])[..|keys|] == keys;
  }

  lemma WalkNoKeys(prefix: string, first: Json, second: Json)
    requires first.Object? && second.Object?
    ensures WalkKeys(prefix, first, second, []) == []
  {
  }

  lemma WalkLeaf(prefix: string, first: Json, second: Json)
    requires !(first.Object? && second.Object?)
    ensures Walk(prefix, first, second) == if first != second then [FieldDiff(prefix, first, second)] else []
  {
  }

  lemma Associates(a: seq<FieldDiff>, b: seq<FieldDiff>, c: seq<FieldDiff>)
    ensures (a + b) + c == a + (b + c)
  {
  }

  /** The walk's closure, appending to the list it shares. */
  method WalkInto(prefix: string, first: Json, second: Json, recorded: seq<FieldDiff>) returns (diffs: seq<FieldDiff>)
    ensures diffs == recorded + Walk(prefix, first, second)
    decreases if first.Object? then 1 else 0, first, 1
  {
    if first.Object? && second.Object? {
      WalkObjects(prefix, first, second);
      hide Walk, WalkKeys;
      var keys := Sorted(first.fields.Keys + second.fields.Keys);
      diffs := WalkEach(prefix, first, second, keys, recorded);
      return;
    }
    WalkLeaf(prefix, first, second);
    hide Walk, WalkKeys;
    diffs := recorded;
    if first != second {
      diffs := diffs + [FieldDiff(prefix, first, second)];
    }
  }

  /** The loop over the keys of two objects. */
  method WalkEach(prefix: string, first: Json, second: Json, keys: seq<string>, recorded: seq<FieldDiff>)
    returns (diffs: seq<FieldDiff>)
    requires first.Object? && second.Object?
    ensures diffs == recorded + WalkKeys(prefix, first, second, keys)
    decreases 1, first, 0
  {
    hide Walk, WalkKeys, Child;
    diffs := recorded;
    WalkNoKeys(prefix, first, second);
    assert keys[..0] == [];
    var i := 0;
    while i < |keys|
      invariant 0 <= i <= |keys|
      invariant diffs == recorded + WalkKeys(prefix, first, second, keys[..i])
    {
      assert keys[..i + 1] == keys[..i] + [keys[i]];
      WalkKeysSnoc(prefix, first, second, keys[..i], keys[i]);
      var f, s := Field(first.fields, keys[i]), Field(second.fields, keys[i]);
      Associates(recorded, WalkKeys(prefix, first, second, keys[..i]), Walk(Child(prefix, keys[i]), f, s));
      diffs := WalkInto(Child(prefix, keys[i]), f, s, diffs);
      i := i + 1;
    }
    assert keys[..|keys|] == keys;
  }

  // ---------------------------------------------------------------------------------------
  // Sorting by path
  // ---------------------------------------------------------------------------------------

  predicate ByPath(diffs: seq<FieldDiff>) {
    forall i, j :: 0 <= i < j < |diffs| ==> Below(diffs[i].path, diffs[j].path)
  }

  function InsertDiff(diffs: seq<FieldDiff>, d: FieldDiff): seq<FieldDiff> {
    if diffs == [] then [d]
    else
      var last := diffs[|diffs| - 1];
      if Below(last.path, d.path) then diffs + [d] else InsertDiff(diffs[..|diffs| - 1], d) + [last]
  }

  lemma {:induction false} InsertDiffHolds(diffs: seq<FieldDiff>, d: FieldDiff)
    ensures multiset(InsertDiff(diffs, d)) == multiset(diffs) + multiset{d}
  {
    if diffs != [] {
      var front, last := diffs[..|diffs| - 1], diffs[|diffs| - 1];
      assert diffs == front + [last];
      InsertDiffHolds(front, d);
    }
  }

  lemma ByPathSnoc(diffs: seq<FieldDiff>, d: FieldDiff)
    requires ByPath(diffs) && forall i :: 0 <= i < |diffs| ==> Below(diffs[i].path, d.path)
    ensures ByPath(diffs + [d])
  {
    hide Below;
  }

  lemma {:induction false} InsertDiffKeeps(diffs: seq<FieldDiff>, d: FieldDiff)
    requires ByPath(diffs)
    ensures ByPath(InsertDiff(diffs, d)) && multiset(InsertDiff(diffs, d)) == multiset(diffs) + multiset{d}
  {
    hide Below;
    InsertDiffHolds(diffs, d);
    if diffs != [] {
      var front, last := diffs[..|diffs| - 1], diffs[|diffs| - 1];
      BelowTotal(last.path, d.path);
      if Below(last.path, d.path) {
        forall i | 0 <= i < |diffs| ensures Below(diffs[i].path, d.path) {
          if i < |front| {
            BelowTransitive(diffs[i].path, last.path, d.path);
          }
        }
        ByPathSnoc(diffs, d);
      } else {
        InsertDiffKeeps(front, d);
        var r := InsertDiff(front, d);
        forall i | 0 <= i < |r| ensures Below(r[i].path, last.path) {
          assert r[i] in multiset(r);
          assert r[i] in front || r[i] == d;
          if r[i] in front {
            var k :| 0 <= k < |front| && front[k] == r[i];
            assert Below(diffs[k].path, diffs[|front|].path);
          }
        }
        ByPathSnoc(r, last);
      }
    }
  }

  /** The entries of the walk, sorted by path; none exactly when the documents are equal once the null-valued
      keys of their nested objects are dropped. */
  method DiffDocuments(left: map<string, Json>, right: map<string, Json>) returns (diffs: seq<FieldDiff>)
    ensures diffs == [] <==> WithoutNulls(Object(left)) == WithoutNulls(Object(right))
    ensures ByPath(diffs) && multiset(diffs) == multiset(Walk("", Object(left), Object(right)))
  {
    hide Walk, WithoutNulls, InsertDiff, Below;
    var recorded := WalkInto("", Object(left), Object(right), []);
    SilentIffAlike("", Object(left), Object(right));
    diffs := [];
    var i := 0;
    while i < |recorded|
      invariant 0 <= i <= |recorded|
      invariant ByPath(diffs) && multiset(diffs) == multiset(recorded[..i])
    {
      InsertDiffKeeps(diffs, recorded[i]);
      diffs := InsertDiff(diffs, recorded[i]);
      assert recorded[..i + 1] == recorded[..i] + [recorded[i]];
      i := i + 1;
    }
    assert recorded[..|recorded|] == recorded;
    assert |multiset(diffs)| == |diffs| && |multiset(recorded)| == |recorded|;
  }

  // ---------------------------------------------------------------------------------------
  // An empty diff means equality up to null-valued keys
  // ---------------------------------------------------------------------------------------

  /** The document without the null-valued keys of its nested objects; lists are left as they are. */
  function WithoutNulls(j: Json): Json {
    match j
    case Object(m) => Object(map k | k in m && m[k] != Null :: WithoutNulls(m[k]))
    case _ => j
  }

  lemma WithoutNullsFields(m: map<string, Json>, n: map<string, Json>)
    ensures WithoutNulls(Object(m)) == WithoutNulls(Object(n)) <==>
            forall k :: k in m || k in n ==> WithoutNulls(Field(m, k)) == WithoutNulls(Field(n, k))
  {
    var p, q := WithoutNulls(Object(m)).fields, WithoutNulls(Object(n)).fields;
    forall k ensures Field(p, k) == WithoutNulls(Field(m, k)) && (k in p <==> Field(p, k) != Null)
             ensures Field(q, k) == WithoutNulls(Field(n, k)) && (k in q <==> Field(q, k) != Null) {
    }
    if forall k :: k in m || k in n ==> WithoutNulls(Field(m, k)) == WithoutNulls(Field(n, k)) {
      forall k ensures k in p <==> k in q
               ensures k in p ==> p[k] == q[k] {
        assert Field(p, k) == WithoutNulls(Field(m, k)) && Field(q, k) == WithoutNulls(Field(n, k));
      }
      assert p == q;
    }
  }

  lemma WalkKeysStep(prefix: string, first: Json, second: Json, keys: seq<string>)
    requires first.Object? && second.Object?
    ensures keys == [] ==> WalkKeys(prefix, first, second, keys) == []
    ensures keys != [] ==>
      var front, key := keys[..|keys| - 1], keys[|keys| - 1];
      WalkKeys(prefix, first, second, keys) ==
      WalkKeys(prefix, first, second, front) + Walk(Child(prefix, key), Field(first.fields, key), Field(second.fields, key))
  {
    hide Walk;
  }

  lemma {:induction false} KeysSilent(prefix: string, first: Json, second: Json, keys: seq<string>)
    requires first.Object? && second.Object?
    ensures WalkKeys(prefix, first, second, keys) == [] <==>
            forall i :: 0 <= i < |keys| ==>
              Walk(Child(prefix, keys[i]), Field(first.fields, keys[i]), Field(second.fields, keys[i])) == []
  {
    hide Walk, WalkKeys;
    WalkKeysStep(prefix, first, second, keys);
    if keys != [] {
      var front := keys[..|keys| - 1];
      KeysSilent(prefix, first, second, front);
      assert forall i :: 0 <= i < |front| ==> front[i] == keys[i];
    }
  }

  lemma WalkSilent(prefix: string, first: Json, second: Json)
    requires first.Object? && second.Object?
    ensures Walk(prefix, first, second) == [] <==>
            forall k :: k in Union(first, second) ==>
              Walk(Child(prefix, k), Field(first.fields, k), Field(second.fields, k)) == []
  {
    hide Walk, WalkKeys;
    var keys := SortedKeys(Union(first, second));
    WalkObjects(prefix, first, second);
    KeysSilent(prefix, first, second, keys);
    assert forall k :: k in Union(first, second) <==> k in keys;
    assert forall i :: 0 <= i < |keys| ==> keys[i] in keys;
  }

  /** The walk records nothing exactly when the values are equal once null-valued keys are dropped. */
  lemma {:induction false} SilentIffAlike(prefix: string, first: Json, second: Json)
    ensures Walk(prefix, first, second) == [] <==> WithoutNulls(first) == WithoutNulls(second)
    decreases if first.Object? then 1 else 0, first
  {
    if first.Object? && second.Object? {
      forall k | k in Union(first, second)
        ensures Walk(Child(prefix, k), Field(first.fields, k), Field(second.fields, k)) == [] <==>
                WithoutNulls(Field(first.fields, k)) == WithoutNulls(Field(second.fields, k))
      {
        SilentIffAlike(Child(prefix, k), Field(first.fields, k), Field(second.fields, k));
      }
      WithoutNullsFields(first.fields, second.fields);
      WalkSilent(prefix, first, second);
      hide Walk, WithoutNulls;
    }
  }

  // ---------------------------------------------------------------------------------------
  // Where the entries lie
  // ---------------------------------------------------------------------------------------

  /** Following parts from a value; None past anything that is not an object. */
  function GetParts(document: Json, parts: seq<string>): Json
    decreases |parts|
  {
    if parts == [] then document
    else if !document.Object? then Null
    else GetParts(Field(document.fields, parts[0]), parts[1..])
  }

  lemma {:induction false} GetSnoc(document: Json, parts: seq<string>, part: string)
    ensures GetParts(document, parts + [part]) ==
            var parent := GetParts(document, parts); if parent.Object? then Field(parent.fields, part) else Null
    decreases |parts|
  {
    if parts == [] {
      assert [part][1..] == [];
    } else {
      assert (parts + [part])[1..] == parts[1..] + [part];
      if document.Object? {
        GetSnoc(Field(document.fields, parts[0]), parts[1..], part);
      }
    }
  }

  method Get(document: map<string, Json>, path: string) returns (current: Json)
    ensures current == GetParts(Object(document), Split(path))
  {
    current := Object(document);
    var parts := Split(path);
    var i := 0;
    while i < |parts|
      invariant 0 <= i <= |parts|
      invariant GetParts(Object(document), parts) == GetParts(current, parts[i..])
    {
      if !current.Object? {
        assert parts[i..] != [];
        return Null;
      }
      assert parts[i..][1..] == parts[i + 1..];
      current := Field(current.fields, parts[i]);
      i := i + 1;
    }
  }

  /** Every key of the nested objects is non-empty and free of dots. */
  predicate PlainKeys(j: Json) {
    j.Object? ==> forall k :: k in j.fields ==> Plain(k) && PlainKeys(j.fields[k])
  }

  datatype Leaf = Leaf(parts: seq<string>, left: Json, right: Json)

  /** The walk, keeping the keys apart instead of joining them into a path. */
  ghost function Leaves(parts: seq<string>, first: Json, second: Json): seq<Leaf>
    decreases if first.Object? then 1 else 0, first, 1, 0
  {
    if first.Object? && second.Object? then LeavesOf(parts, first, second, SortedKeys(Union(first, second)))
    else if first != second then [Leaf(parts, first, second)]
    else []
  }

  ghost function LeavesOf(parts: seq<string>, first: Json, second: Json, keys: seq<string>): seq<Leaf>
    requires first.Object? && second.Object?
    decreases 1, first, 0, |keys|
  {
    if keys == [] then []
    else
      var key := keys[|keys| - 1];
      LeavesOf(parts, first, second, keys[..|keys| - 1])
      + Leaves(parts + [key], Field(first.fields, key), Field(second.fields, key))
  }

  function Shown(leaves: seq<Leaf>): (diffs: seq<FieldDiff>)
    ensures |diffs| == |leaves|
    ensures forall i :: 0 <= i < |leaves| ==> diffs[i] == FieldDiff(Path(leaves[i].parts), leaves[i].left, leaves[i].right)
  {
    if leaves == [] then []
    else
      var l := leaves[|leaves| - 1];
      Shown(leaves[..|leaves| - 1]) + [FieldDiff(Path(l.parts), l.left, l.right)]
  }

  lemma ShownConcat(a: seq<Leaf>, b: seq<Leaf>)
    ensures Shown(a + b) == Shown(a) + Shown(b)
  {
    hide Shown;
    var whole, split := Shown(a + b), Shown(a) + Shown(b);
    forall i | 0 <= i < |a| + |b| ensures whole[i] == split[i] {
    }
  }

  lemma ChildIsPath(parts: seq<string>, key: string)
    requires AllPlain(parts)
    ensures Child(Path(parts), key) == Path(parts + [key])
  {
    if parts != [] {
      SplitPath(parts);
      assert (parts + [key])[..|parts + [key]| - 1] == parts;
    } else {
      assert parts + [key] == [key];
    }
  }

  lemma {:induction false} WalkShowsLeaves(parts: seq<string>, first: Json, second: Json)
    requires AllPlain(parts) && PlainKeys(first) && PlainKeys(second)
    ensures Walk(Path(parts), first, second) == Shown(Leaves(parts, first, second))
    decreases if first.Object? then 1 else 0, first, 1, 0
  {
    if first.Object? && second.Object? {
      KeysShowLeaves(parts, first, second, SortedKeys(Union(first, second)));
      WalkObjects(Path(parts), first, second);
      hide Walk, WalkKeys, LeavesOf, PlainKeys;
    } else {
      WalkLeaf(Path(parts), first, second);
      hide Walk;
    }
  }

  lemma {:induction false} KeysShowLeaves(parts: seq<string>, first: Json, second: Json, keys: seq<string>)
    requires AllPlain(parts) && first.Object? && second.Object? && PlainKeys(first) && PlainKeys(second)
    requires forall i :: 0 <= i < |keys| ==> keys[i] in Union(first, second)
    ensures WalkKeys(Path(parts), first, second, keys) == Shown(LeavesOf(parts, first, second, keys))
    decreases 1, first, 0, |keys|
  {
    hide Walk, Leaves;
    if keys != [] {
      var front, key := keys[..|keys| - 1], keys[|keys| - 1];
      KeysShowLeaves(parts, first, second, front);
      assert Plain(key);
      var f, s := Field(first.fields, key), Field(second.fields, key);
      assert PlainKeys(f) && PlainKeys(s);
      WalkShowsLeaves(parts + [key], f, s);
      ChildIsPath(parts, key);
      ShownConcat(LeavesOf(parts, first, second, front), Leaves(parts + [key], f, s));
    }
  }

  // ---------------------------------------------------------------------------------------
  // Distinct, unrelated, and readable back
  // ---------------------------------------------------------------------------------------

  /** A leaf under parts, with the two sides' own values. */
  ghost predicate Reads(leaf: Leaf, parts: seq<string>, first: Json, second: Json) {
    && parts <= leaf.parts
    && leaf.left == GetParts(first, leaf.parts[|parts|..])
    && leaf.right == GetParts(second, leaf.parts[|parts|..])
    && leaf.left != leaf.right
    && !(leaf.left.Object? && leaf.right.Object?)
    && AllPlain(leaf.parts)
  }

  ghost predicate AllRead(leaves: seq<Leaf>, parts: seq<string>, first: Json, second: Json) {
    forall i :: 0 <= i < |leaves| ==> Reads(leaves[i], parts, first, second)
  }

  ghost predicate Unrelated(leaves: seq<Leaf>) {
    forall i, j :: 0 <= i < |leaves| && 0 <= j < |leaves| && i != j ==> !(leaves[i].parts <= leaves[j].parts)
  }

  lemma ReadsDeeper(leaf: Leaf, parts: seq<string>, key: string, first: Json, second: Json)
    requires first.Object? && second.Object?
    requires Reads(leaf, parts + [key], Field(first.fields, key), Field(second.fields, key))
    ensures Reads(leaf, parts, first, second) && |leaf.parts| > |parts| && leaf.parts[|parts|] == key
  {
    var rest := leaf.parts[|parts|..];
    assert leaf.parts[|parts|] == (parts + [key])[|parts|];
    assert rest[0] == key && rest[1..] == leaf.parts[|parts + [key]|..];
  }

  lemma {:induction false} LeavesRead(parts: seq<string>, first: Json, second: Json)
    requires AllPlain(parts) && PlainKeys(first) && PlainKeys(second)
    ensures AllRead(Leaves(parts, first, second), parts, first, second) && Unrelated(Leaves(parts, first, second))
    decreases if first.Object? then 1 else 0, first, 1, 0
  {
    if first.Object? && second.Object? {
      KeysRead(parts, first, second, SortedKeys(Union(first, second)));
      hide Reads, PlainKeys;
    }
  }

  /** The first key below parts under which a leaf lies is one of those walked. */
  ghost predicate Under(leaves: seq<Leaf>, at: nat, keys: seq<string>) {
    forall i :: 0 <= i < |leaves| ==> |leaves[i].parts| > at && leaves[i].parts[at] in keys
  }

  lemma LeavesOfStep(parts: seq<string>, first: Json, second: Json, keys: seq<string>)
    requires first.Object? && second.Object?
    ensures keys == [] ==> LeavesOf(parts, first, second, keys) == []
    ensures keys != [] ==>
      var front, key := keys[..|keys| - 1], keys[|keys| - 1];
      LeavesOf(parts, first, second, keys) ==
      LeavesOf(parts, first, second, front) + Leaves(parts + [key], Field(first.fields, key), Field(second.fields, key))
  {
    hide Leaves;
  }

  lemma NothingReadYet(parts: seq<string>, first: Json, second: Json)
    ensures AllRead([], parts, first, second) && Unrelated([]) && Under([], |parts|, [])
  {
  }

  lemma PlainField(first: Json, second: Json, key: string)
    requires first.Object? && second.Object? && PlainKeys(first) && PlainKeys(second) && key in Union(first, second)
    ensures Plain(key) && PlainKeys(Field(first.fields, key)) && PlainKeys(Field(second.fields, key))
  {
  }

  lemma PlainAppended(parts: seq<string>, key: string)
    requires AllPlain(parts) && Plain(key)
    ensures AllPlain(parts + [key])
  {
  }

  lemma DeeperLeaves(leaves: seq<Leaf>, parts: seq<string>, key: string, first: Json, second: Json)
    requires first.Object? && second.Object?
    requires AllRead(leaves, parts + [key], Field(first.fields, key), Field(second.fields, key))
    ensures forall i :: 0 <= i < |leaves| ==>
      Reads(leaves[i], parts, first, second) && |leaves[i].parts| > |parts| && leaves[i].parts[|parts|] == key
  {
    hide Reads;
    forall i | 0 <= i < |leaves|
      ensures Reads(leaves[i], parts, first, second) && |leaves[i].parts| > |parts| && leaves[i].parts[|parts|] == key
    {
      ReadsDeeper(leaves[i], parts, key, first, second);
    }
  }

  lemma {:induction false} KeysRead(parts: seq<string>, first: Json, second: Json, keys: seq<string>)
    requires AllPlain(parts) && first.Object? && second.Object? && PlainKeys(first) && PlainKeys(second)
    requires Ascending(keys) && forall i :: 0 <= i < |keys| ==> keys[i] in Union(first, second)
    ensures var leaves := LeavesOf(parts, first, second, keys);
            AllRead(leaves, parts, first, second) && Unrelated(leaves) && Under(leaves, |parts|, keys)
    decreases 1, first, 0, |keys|
  {
    hide Leaves, LeavesOf, Reads, AllRead, PlainKeys;
    LeavesOfStep(parts, first, second, keys);
    if keys == [] {
      NothingReadYet(parts, first, second);
    } else {
      var front, key := keys[..|keys| - 1], keys[|keys| - 1];
      KeysRead(parts, first, second, front);
      var f, s := Field(first.fields, key), Field(second.fields, key);
      PlainField(first, second, key);
      PlainAppended(parts, key);
      LeavesRead(parts + [key], f, s);
      assert keys == front + [key] && key !in front;
      DeeperLeaves(Leaves(parts + [key], f, s), parts, key, first, second);
      Together(LeavesOf(parts, first, second, front), Leaves(parts + [key], f, s), |parts|, front, key);
      JoinReads(LeavesOf(parts, first, second, front), Leaves(parts + [key], f, s), parts, first, second);
    }
  }

  lemma JoinReads(a: seq<Leaf>, b: seq<Leaf>, parts: seq<string>, first: Json, second: Json)
    requires AllRead(a, parts, first, second)
    requires forall i :: 0 <= i < |b| ==> Reads(b[i], parts, first, second)
    ensures AllRead(a + b, parts, first, second)
  {
  }

  lemma Together(a: seq<Leaf>, b: seq<Leaf>, at: nat, keys: seq<string>, key: string)
    requires Unrelated(a) && Unrelated(b) && Under(a, at, keys) && key !in keys
    requires forall i :: 0 <= i < |b| ==> |b[i].parts| > at && b[i].parts[at] == key
    ensures Unrelated(a + b) && Under(a + b, at, keys + [key])
  {
    forall i, j | 0 <= i < |a| && 0 <= j < |b| ensures !(a[i].parts <= b[j].parts) && !(b[j].parts <= a[i].parts) {
      assert a[i].parts[at] != b[j].parts[at];
    }
  }

  /** With plain keys, the entries' paths are distinct, none lies above another, and reading either document at
      an entry's path gives that entry's side, the two sides being different. */
  lemma EntriesReadBack(left: map<string, Json>, right: map<string, Json>, i: nat)
    requires PlainKeys(Object(left)) && PlainKeys(Object(right)) && i < |Walk("", Object(left), Object(right))|
    ensures var diffs := Walk("", Object(left), Object(right));
            && GetParts(Object(left), Split(diffs[i].path)) == diffs[i].left
            && GetParts(Object(right), Split(diffs[i].path)) == diffs[i].right
            && diffs[i].left != diffs[i].right
            && forall j :: 0 <= j < |diffs| && j != i ==> !AtOrBelow(diffs[j].path, diffs[i].path)
  {
    var a, b := Object(left), Object(right);
    var leaves := Leaves([], a, b);
    WalkShowsLeaves([], a, b);
    LeavesRead([], a, b);
    NeverAtRoot(left, right);
    hide Walk, Leaves, PlainKeys, Split, Path;
    assert Path([]) == "" by { EmptyPath(); }
    assert leaves[i].parts[0..] == leaves[i].parts;
    SplitPath(leaves[i].parts);
    var diffs := Walk("", a, b);
    forall j | 0 <= j < |diffs| && j != i ensures !AtOrBelow(diffs[j].path, diffs[i].path) {
      BelowIsPrefix(leaves[j].parts, leaves[i].parts);
    }
  }

  lemma EmptyPath()
    ensures Path([]) == ""
  {
  }

  /** Two documents differ at named fields, never as a whole. */
  lemma NeverAtRoot(left: map<string, Json>, right: map<string, Json>)
    requires PlainKeys(Object(left)) && PlainKeys(Object(right))
    ensures var leaves := Leaves([], Object(left), Object(right));
            forall i :: 0 <= i < |leaves| ==> leaves[i].parts != []
  {
    var a, b := Object(left), Object(right);
    KeysRead([], a, b, SortedKeys(Union(a, b)));
    hide PlainKeys, LeavesOf, AllRead;
  }

  // ---------------------------------------------------------------------------------------
  // Repeat blockers
  // ---------------------------------------------------------------------------------------

  datatype Check = Check(parts: seq<string>, reason: string)

  const CHECKS: seq<Check> := [
    Check(["model", "artifact_digest"], "model_digest_changed"),
    Check(["machine_fingerprint"], "machine_changed"),
    Check(["provider", "version"], "provider_version_changed"),
    Check(["benchmark", "dataset_hashes"], "dataset_hash_changed")]

  datatype RepeatBlocker = RepeatBlocker(path: string, recorded: Json, observed: Json, reason: string)

  predicate Moved(recorded: map<string, Json>, observed: map<string, Json>, c: Check) {
    GetParts(Object(recorded), c.parts) != GetParts(Object(observed), c.parts)
  }

  /** The blockers of the first n checks: one for each field that moved. */
  function Blockers(recorded: map<string, Json>, observed: map<string, Json>, n: nat): seq<RepeatBlocker>
    requires n <= |CHECKS|
  {
    if n == 0 then []
    else
      var front, c := Blockers(recorded, observed, n - 1), CHECKS[n - 1];
      if Moved(recorded, observed, c) then
        front + [RepeatBlocker(Path(c.parts), GetParts(Object(recorded), c.parts), GetParts(Object(observed), c.parts), c.reason)]
      else front
  }

  method CheckRepeatable(recorded: map<string, Json>, observed: map<string, Json>) returns (blockers: seq<RepeatBlocker>)
    ensures blockers == Blockers(recorded, observed, |CHECKS|)
  {
    blockers := [];
    var i := 0;
    while i < |CHECKS|
      invariant 0 <= i <= |CHECKS|
      invariant blockers == Blockers(recorded, observed, i)
    {
      CheckPathSplits(i);
      var before := Get(recorded, Path(CHECKS[i].parts));
      var after := Get(observed, Path(CHECKS[i].parts));
      hide GetParts;
      if before != after {
        blockers := blockers + [RepeatBlocker(Path(CHECKS[i].parts), before, after, CHECKS[i].reason)];
      }
      i := i + 1;
    }
  }

  lemma CheckPathSplits(i: nat)
    requires i < |CHECKS|
    ensures AllPlain(CHECKS[i].parts) && Split(Path(CHECKS[i].parts)) == CHECKS[i].parts
  {
    SplitPath(CHECKS[i].parts);
  }

  function BlockerIf(path: string, recorded: Json, observed: Json, reason: string): seq<RepeatBlocker> {
    if recorded == observed then [] else [RepeatBlocker(path, recorded, observed, reason)]
  }

  /** The value of a key, or of a key within an object; null where there is none. */
  function Inner(document: map<string, Json>, key: string, inner: string): Json {
    if key in document && document[key].Object? && inner in document[key].fields then document[key].fields[inner] else Null
  }

  lemma AtKey(document: map<string, Json>, key: string)
    ensures GetParts(Object(document), [key]) == if key in document then document[key] else Null
    ensures Path([key]) == key
  {
    assert [key][1..] == [];
    assert [key][..0] == [];
  }

  lemma AtInnerKey(document: map<string, Json>, key: string, inner: string)
    ensures GetParts(Object(document), [key, inner]) == Inner(document, key, inner)
    ensures Path([key, inner]) == key + "." + inner
  {
    assert [key, inner][1..] == [inner] && [inner][1..] == [];
    assert [key, inner][..1] == [key];
    AtKey(document, key);
    var child := Field(document, key);
    assert GetParts(child, [inner]) == if child.Object? then Field(child.fields, inner) else Null;
  }

  lemma BlockersStep(recorded: map<string, Json>, observed: map<string, Json>, n: nat, path: string, before: Json, after: Json)
    requires n < |CHECKS| && path == Path(CHECKS[n].parts)
    requires before == GetParts(Object(recorded), CHECKS[n].parts) && after == GetParts(Object(observed), CHECKS[n].parts)
    ensures Blockers(recorded, observed, n + 1) == Blockers(recorded, observed, n) + BlockerIf(path, before, after, CHECKS[n].reason)
  {
    hide GetParts, Path;
  }

  /** A repeat is blocked, in this order, by another artifact, another machine, another provider version and other data. */
  lemma BlockersAre(recorded: map<string, Json>, observed: map<string, Json>)
    ensures Blockers(recorded, observed, |CHECKS|) ==
            BlockerIf("model.artifact_digest", Inner(recorded, "model", "artifact_digest"), Inner(observed, "model", "artifact_digest"),
                      "model_digest_changed")
            + BlockerIf("machine_fingerprint", if "machine_fingerprint" in recorded then recorded["machine_fingerprint"] else Null,
                        if "machine_fingerprint" in observed then observed["machine_fingerprint"] else Null, "machine_changed")
            + BlockerIf("provider.version", Inner(recorded, "provider", "version"), Inner(observed, "provider", "version"),
                        "provider_version_changed")
            + BlockerIf("benchmark.dataset_hashes", Inner(recorded, "benchmark", "dataset_hashes"),
                        Inner(observed, "benchmark", "dataset_hashes"), "dataset_hash_changed")
  {
    hide GetParts, Path, Blockers, BlockerIf, Inner;
    PathNames();
    AtInnerKey(recorded, "model", "artifact_digest");
    AtInnerKey(observed, "model", "artifact_digest");
    AtKey(recorded, "machine_fingerprint");
    AtKey(observed, "machine_fingerprint");
    AtInnerKey(recorded, "provider", "version");
    AtInnerKey(observed, "provider", "version");
    AtInnerKey(recorded, "benchmark", "dataset_hashes");
    AtInnerKey(observed, "benchmark", "dataset_hashes");
    NoBlockers(recorded, observed);
    BlockersStep(recorded, observed, 0, "model.artifact_digest", Inner(recorded, "model", "artifact_digest"),
        Inner(observed, "model", "artifact_digest"));
    BlockersStep(recorded, observed, 1, "machine_fingerprint", GetParts(Object(recorded), ["machine_fingerprint"]),
        GetParts(Object(observed), ["machine_fingerprint"]));
    BlockersStep(recorded, observed, 2, "provider.version", Inner(recorded, "provider", "version"), Inner(observed,
        "provider", "version"));
    BlockersStep(recorded, observed, 3, "benchmark.dataset_hashes", Inner(recorded, "benchmark", "dataset_hashes"),
        Inner(observed, "benchmark", "dataset_hashes"));
  }

  lemma PathNames()
    ensures "model" + "." + "artifact_digest" == "model.artifact_digest"
    ensures "provider" + "." + "version" == "provider.version"
    ensures "benchmark" + "." + "dataset_hashes" == "benchmark.dataset_hashes"
  {
  }

  lemma NoBlockers(recorded: map<string, Json>, observed: map<string, Json>)
    ensures Blockers(recorded, observed, 0) == []
  {
  }

  /** Documents of the built shape: model, provider and benchmark are objects. */
  predicate Built(document: map<string, Json>) {
    Field(document, "model").Object? && Field(document, "provider").Object? && Field(document, "benchmark").Object?
  }

  /** No nested object of the value has a null-valued key. */
  predicate NullFree(j: Json) {
    j.Object? ==> forall k :: k in j.fields ==> j.fields[k] != Null && NullFree(j.fields[k])
  }

  lemma {:induction false} NullFreeUnchanged(j: Json)
    requires NullFree(j)
    ensures WithoutNulls(j) == j
  {
    if j.Object? {
      forall k | k in j.fields ensures WithoutNulls(j.fields[k]) == j.fields[k] {
        NullFreeUnchanged(j.fields[k]);
      }
      assert WithoutNulls(j).fields == j.fields;
    }
  }

  /** An entry of the diff at or below a path. */
  ghost predicate HasEntry(diffs: seq<FieldDiff>, path: string) {
    exists i :: 0 <= i < |diffs| && AtOrBelow(diffs[i].path, path)
  }

  /** Everything the walk records under a path lies at or below it. */
  lemma {:induction false} WalkStaysBelow(prefix: string, first: Json, second: Json)
    requires prefix != ""
    ensures forall i :: 0 <= i < |Walk(prefix, first, second)| ==> AtOrBelow(Walk(prefix, first, second)[i].path, prefix)
    decreases if first.Object? then 1 else 0, first, 1, 0
  {
    if first.Object? && second.Object? {
      KeysStayBelow(prefix, first, second, SortedKeys(Union(first, second)));
      WalkObjects(prefix, first, second);
      hide Walk, WalkKeys, AtOrBelow;
    }
  }

  lemma {:induction false} KeysStayBelow(prefix: string, first: Json, second: Json, keys: seq<string>)
    requires prefix != "" && first.Object? && second.Object?
    requires forall i :: 0 <= i < |keys| ==> keys[i] in Union(first, second)
    ensures forall i :: 0 <= i < |WalkKeys(prefix, first, second, keys)| ==>
      AtOrBelow(WalkKeys(prefix, first, second, keys)[i].path, prefix)
    decreases 1, first, 0, |keys|
  {
    hide Walk;
    if keys != [] {
      var front, key := keys[..|keys| - 1], keys[|keys| - 1];
      KeysStayBelow(prefix, first, second, front);
      var child := Child(prefix, key);
      assert key in Union(first, second);
      var last := Walk(child, Field(first.fields, key), Field(second.fields, key));
      WalkStaysBelow(child, Field(first.fields, key), Field(second.fields, key));
      forall i | 0 <= i < |last| ensures AtOrBelow(last[i].path, prefix) {
        BelowChild(last[i].path, prefix, key);
      }
    }
  }

  lemma BelowChild(path: string, prefix: string, key: string)
    requires AtOrBelow(path, prefix + "." + key)
    ensures AtOrBelow(path, prefix)
  {
    var child := prefix + "." + key;
    assert path[..|child|] == child;
    assert path[|prefix|] == child[|prefix|] == '.';
    assert path[..|prefix|] == child[..|prefix|] == prefix;
  }

  /** What the walk records for one key is part of what it records for the object. */
  lemma {:induction false} WalkContains(prefix: string, first: Json, second: Json, keys: seq<string>, key: string)
    requires first.Object? && second.Object? && key in keys
    ensures forall d :: d in Walk(Child(prefix, key), Field(first.fields, key), Field(second.fields, key)) ==>
              d in WalkKeys(prefix, first, second, keys)
  {
    hide Walk;
    var front, last := keys[..|keys| - 1], keys[|keys| - 1];
    assert keys == front + [last];
    if key != last {
      WalkContains(prefix, first, second, front, key);
    }
  }

  lemma WalkReaches(prefix: string, first: Json, second: Json, key: string)
    requires first.Object? && second.Object?
    ensures forall d :: d in Walk(Child(prefix, key), Field(first.fields, key), Field(second.fields, key)) ==>
              d in Walk(prefix, first, second)
  {
    WalkObjects(prefix, first, second);
    if key in Union(first, second) {
      assert key in SortedKeys(Union(first, second));
      WalkContains(prefix, first, second, SortedKeys(Union(first, second)), key);
    } else {
      WalkLeaf(Child(prefix, key), Null, Null);
    }
  }

  lemma PathOf(k: string, l: string)
    ensures Path([k]) == k && Path([k, l]) == k + "." + l
  {
    assert [k, l][..1] == [k];
  }

  lemma PartsOf(document: map<string, Json>, k: string, l: string)
    ensures GetParts(Object(document), [k]) == Field(document, k)
    ensures Field(document, k).Object? ==> GetParts(Object(document), [k, l]) == Field(Field(document, k).fields, l)
  {
    OnePart(Object(document), k);
    OnePart(Field(document, k), l);
    assert [k, l][1..] == [l];
  }

  lemma OnePart(document: Json, k: string)
    ensures GetParts(document, [k]) == if document.Object? then Field(document.fields, k) else Null
  {
    assert [k][1..] == [];
  }

  lemma FieldShows(recorded: map<string, Json>, observed: map<string, Json>, k: string)
    requires k != "" && WithoutNulls(GetParts(Object(recorded), [k])) != WithoutNulls(GetParts(Object(observed), [k]))
    ensures HasEntry(Walk("", Object(recorded), Object(observed)), Path([k]))
  {
    hide Walk, WithoutNulls, GetParts, HasEntry, Path;
    PathOf(k, k);
    PartsOf(recorded, k, k);
    PartsOf(observed, k, k);
    WalkReaches("", Object(recorded), Object(observed), k);
    SomeBelow(k, Field(recorded, k), Field(observed, k), Walk("", Object(recorded), Object(observed)));
  }

  lemma NestedShows(recorded: map<string, Json>, observed: map<string, Json>, k: string, l: string)
    requires k != "" && Field(recorded, k).Object? && Field(observed, k).Object?
    requires WithoutNulls(GetParts(Object(recorded), [k, l])) != WithoutNulls(GetParts(Object(observed), [k, l]))
    ensures HasEntry(Walk("", Object(recorded), Object(observed)), Path([k, l]))
  {
    hide Walk, WithoutNulls, GetParts, HasEntry, Path;
    var f, s := Field(recorded, k), Field(observed, k);
    PathOf(k, l);
    PartsOf(recorded, k, l);
    PartsOf(observed, k, l);
    WalkReaches("", Object(recorded), Object(observed), k);
    WalkReaches(k, f, s, l);
    SomeBelow(k + "." + l, Field(f.fields, l), Field(s.fields, l), Walk("", Object(recorded), Object(observed)));
  }

  /** Where one of the checked fields differs beyond null-valued keys, the diff has an entry at or below it. */
  lemma MovedShows(recorded: map<string, Json>, observed: map<string, Json>, n: nat)
    requires n < |CHECKS| && Built(recorded) && Built(observed)
    requires WithoutNulls(GetParts(Object(recorded), CHECKS[n].parts)) != WithoutNulls(GetParts(Object(observed), CHECKS[n].parts))
    ensures HasEntry(Walk("", Object(recorded), Object(observed)), Path(CHECKS[n].parts))
  {
    hide Walk, WithoutNulls, GetParts, HasEntry;
    var parts := CHECKS[n].parts;
    if |parts| == 2 {
      NestedShows(recorded, observed, parts[0], parts[1]);
      assert parts == [parts[0], parts[1]];
    } else {
      FieldShows(recorded, observed, parts[0]);
      assert parts == [parts[0]];
    }
  }

  lemma SomeBelow(path: string, first: Json, second: Json, diffs: seq<FieldDiff>)
    requires path != "" && WithoutNulls(first) != WithoutNulls(second)
    requires forall d :: d in Walk(path, first, second) ==> d in diffs
    ensures HasEntry(diffs, path)
  {
    SilentIffAlike(path, first, second);
    WalkStaysBelow(path, first, second);
    hide Walk, WithoutNulls, AtOrBelow;
    var d := Walk(path, first, second)[0];
    assert d in diffs;
    var i :| 0 <= i < |diffs| && diffs[i] == d;
    assert AtOrBelow(diffs[i].path, path);
  }

  /** Every blocker is visible in the diff when the checked values hold no null-valued keys. */
  lemma BlockersShow(recorded: map<string, Json>, observed: map<string, Json>, n: nat)
    requires n < |CHECKS| && Built(recorded) && Built(observed) && Moved(recorded, observed, CHECKS[n])
    requires NullFree(GetParts(Object(recorded), CHECKS[n].parts)) && NullFree(GetParts(Object(observed), CHECKS[n].parts))
    ensures HasEntry(Walk("", Object(recorded), Object(observed)), Path(CHECKS[n].parts))
  {
    NullFreeUnchanged(GetParts(Object(recorded), CHECKS[n].parts));
    NullFreeUnchanged(GetParts(Object(observed), CHECKS[n].parts));
    MovedShows(recorded, observed, n);
  }

  /** Values equal up to null-valued keys stay so along any path. */
  lemma {:induction false} AlikeBelow(first: Json, second: Json, parts: seq<string>)
    requires WithoutNulls(first) == WithoutNulls(second)
    ensures WithoutNulls(GetParts(first, parts)) == WithoutNulls(GetParts(second, parts))
    decreases |parts|
  {
    if parts != [] && first.Object? {
      assert second.Object?;
      WithoutNullsFields(first.fields, second.fields);
      var f, s := Field(first.fields, parts[0]), Field(second.fields, parts[0]);
      assert WithoutNulls(f) == WithoutNulls(s);
      AlikeBelow(f, s, parts[1..]);
    }
  }

  lemma {:induction false} GetConcat(document: Json, parts: seq<string>, more: seq<string>)
    requires parts != [] ==> GetParts(document, parts[..|parts| - 1]).Object?
    ensures GetParts(document, parts + more) == GetParts(GetParts(document, parts), more)
    decreases |more|
  {
    if more == [] {
      assert parts + more == parts;
    } else {
      var front, last := more[..|more| - 1], more[|more| - 1];
      assert parts + more == (parts + front) + [last] && more == front + [last];
      GetConcat(document, parts, front);
      GetSnoc(document, parts + front, last);
      GetSnoc(GetParts(document, parts), front, last);
    }
  }

  /** With plain keys, a checked field is visible in the diff exactly when it differs beyond null-valued keys;
      so a blocker has no entry precisely when the two values are equal once those are dropped. */
  lemma BlockerShownExactly(recorded: map<string, Json>, observed: map<string, Json>, n: nat)
    requires n < |CHECKS| && Built(recorded) && Built(observed)
    requires PlainKeys(Object(recorded)) && PlainKeys(Object(observed))
    ensures HasEntry(Walk("", Object(recorded), Object(observed)), Path(CHECKS[n].parts)) <==>
            WithoutNulls(GetParts(Object(recorded), CHECKS[n].parts)) != WithoutNulls(GetParts(Object(observed), CHECKS[n].parts))
  {
    var a, b := Object(recorded), Object(observed);
    var parts := CHECKS[n].parts;
    var diffs := Walk("", a, b);
    var x, y := GetParts(a, parts), GetParts(b, parts);
    if WithoutNulls(x) != WithoutNulls(y) {
      MovedShows(recorded, observed, n);
    } else if HasEntry(diffs, Path(parts)) {
      WalkShowsLeaves([], a, b);
      LeavesRead([], a, b);
      NeverAtRoot(recorded, observed);
      EmptyPath();
      CheckPathSplits(n);
      var i :| 0 <= i < |diffs| && AtOrBelow(diffs[i].path, Path(parts));
      var leaf := Leaves([], a, b)[i];
      EntryDiffers(recorded, observed, n, leaf);
    }
  }

  lemma ReadPlain(leaf: Leaf, first: Json, second: Json)
    requires Reads(leaf, [], first, second)
    ensures AllPlain(leaf.parts) && leaf.left == GetParts(first, leaf.parts) && leaf.right == GetParts(second, leaf.parts)
    ensures WithoutNulls(leaf.left) != WithoutNulls(leaf.right)
  {
    assert leaf.parts[0..] == leaf.parts;
    hide GetParts;
  }

  /** Below a path at which two documents are alike, they stay alike. */
  lemma LeafBelowDiffers(first: Json, second: Json, parts: seq<string>, leaf: Leaf)
    requires parts <= leaf.parts && parts != []
    requires GetParts(first, parts[..|parts| - 1]).Object? && GetParts(second, parts[..|parts| - 1]).Object?
    requires WithoutNulls(GetParts(first, leaf.parts)) != WithoutNulls(GetParts(second, leaf.parts))
    ensures WithoutNulls(GetParts(first, parts)) != WithoutNulls(GetParts(second, parts))
  {
    hide GetParts, WithoutNulls;
    var more := leaf.parts[|parts|..];
    assert leaf.parts == parts + more;
    GetConcat(first, parts, more);
    GetConcat(second, parts, more);
    if WithoutNulls(GetParts(first, parts)) == WithoutNulls(GetParts(second, parts)) {
      AlikeBelow(GetParts(first, parts), GetParts(second, parts), more);
    }
  }

  lemma EntryDiffers(recorded: map<string, Json>, observed: map<string, Json>, n: nat, leaf: Leaf)
    requires n < |CHECKS| && Built(recorded) && Built(observed)
    requires Reads(leaf, [], Object(recorded), Object(observed)) && leaf.parts != []
    requires AtOrBelow(Path(leaf.parts), Path(CHECKS[n].parts))
    ensures WithoutNulls(GetParts(Object(recorded), CHECKS[n].parts)) != WithoutNulls(GetParts(Object(observed), CHECKS[n].parts))
  {
    hide GetParts, WithoutNulls, Reads, AtOrBelow, Path, Built;
    var parts := CHECKS[n].parts;
    CheckPathSplits(n);
    FirstIsField(recorded, n);
    FirstIsField(observed, n);
    ReadPlain(leaf, Object(recorded), Object(observed));
    BelowIsPrefix(leaf.parts, parts);
    LeafBelowDiffers(Object(recorded), Object(observed), parts, leaf);
  }

  /** In a built document the parents of the checked fields are objects. */
  lemma FirstIsField(document: map<string, Json>, n: nat)
    requires n < |CHECKS| && Built(document)
    ensures var parts := CHECKS[n].parts; GetParts(Object(document), parts[..|parts| - 1]).Object?
  {
    var parts := CHECKS[n].parts;
    if |parts| == 2 {
      assert parts[..1] == [parts[0]] && parts[..1][1..] == [];
    } else {
      assert parts[..0] == [];
    }
  }

  /** A dataset hash recorded as null and one not recorded at all block a repeat no diff explains. */
  lemma NullHashUnexplained(document: map<string, Json>)
    requires Built(document)
    ensures var recorded := WithHashes(document, map["cases" := Null]);
            var observed := WithHashes(document, map[]);
            Built(recorded) && Built(observed) && Moved(recorded, observed, CHECKS[3])
            && Walk("", Object(recorded), Object(observed)) == []
  {
    var before, after := Object(map["cases" := Null]), Object(map[]);
    var recorded, observed := WithHashes(document, before.fields), WithHashes(document, after.fields);
    HashesRead(document, before.fields);
    HashesRead(document, after.fields);
    assert before != after by {
      assert "cases" in before.fields && "cases" !in after.fields;
    }
    assert WithoutNulls(before) == WithoutNulls(after);
    hide Walk, WithoutNulls, GetParts, WithHashes;
    SameButHashes(document, before.fields, after.fields);
    SilentIffAlike("", Object(recorded), Object(observed));
  }

  /** The document with these dataset hashes. */
  function WithHashes(document: map<string, Json>, hashes: map<string, Json>): map<string, Json>
    requires Built(document)
  {
    document["benchmark" := Object(Field(document, "benchmark").fields["dataset_hashes" := Object(hashes)])]
  }

  lemma HashesRead(document: map<string, Json>, hashes: map<string, Json>)
    requires Built(document)
    ensures Built(WithHashes(document, hashes))
    ensures GetParts(Object(WithHashes(document, hashes)), CHECKS[3].parts) == Object(hashes)
  {
    var parts := CHECKS[3].parts;
    assert parts[1..] == ["dataset_hashes"] && parts[1..][1..] == [];
  }

  lemma SameButHashes(document: map<string, Json>, hashes: map<string, Json>, others: map<string, Json>)
    requires Built(document) && WithoutNulls(Object(hashes)) == WithoutNulls(Object(others))
    ensures WithoutNulls(Object(WithHashes(document, hashes))) == WithoutNulls(Object(WithHashes(document, others)))
  {
    hide WithoutNulls;
    var was := Field(document, "benchmark").fields["dataset_hashes" := Object(hashes)];
    var now := Field(document, "benchmark").fields["dataset_hashes" := Object(others)];
    WithoutNullsFields(was, now);
    WithoutNullsFields(WithHashes(document, hashes), WithHashes(document, others));
  }
}
