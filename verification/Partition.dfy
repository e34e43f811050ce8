/** The seeded, stratified anchor/holdout split of src/freeweight/domain/calibration.py. The seeded
    shuffle of one stratum is an arbitrary function that permutes its argument. */
module Partition {
  import opened Ordering
  import opened Results
  import opened Sums

  type Id = nat

  datatype Graded = Graded(id: Id, grade: int)

  datatype Stratum = Stratum(grade: int, members: seq<Id>)

  datatype Split = Split(anchors: seq<Id>, holdout: seq<Id>, counts: seq<Stratum>)

  type Shuffle = (int, seq<Id>) -> seq<Id>

  ghost predicate Permutes(shuffle: Shuffle) {
    forall grade: int, members: seq<Id> :: multiset(shuffle(grade, members)) == multiset(members)
  }

  /** Python's round(): to the nearest integer, ties to the even one. */
  function Round(x: real): int {
    var floor := x.Floor;
    var fraction := x - floor as real;
    if fraction < 0.5 then floor
    else if fraction > 0.5 then floor + 1
    else if floor % 2 == 0 then floor
    else floor + 1
  }

  /** How many of n members are withheld: the rounded share, but at least one and not all of two or more. */
  function Wanted(n: nat, fraction: real): (wanted: nat)
    requires 0.0 < fraction < 1.0
    ensures wanted <= n
    ensures n >= 2 ==> 0 < wanted < n
  {
    RoundedShare(n, fraction);
    var wanted := Round(n as real * fraction);
    var atLeastOne := if wanted == 0 && n > 1 then 1 else wanted;
    if atLeastOne == n && n > 1 then n - 1 else atLeastOne
  }

  lemma RoundedShare(n: nat, fraction: real)
    requires 0.0 < fraction < 1.0
    ensures 0 <= Round(n as real * fraction) <= n
  {
    NonNegativeProduct(n as real, fraction);
    NonNegativeProduct(n as real, 1.0 - fraction);
  }

  /** strata.setdefault(grade, []).append(id) */
  function AddTo(strata: seq<Stratum>, grade: int, id: Id): seq<Stratum> {
    if strata == [] then [Stratum(grade, [id])]
    else
      var front, last := strata[..|strata| - 1], strata[|strata| - 1];
      if last.grade == grade then front + [Stratum(grade, last.members + [id])] else AddTo(front, grade, id) + [last]
  }

  function Strata(items: seq<Graded>): seq<Stratum> {
    if items == [] then []
    else
      var last := items[|items| - 1];
      AddTo(Strata(items[..|items| - 1]), last.grade, last.id)
  }

  function IdKey(g: Graded): real { g.id as real }

  function GradeKey(s: Stratum): real { s.grade as real }

  function IdOrder(id: Id): real { id as real }

  function SortedItems(graded: seq<Graded>): seq<Graded> { SortBy(graded, IdKey) }

  function SortedStrata(graded: seq<Graded>): seq<Stratum> { SortBy(Strata(SortedItems(graded)), GradeKey) }

  function Withheld(s: Stratum, fraction: real, shuffle: Shuffle): seq<Id>
    requires 0.0 < fraction < 1.0
  {
    var members := shuffle(s.grade, s.members);
    members[..Wanted(|members|, fraction)]
  }

  function Shown(s: Stratum, fraction: real, shuffle: Shuffle): seq<Id>
    requires 0.0 < fraction < 1.0
  {
    var members := shuffle(s.grade, s.members);
    members[Wanted(|members|, fraction)..]
  }

  function AllWithheld(strata: seq<Stratum>, fraction: real, shuffle: Shuffle): seq<Id>
    requires 0.0 < fraction < 1.0
  {
    if strata == [] then []
    else AllWithheld(strata[..|strata| - 1], fraction, shuffle) + Withheld(strata[|strata| - 1], fraction, shuffle)
  }

  function AllShown(strata: seq<Stratum>, fraction: real, shuffle: Shuffle): seq<Id>
    requires 0.0 < fraction < 1.0
  {
    if strata == [] then []
    else AllShown(strata[..|strata| - 1], fraction, shuffle) + Shown(strata[|strata| - 1], fraction, shuffle)
  }

  function PartitionOf(graded: seq<Graded>, fraction: real, shuffle: Shuffle): Result<Split> {
    if !(0.0 < fraction < 1.0) then ValueError
    else
      var strata := SortedStrata(graded);
      Ok(Split(SortBy(AllShown(strata, fraction, shuffle), IdOrder),
               SortBy(AllWithheld(strata, fraction, shuffle), IdOrder), strata))
  }

  /** Grouping the samples by grade, in the order of their identifiers. */
  method Stratify(items: seq<Graded>) returns (strata: seq<Stratum>)
    ensures strata == Strata(items)
  {
    hide AddTo;
    strata := [];
    for i := 0 to |items|
      invariant strata == Strata(items[..i])
    {
      assert items[..i + 1][..i] == items[..i];
      strata := AddTo(strata, items[i].grade, items[i].id);
    }
    assert items[..|items|] == items;
  }

  lemma NothingSplit(fraction: real, shuffle: Shuffle)
    requires 0.0 < fraction < 1.0
    ensures AllShown([], fraction, shuffle) == [] && AllWithheld([], fraction, shuffle) == []
  {
  }

  lemma SplitStep(strata: seq<Stratum>, i: nat, fraction: real, shuffle: Shuffle)
    requires 0.0 < fraction < 1.0 && i < |strata|
    ensures AllShown(strata[..i + 1], fraction, shuffle) ==
            AllShown(strata[..i], fraction, shuffle) + Shown(strata[i], fraction, shuffle)
    ensures AllWithheld(strata[..i + 1], fraction, shuffle) ==
            AllWithheld(strata[..i], fraction, shuffle) + Withheld(strata[i], fraction, shuffle)
  {
    hide Shown, Withheld;
    assert strata[..i + 1][..i] == strata[..i];
  }

  method PartitionSamples(graded: seq<Graded>, fraction: real, shuffle: Shuffle) returns (r: Result<Split>)
    ensures r == PartitionOf(graded, fraction, shuffle)
  {
    if !(0.0 < fraction < 1.0) {
      return ValueError;
    }
    hide SortBy, Strata, Withheld, Shown, AllShown, AllWithheld;
    var strata := Stratify(SortedItems(graded));
    var ordered := SortBy(strata, GradeKey);
    var anchors: seq<Id>, holdout: seq<Id> := [], [];
    NothingSplit(fraction, shuffle);
    for i := 0 to |ordered|
      invariant anchors == AllShown(ordered[..i], fraction, shuffle)
      invariant holdout == AllWithheld(ordered[..i], fraction, shuffle)
    {
      SplitStep(ordered, i, fraction, shuffle);
      holdout := holdout + Withheld(ordered[i], fraction, shuffle);
      anchors := anchors + Shown(ordered[i], fraction, shuffle);
    }
    assert ordered[..|ordered|] == ordered;
    return Ok(Split(SortBy(anchors, IdOrder), SortBy(holdout, IdOrder), ordered));
  }

  // ---------------------------------------------------------------------------------------
  // The two halves are disjoint and cover the graded samples
  // ---------------------------------------------------------------------------------------

  function Ids(items: seq<Graded>): (ids: seq<Id>)
    ensures |ids| == |items| && forall i :: 0 <= i < |items| ==> ids[i] == items[i].id
  {
    seq(|items|, i requires 0 <= i < |items| => items[i].id)
  }

  function AllMembers(strata: seq<Stratum>): seq<Id> {
    if strata == [] then [] else AllMembers(strata[..|strata| - 1]) + strata[|strata| - 1].members
  }

  lemma {:induction false} AddToMembers(strata: seq<Stratum>, grade: int, id: Id)
    ensures multiset(AllMembers(AddTo(strata, grade, id))) == multiset(AllMembers(strata)) + multiset{id}
  {
    if strata == [] {
      assert AllMembers([Stratum(grade, [id])]) == AllMembers([]) + [id];
    } else {
      var front, last := strata[..|strata| - 1], strata[|strata| - 1];
      if last.grade == grade {
        var added := front + [Stratum(grade, last.members + [id])];
        assert added[..|added| - 1] == front;
      } else {
        AddToMembers(front, grade, id);
        var added := AddTo(front, grade, id) + [last];
        assert added[..|added| - 1] == AddTo(front, grade, id);
      }
    }
  }

  lemma NoMembers()
    ensures Strata([]) == [] && AllMembers([]) == [] && Ids([]) == []
  {
  }

  lemma StrataStep(items: seq<Graded>)
    requires items != []
    ensures var front, last := items[..|items| - 1], items[|items| - 1];
            Strata(items) == AddTo(Strata(front), last.grade, last.id)
  {
    hide AddTo;
  }

  lemma IdsStep(items: seq<Graded>)
    requires items != []
    ensures var front, last := items[..|items| - 1], items[|items| - 1];
            multiset(Ids(items)) == multiset(Ids(front)) + multiset{last.id}
  {
    var n := |items| - 1;
    assert Ids(items) == Ids(items[..n]) + [items[n].id];
    hide Ids;
  }

  lemma {:induction false} StrataMembers(items: seq<Graded>)
    ensures multiset(AllMembers(Strata(items))) == multiset(Ids(items))
  {
    hide AllMembers, Strata, Ids, AddTo;
    if items == [] {
      NoMembers();
    } else {
      var front, last := items[..|items| - 1], items[|items| - 1];
      StrataMembers(front);
      AddToMembers(Strata(front), last.grade, last.id);
      StrataStep(items);
      IdsStep(items);
    }
  }

  lemma {:induction false} MembersConcat(a: seq<Stratum>, b: seq<Stratum>)
    ensures multiset(AllMembers(a + b)) == multiset(AllMembers(a)) + multiset(AllMembers(b))
  {
    if b == [] {
      assert a + b == a;
    } else {
      var n := |b| - 1;
      assert (a + b)[..|a + b| - 1] == a + b[..n];
      MembersConcat(a, b[..n]);
    }
  }

  lemma MembersWithout(b: seq<Stratum>, i: nat)
    requires i < |b|
    ensures multiset(AllMembers(b)) == multiset(AllMembers(b[..i] + b[i + 1..])) + multiset(AllMembers([b[i]]))
  {
    hide AllMembers;
    assert b == b[..i] + ([b[i]] + b[i + 1..]);
    MembersConcat(b[..i], [b[i]] + b[i + 1..]);
    MembersConcat([b[i]], b[i + 1..]);
    MembersConcat(b[..i], b[i + 1..]);
  }

  lemma {:induction false} MembersPermutation(a: seq<Stratum>, b: seq<Stratum>)
    requires multiset(a) == multiset(b)
    ensures multiset(AllMembers(a)) == multiset(AllMembers(b))
  {
    hide AllMembers;
    if a == [] {
      assert |multiset(b)| == 0;
    } else {
      var n := |a| - 1;
      assert a == a[..n] + [a[n]];
      assert a[n] in multiset(b);
      var i :| 0 <= i < |b| && b[i] == a[n];
      var rest := b[..i] + b[i + 1..];
      MultisetWithout(b, i);
      assert multiset(a[..n]) == multiset(a) - multiset{a[n]};
      MembersPermutation(a[..n], rest);
      MembersWithout(b, i);
      MembersConcat(a[..n], [a[n]]);
    }
  }

  lemma MultisetWithout(b: seq<Stratum>, i: nat)
    requires i < |b|
    ensures multiset(b[..i] + b[i + 1..]) == multiset(b) - multiset{b[i]}
  {
    assert b == b[..i] + ([b[i]] + b[i + 1..]);
  }

  lemma HalvesOfStratum(s: Stratum, fraction: real, shuffle: Shuffle)
    requires 0.0 < fraction < 1.0 && Permutes(shuffle)
    ensures multiset(Shown(s, fraction, shuffle)) + multiset(Withheld(s, fraction, shuffle)) == multiset(s.members)
  {
    var members := shuffle(s.grade, s.members);
    var w := Wanted(|members|, fraction);
    assert members == members[..w] + members[w..];
  }

  lemma {:induction false} HalvesOfStrata(strata: seq<Stratum>, fraction: real, shuffle: Shuffle)
    requires 0.0 < fraction < 1.0 && Permutes(shuffle)
    ensures multiset(AllShown(strata, fraction, shuffle)) + multiset(AllWithheld(strata, fraction, shuffle))
         == multiset(AllMembers(strata))
  {
    if strata != [] {
      var n := |strata| - 1;
      HalvesOfStrata(strata[..n], fraction, shuffle);
      HalvesOfStratum(strata[n], fraction, shuffle);
      hide Shown, Withheld;
    }
  }

  function IsId(id: Id): Graded -> real { (g: Graded) => if g.id == id then 1.0 else 0.0 }

  lemma {:induction false} IdCount(graded: seq<Graded>, id: Id)
    ensures multiset(Ids(graded))[id] as real == SumOf(graded, IsId(id))
  {
    if graded != [] {
      var n := |graded| - 1;
      IdCount(graded[..n], id);
      assert Ids(graded) == Ids(graded[..n]) + [graded[n].id];
    }
  }

  lemma IdsPermutation(a: seq<Graded>, b: seq<Graded>)
    requires multiset(a) == multiset(b)
    ensures multiset(Ids(a)) == multiset(Ids(b))
  {
    forall id: Id ensures multiset(Ids(a))[id] == multiset(Ids(b))[id] {
      IdCount(a, id);
      IdCount(b, id);
      SumPermutation(a, b, IsId(id));
    }
  }

  ghost predicate DistinctIds(graded: seq<Graded>) {
    forall i, j :: 0 <= i < j < |graded| ==> graded[i].id != graded[j].id
  }

  /** Every graded sample lands in exactly one half, as often as it was graded. */
  lemma PartitionCovers(graded: seq<Graded>, fraction: real, shuffle: Shuffle)
    requires 0.0 < fraction < 1.0 && Permutes(shuffle)
    ensures var split := PartitionOf(graded, fraction, shuffle).value;
            multiset(split.anchors) + multiset(split.holdout) == multiset(Ids(graded))
  {
    hide SortBy, Strata;
    var items := SortedItems(graded);
    StrataMembers(items);
    IdsPermutation(items, graded);
    MembersPermutation(SortedStrata(graded), Strata(items));
    HalvesOfStrata(SortedStrata(graded), fraction, shuffle);
  }

  lemma PartitionDisjoint(graded: seq<Graded>, fraction: real, shuffle: Shuffle, id: Id)
    requires 0.0 < fraction < 1.0 && Permutes(shuffle) && DistinctIds(graded)
    ensures var split := PartitionOf(graded, fraction, shuffle).value;
            && (id in split.anchors || id in split.holdout <==> id in Ids(graded))
            && !(id in split.anchors && id in split.holdout)
  {
    PartitionCovers(graded, fraction, shuffle);
    var split := PartitionOf(graded, fraction, shuffle).value;
    hide PartitionOf;
    AtMostOnce(graded, id);
    assert multiset(split.anchors)[id] + multiset(split.holdout)[id] == multiset(Ids(graded))[id];
    assert id in split.anchors <==> multiset(split.anchors)[id] > 0;
    assert id in split.holdout <==> multiset(split.holdout)[id] > 0;
    assert id in Ids(graded) <==> multiset(Ids(graded))[id] > 0;
  }

  lemma {:induction false} AtMostOnce(graded: seq<Graded>, id: Id)
    requires DistinctIds(graded)
    ensures multiset(Ids(graded))[id] <= 1
  {
    if graded != [] {
      var n := |graded| - 1;
      AtMostOnce(graded[..n], id);
      assert Ids(graded) == Ids(graded[..n]) + [graded[n].id];
      forall k | 0 <= k < n ensures Ids(graded[..n])[k] != graded[n].id {
      }
    }
  }

  // ---------------------------------------------------------------------------------------
  // Both halves span the grades
  // ---------------------------------------------------------------------------------------

  /** Every id of the stratum is one of its grade's samples, and has them all. */
  ghost predicate Complete(strata: seq<Stratum>, items: seq<Graded>) {
    && (forall s :: 0 <= s < |strata| ==> Faithful(strata[s], items))
    && (forall i :: 0 <= i < |items| ==> Placed(strata, items[i]))
    && DistinctGrades(strata)
  }

  ghost predicate DistinctGrades(strata: seq<Stratum>) {
    forall s, t :: 0 <= s < t < |strata| ==> strata[s].grade != strata[t].grade
  }

  ghost predicate HasGrade(strata: seq<Stratum>, grade: int) {
    exists s :: 0 <= s < |strata| && strata[s].grade == grade
  }

  ghost predicate Faithful(s: Stratum, items: seq<Graded>) {
    forall m :: 0 <= m < |s.members| ==> Graded(s.members[m], s.grade) in items
  }

  ghost predicate Placed(strata: seq<Stratum>, g: Graded) {
    exists s :: 0 <= s < |strata| && strata[s].grade == g.grade && g.id in strata[s].members
  }

  lemma {:induction false} AddToComplete(strata: seq<Stratum>, items: seq<Graded>, g: Graded)
    requires Complete(strata, items)
    ensures Complete(AddTo(strata, g.grade, g.id), items + [g])
  {
    AddToPlaced(strata, g.grade, g.id);
    AddToGrades(strata, g.grade, g.id);
    var added := AddTo(strata, g.grade, g.id);
    forall s | 0 <= s < |added| ensures Faithful(added[s], items + [g]) {
      AddToFaithful(strata, items, g, s);
    }
    forall i | 0 <= i < |items + [g]| ensures Placed(added, (items + [g])[i]) {
      if i < |items| {
        assert Placed(strata, items[i]);
        AddToKeeps(strata, g.grade, g.id, items[i]);
      }
    }
  }

  lemma {:induction false} AddToFaithful(strata: seq<Stratum>, items: seq<Graded>, g: Graded, s: nat)
    requires forall t :: 0 <= t < |strata| ==> Faithful(strata[t], items)
    requires s < |AddTo(strata, g.grade, g.id)|
    ensures Faithful(AddTo(strata, g.grade, g.id)[s], items + [g])
  {
    assert g in items + [g];
    forall x | x in items ensures x in items + [g] {
    }
    if strata != [] {
      var n := |strata| - 1;
      var front, last := strata[..n], strata[n];
      assert Faithful(last, items);
      if last.grade == g.grade {
        if s < n {
          assert Faithful(strata[s], items);
        }
      } else if s < |AddTo(front, g.grade, g.id)| {
        AddToFaithful(front, items, g, s);
      }
    }
  }

  lemma {:induction false} AddToPlaced(strata: seq<Stratum>, grade: int, id: Id)
    ensures Placed(AddTo(strata, grade, id), Graded(id, grade))
  {
    if strata == [] {
      assert AddTo(strata, grade, id)[0].grade == grade && id in AddTo(strata, grade, id)[0].members;
    } else {
      var n := |strata| - 1;
      var front, last := strata[..n], strata[n];
      var added := AddTo(strata, grade, id);
      if last.grade == grade {
        assert added[n] == Stratum(grade, last.members + [id]);
      } else {
        AddToPlaced(front, grade, id);
        var s :| 0 <= s < |AddTo(front, grade, id)| && AddTo(front, grade, id)[s].grade == grade
                 && id in AddTo(front, grade, id)[s].members;
        assert added[s] == AddTo(front, grade, id)[s];
      }
    }
  }

  lemma {:induction false} AddToKeeps(strata: seq<Stratum>, grade: int, id: Id, g: Graded)
    requires Placed(strata, g)
    ensures Placed(AddTo(strata, grade, id), g)
  {
    var n := |strata| - 1;
    var front, last := strata[..n], strata[n];
    var added := AddTo(strata, grade, id);
    var s :| 0 <= s < |strata| && strata[s].grade == g.grade && g.id in strata[s].members;
    if last.grade == grade {
      assert added[s].grade == g.grade && g.id in added[s].members;
    } else if s == n {
      assert added[|added| - 1] == last;
    } else {
      assert front[s] == strata[s];
      AddToKeeps(front, grade, id, g);
      var t :| 0 <= t < |AddTo(front, grade, id)| && AddTo(front, grade, id)[t].grade == g.grade
               && g.id in AddTo(front, grade, id)[t].members;
      assert added[t] == AddTo(front, grade, id)[t];
    }
  }

  lemma {:induction false} AddToGrades(strata: seq<Stratum>, grade: int, id: Id)
    requires DistinctGrades(strata)
    ensures DistinctGrades(AddTo(strata, grade, id))
    ensures forall g :: HasGrade(AddTo(strata, grade, id), g) ==> g == grade || HasGrade(strata, g)
  {
    var added := AddTo(strata, grade, id);
    if strata != [] {
      var n := |strata| - 1;
      if strata[n].grade == grade {
        assert forall s :: 0 <= s < |added| ==> added[s].grade == strata[s].grade;
      } else {
        var front := AddTo(strata[..n], grade, id);
        AddToGrades(strata[..n], grade, id);
        assert added == front + [strata[n]];
        forall s | 0 <= s < |front| ensures front[s].grade != strata[n].grade {
          assert HasGrade(front, front[s].grade);
        }
        forall g | HasGrade(added, g) && g != grade ensures HasGrade(strata, g) {
          var s :| 0 <= s < |added| && added[s].grade == g;
          if s < |front| {
            assert HasGrade(front, g);
            var t :| 0 <= t < n && strata[..n][t].grade == g;
            assert strata[t].grade == g;
          } else {
            assert strata[n].grade == g;
          }
        }
      }
    }
  }

  lemma {:induction false} StrataComplete(items: seq<Graded>)
    ensures Complete(Strata(items), items)
  {
    if items != [] {
      var front, last := items[..|items| - 1], items[|items| - 1];
      StrataComplete(front);
      AddToComplete(Strata(front), front, last);
      assert items == front + [last];
    }
  }

  lemma CompleteReordered(strata: seq<Stratum>, strata': seq<Stratum>, items: seq<Graded>, items': seq<Graded>)
    requires Complete(strata, items) && multiset(strata) == multiset(strata') && multiset(items) == multiset(items')
    ensures forall s :: 0 <= s < |strata'| ==> Faithful(strata'[s], items') && strata'[s] in strata
    ensures forall s :: 0 <= s < |strata| ==> strata[s] in strata'
    ensures forall i :: 0 <= i < |items'| ==> Placed(strata, items'[i])
  {
    forall s | 0 <= s < |strata'| ensures Faithful(strata'[s], items') && strata'[s] in strata {
      assert strata'[s] in multiset(strata);
      var t :| 0 <= t < |strata| && strata[t] == strata'[s];
      assert Faithful(strata[t], items);
      forall m | 0 <= m < |strata[t].members| ensures Graded(strata[t].members[m], strata[t].grade) in items' {
        assert Graded(strata[t].members[m], strata[t].grade) in multiset(items);
      }
    }
    forall s | 0 <= s < |strata| ensures strata[s] in strata' {
      assert strata[s] in multiset(strata');
    }
    forall i | 0 <= i < |items'| ensures Placed(strata, items'[i]) {
      assert items'[i] in multiset(items);
      var j :| 0 <= j < |items| && items[j] == items'[i];
      assert Placed(strata, items[j]);
    }
  }

  lemma {:induction false} HalvesContain(strata: seq<Stratum>, s: nat, fraction: real, shuffle: Shuffle)
    requires 0.0 < fraction < 1.0 && s < |strata|
    ensures forall id :: id in Withheld(strata[s], fraction, shuffle) ==> id in AllWithheld(strata, fraction, shuffle)
    ensures forall id :: id in Shown(strata[s], fraction, shuffle) ==> id in AllShown(strata, fraction, shuffle)
  {
    hide Withheld, Shown;
    if s < |strata| - 1 {
      HalvesContain(strata[..|strata| - 1], s, fraction, shuffle);
    }
  }

  lemma BothHalvesNonEmpty(s: Stratum, fraction: real, shuffle: Shuffle) returns (held: Id, shown: Id)
    requires 0.0 < fraction < 1.0 && Permutes(shuffle) && |s.members| >= 2
    ensures held in Withheld(s, fraction, shuffle) && held in s.members
    ensures shown in Shown(s, fraction, shuffle) && shown in s.members
  {
    var members := shuffle(s.grade, s.members);
    assert multiset(members) == multiset(s.members);
    assert |multiset(members)| == |multiset(s.members)|;
    var w := Wanted(|members|, fraction);
    held, shown := members[0], members[|members| - 1];
    assert held in multiset(members) && shown in multiset(members);
    assert members[..w][0] == held && members[w..][|members| - w - 1] == shown;
  }

  /** Every grade held by two or more samples is present in both halves. */
  lemma PartitionSpans(graded: seq<Graded>, fraction: real, shuffle: Shuffle, i: nat, j: nat) returns (held: Id, shown: Id)
    requires 0.0 < fraction < 1.0 && Permutes(shuffle)
    requires i < j < |graded| && graded[i].grade == graded[j].grade && graded[i].id != graded[j].id
    ensures var split := PartitionOf(graded, fraction, shuffle).value;
            && held in split.holdout && Graded(held, graded[i].grade) in graded
            && shown in split.anchors && Graded(shown, graded[i].grade) in graded
  {
    hide SortBy, Strata, Withheld, Shown;
    var items, strata := SortedItems(graded), Strata(SortedItems(graded));
    var ordered := SortedStrata(graded);
    StrataComplete(items);
    CompleteReordered(strata, ordered, items, graded);
    assert Placed(strata, graded[i]) && Placed(strata, graded[j]);
    var s :| 0 <= s < |strata| && strata[s].grade == graded[i].grade && graded[i].id in strata[s].members;
    var t :| 0 <= t < |strata| && strata[t].grade == graded[j].grade && graded[j].id in strata[t].members;
    assert s == t;
    TwoMembers(strata[s].members, graded[i].id, graded[j].id);
    assert strata[s] in ordered;
    var o :| 0 <= o < |ordered| && ordered[o] == strata[s];
    held, shown := BothHalvesNonEmpty(ordered[o], fraction, shuffle);
    HalvesContain(ordered, o, fraction, shuffle);
    InSorted(AllWithheld(ordered, fraction, shuffle), held);
    InSorted(AllShown(ordered, fraction, shuffle), shown);
    assert Faithful(ordered[o], graded);
  }

  lemma TwoMembers(members: seq<Id>, a: Id, b: Id)
    requires a in members && b in members && a != b
    ensures |members| >= 2
  {
  }

  lemma InSorted(ids: seq<Id>, id: Id)
    requires id in ids
    ensures id in SortBy(ids, IdOrder)
  {
    assert id in multiset(SortBy(ids, IdOrder));
  }

  // ---------------------------------------------------------------------------------------
  // How many of each grade are withheld
  // ---------------------------------------------------------------------------------------

  /** The integer nearest to x, the even one of two. */
  lemma RoundMeans(x: real)
    ensures -0.5 <= Round(x) as real - x <= 0.5
    ensures (Round(x) as real - x == 0.5 || Round(x) as real - x == -0.5) ==> Round(x) % 2 == 0
  {
  }

  /** As many as the share asks for, to the nearest integer and the even one of two; but at least one and not all of two
      or more. One sample alone is withheld for a share above one half. */
  ghost predicate IsShare(w: int, n: int, fraction: real) {
    var x := n as real * fraction;
    && (n == 1 ==> w == if fraction > 0.5 then 1 else 0)
    && (n >= 2 && x <= 0.5 ==> w == 1)
    && (n >= 2 && (x > n as real - 0.5 || (x == n as real - 0.5 && n % 2 == 0)) ==> w == n - 1)
    && (n >= 2 && 0.5 < x && (x < n as real - 0.5 || (x == n as real - 0.5 && n % 2 == 1)) ==>
         -0.5 <= w as real - x <= 0.5 && (w as real - x == 0.5 || w as real - x == -0.5 ==> w % 2 == 0))
  }

  lemma WantedIsShare(n: nat, fraction: real)
    requires 0.0 < fraction < 1.0
    ensures IsShare(Wanted(n, fraction), n, fraction)
  {
    var x := n as real * fraction;
    RoundMeans(x);
    RoundedShare(n, fraction);
    if n == 1 {
      assert x == fraction;
    }
    hide Round;
  }

  /** The samples of one grade. */
  ghost function OfGrade(graded: seq<Graded>, grade: int): set<Id> {
    set i | 0 <= i < |graded| && graded[i].grade == grade :: graded[i].id
  }

  ghost function Elements(ids: seq<Id>): set<Id> { set i | 0 <= i < |ids| :: ids[i] }

  ghost predicate NoneTwice(ids: seq<Id>) { forall id: Id :: multiset(ids)[id] <= 1 }

  lemma {:induction false} ElementsCount(ids: seq<Id>)
    requires NoneTwice(ids)
    ensures |Elements(ids)| == |ids|
  {
    if ids == [] {
      assert Elements(ids) == {};
    } else {
      var n := |ids| - 1;
      var front: seq<Id>, last: Id := ids[..n], ids[n];
      assert ids == front + [last];
      assert multiset(ids) == multiset(front) + multiset{last};
      assert multiset(ids)[last] <= 1;
      assert last !in multiset(front);
      forall id: Id ensures multiset(front)[id] <= 1 {
        assert multiset(ids)[id] <= 1;
      }
      ElementsCount(front);
      assert Elements(ids) == Elements(front) + {last};
    }
  }

  lemma {:induction false} MembersAmong(strata: seq<Stratum>, s: nat, id: Id)
    requires s < |strata|
    ensures multiset(strata[s].members)[id] <= multiset(AllMembers(strata))[id]
  {
    if s < |strata| - 1 {
      MembersAmong(strata[..|strata| - 1], s, id);
    }
  }

  /** The stratum of a grade lists its samples, each once. */
  lemma StratumOf(graded: seq<Graded>, i: nat) returns (o: nat)
    requires DistinctIds(graded) && i < |graded|
    ensures o < |SortedStrata(graded)| && SortedStrata(graded)[o].grade == graded[i].grade
    ensures Elements(SortedStrata(graded)[o].members) == OfGrade(graded, graded[i].grade)
    ensures NoneTwice(SortedStrata(graded)[o].members)
  {
    hide SortBy, Strata;
    var items, strata, ordered := SortedItems(graded), Strata(SortedItems(graded)), SortedStrata(graded);
    StrataComplete(items);
    CompleteReordered(strata, ordered, items, graded);
    assert Placed(strata, graded[i]);
    var s :| 0 <= s < |strata| && strata[s].grade == graded[i].grade && graded[i].id in strata[s].members;
    assert strata[s] in ordered;
    o :| 0 <= o < |ordered| && ordered[o] == strata[s];
    assert Faithful(ordered[o], graded);
    MembersOfGrade(strata, graded, s);
    forall id: Id ensures multiset(ordered[o].members)[id] <= 1 {
      AllMembersOnce(graded, id);
      MembersAmong(ordered, o, id);
    }
  }

  lemma MembersOfGrade(strata: seq<Stratum>, graded: seq<Graded>, s: nat)
    requires s < |strata| && DistinctGrades(strata) && Faithful(strata[s], graded)
    requires forall i :: 0 <= i < |graded| ==> Placed(strata, graded[i])
    ensures Elements(strata[s].members) == OfGrade(graded, strata[s].grade)
  {
    var grade, members := strata[s].grade, strata[s].members;
    forall id | id in Elements(members) ensures id in OfGrade(graded, grade) {
      var m :| 0 <= m < |members| && members[m] == id;
      assert Graded(members[m], grade) in graded;
    }
    forall id | id in OfGrade(graded, grade) ensures id in Elements(members) {
      var i :| 0 <= i < |graded| && graded[i].grade == grade && graded[i].id == id;
      assert Placed(strata, graded[i]);
      var t :| 0 <= t < |strata| && strata[t].grade == grade && id in strata[t].members;
      assert t == s;
    }
  }

  lemma AllMembersOnce(graded: seq<Graded>, id: Id)
    requires DistinctIds(graded)
    ensures multiset(AllMembers(SortedStrata(graded)))[id] <= 1
  {
    hide SortBy, Strata, AllMembers, Ids;
    var items := SortedItems(graded);
    StrataMembers(items);
    IdsPermutation(items, graded);
    MembersPermutation(SortedStrata(graded), Strata(items));
    AtMostOnce(graded, id);
  }

  lemma MemberInHoldout(graded: seq<Graded>, fraction: real, shuffle: Shuffle, o: nat, id: Id)
    requires 0.0 < fraction < 1.0 && Permutes(shuffle) && DistinctIds(graded) && o < |SortedStrata(graded)|
    requires id in SortedStrata(graded)[o].members
    ensures id in Withheld(SortedStrata(graded)[o], fraction, shuffle) <==> id in PartitionOf(graded, fraction, shuffle).value.holdout
  {
    var strata := SortedStrata(graded);
    HalvesContain(strata, o, fraction, shuffle);
    HalvesOfStratum(strata[o], fraction, shuffle);
    OneHalfOnly(graded, fraction, shuffle, id);
    HoldoutIs(graded, fraction, shuffle);
    hide *;
    InHalf(Withheld(strata[o], fraction, shuffle), Shown(strata[o], fraction, shuffle), strata[o].members, id);
    if id in Withheld(strata[o], fraction, shuffle) {
      InSorted(AllWithheld(strata, fraction, shuffle), id);
    } else {
      InSorted(AllShown(strata, fraction, shuffle), id);
    }
  }

  lemma HoldoutIs(graded: seq<Graded>, fraction: real, shuffle: Shuffle)
    requires 0.0 < fraction < 1.0
    ensures var split := PartitionOf(graded, fraction, shuffle).value;
            && split.anchors == SortBy(AllShown(SortedStrata(graded), fraction, shuffle), IdOrder)
            && split.holdout == SortBy(AllWithheld(SortedStrata(graded), fraction, shuffle), IdOrder)
  {
    hide AllShown, AllWithheld, SortedStrata, SortBy;
  }

  /** A stratum's withheld members are those of its samples in the holdout, as many as wanted. */
  lemma WithheldOf(graded: seq<Graded>, fraction: real, shuffle: Shuffle, o: nat)
    requires 0.0 < fraction < 1.0 && Permutes(shuffle) && DistinctIds(graded)
    requires o < |SortedStrata(graded)| && NoneTwice(SortedStrata(graded)[o].members)
    ensures var s, split := SortedStrata(graded)[o], PartitionOf(graded, fraction, shuffle).value;
            && Elements(Withheld(s, fraction, shuffle)) == Elements(s.members) * Elements(split.holdout)
            && |Elements(Withheld(s, fraction, shuffle))| == Wanted(|s.members|, fraction)
  {
    var s, split := SortedStrata(graded)[o], PartitionOf(graded, fraction, shuffle).value;
    WithheldCount(s, fraction, shuffle);
    HalvesOfStratum(s, fraction, shuffle);
    var withheld, shown := Withheld(s, fraction, shuffle), Shown(s, fraction, shuffle);
    hide SortedStrata, AllWithheld, AllShown, Wanted, PartitionOf, Withheld, Shown, Permutes, NoneTwice, DistinctIds;
    forall id: Id ensures id in Elements(withheld) <==> id in Elements(s.members) && id in Elements(split.holdout) {
      InHalf(withheld, shown, s.members, id);
      if id in s.members {
        MemberInHoldout(graded, fraction, shuffle, o, id);
      }
    }
  }

  lemma OneHalfOnly(graded: seq<Graded>, fraction: real, shuffle: Shuffle, id: Id)
    requires 0.0 < fraction < 1.0 && Permutes(shuffle) && DistinctIds(graded)
    ensures var split := PartitionOf(graded, fraction, shuffle).value; !(id in split.anchors && id in split.holdout)
  {
    hide PartitionOf, Permutes;
    PartitionDisjoint(graded, fraction, shuffle, id);
  }

  lemma InHalf(withheld: seq<Id>, shown: seq<Id>, members: seq<Id>, id: Id)
    requires multiset(shown) + multiset(withheld) == multiset(members)
    ensures id in members <==> id in withheld || id in shown
  {
    assert id in members <==> multiset(members)[id] > 0;
    assert id in withheld <==> multiset(withheld)[id] > 0;
    assert id in shown <==> multiset(shown)[id] > 0;
  }

  lemma WithheldCount(s: Stratum, fraction: real, shuffle: Shuffle)
    requires 0.0 < fraction < 1.0 && Permutes(shuffle) && NoneTwice(s.members)
    ensures |Elements(Withheld(s, fraction, shuffle))| == Wanted(|s.members|, fraction)
  {
    HalvesOfStratum(s, fraction, shuffle);
    var members: seq<Id>, withheld: seq<Id> := shuffle(s.grade, s.members), Withheld(s, fraction, shuffle);
    assert multiset(members) == multiset(s.members);
    assert |multiset(members)| == |multiset(s.members)|;
    hide Permutes, Wanted;
    forall id: Id ensures multiset(withheld)[id] <= 1 {
      assert multiset(s.members)[id] <= 1;
    }
    ElementsCount(withheld);
  }

  /** Of the samples of each grade as many are in the holdout as the share asks for. */
  lemma HoldoutIsShare(graded: seq<Graded>, fraction: real, shuffle: Shuffle, i: nat)
    requires 0.0 < fraction < 1.0 && Permutes(shuffle) && DistinctIds(graded) && i < |graded|
    ensures var all, split := OfGrade(graded, graded[i].grade), PartitionOf(graded, fraction, shuffle).value;
            IsShare(|all * Elements(split.holdout)|, |all|, fraction)
  {
    var o := StratumOf(graded, i);
    var s := SortedStrata(graded)[o];
    ElementsCount(s.members);
    WithheldOf(graded, fraction, shuffle, o);
    hide *;
    WantedIsShare(|s.members|, fraction);
  }

  /** Each id above the one before. */
  ghost predicate Climbing(ids: seq<Id>) { forall i, j :: 0 <= i < j < |ids| ==> ids[i] < ids[j] }

  ghost predicate AllClimb(strata: seq<Stratum>, top: int) {
    forall s :: 0 <= s < |strata| ==>
      Climbing(strata[s].members) && forall m :: 0 <= m < |strata[s].members| ==> strata[s].members[m] <= top
  }

  lemma {:induction false} AddToClimbs(strata: seq<Stratum>, grade: int, id: Id, top: int)
    requires AllClimb(strata, top) && top < id
    ensures AllClimb(AddTo(strata, grade, id), id)
  {
    if strata != [] {
      var front, last := strata[..|strata| - 1], strata[|strata| - 1];
      assert AllClimb(front, top);
      if last.grade != grade {
        AddToClimbs(front, grade, id, top);
      }
    }
  }

  lemma {:induction false} StrataClimb(items: seq<Graded>)
    requires forall i, j :: 0 <= i < j < |items| ==> items[i].id < items[j].id
    ensures AllClimb(Strata(items), if items == [] then -1 else items[|items| - 1].id)
  {
    if items != [] {
      var n := |items| - 1;
      StrataClimb(items[..n]);
      StrataStep(items);
      AddToClimbs(Strata(items[..n]), items[n].grade, items[n].id, if n == 0 then -1 else items[n - 1].id);
      hide AllClimb, Strata;
    }
  }

  lemma ItemsClimb(graded: seq<Graded>)
    requires DistinctIds(graded)
    ensures var items := SortedItems(graded); forall i, j :: 0 <= i < j < |items| ==> items[i].id < items[j].id
  {
    var items := SortedItems(graded);
    assert SortedBy(items, IdKey) && multiset(items) == multiset(graded);
    hide SortBy;
    IdsPermutation(items, graded);
    forall i, j | 0 <= i < j < |items| ensures items[i].id < items[j].id {
      assert IdKey(items[i]) <= IdKey(items[j]);
      if items[i].id == items[j].id {
        AtMostOnce(graded, items[i].id);
        TwiceCounted(Ids(items), i, j);
      }
    }
  }

  lemma TwiceCounted(ids: seq<Id>, i: nat, j: nat)
    requires i < j < |ids| && ids[i] == ids[j]
    ensures multiset(ids)[ids[i]] >= 2
  {
    assert ids == ids[..i] + [ids[i]] + ids[i + 1..j] + [ids[j]] + ids[j + 1..];
  }

  lemma MembersClimb(graded: seq<Graded>, o: nat)
    requires DistinctIds(graded) && o < |SortedStrata(graded)|
    ensures Climbing(SortedStrata(graded)[o].members)
  {
    var strata, ordered := Strata(SortedItems(graded)), SortedStrata(graded);
    assert multiset(ordered) == multiset(strata);
    ItemsClimb(graded);
    StrataClimb(SortedItems(graded));
    hide SortBy, Strata, SortedItems, Climbing;
    assert ordered[o] in multiset(ordered);
    var s :| 0 <= s < |strata| && strata[s] == ordered[o];
  }

  lemma {:induction false} ClimbingUnique(a: seq<Id>, b: seq<Id>)
    requires Climbing(a) && Climbing(b) && Elements(a) == Elements(b)
    ensures a == b
  {
    if b != [] {
      assert b[0] in Elements(b);
    }
    if a != [] {
      assert a[0] in Elements(a);
      var m, n := |a| - 1, |b| - 1;
      assert a[m] in Elements(b) && b[n] in Elements(a);
      var i: nat :| i < |b| && b[i] == a[m];
      var j: nat :| j < |a| && a[j] == b[n];
      assert a[m] == b[n];
      FrontElements(a);
      FrontElements(b);
      ClimbingUnique(a[..m], b[..n]);
    }
  }

  lemma FrontElements(a: seq<Id>)
    requires Climbing(a) && a != []
    ensures Climbing(a[..|a| - 1]) && Elements(a[..|a| - 1]) == Elements(a) - {a[|a| - 1]}
  {
    var n := |a| - 1;
    forall id | id in Elements(a) - {a[n]} ensures id in Elements(a[..n]) {
      var i: nat :| i < |a| && a[i] == id;
      assert a[..n][i] == id;
    }
  }

  lemma WithheldFirst(s: Stratum, fraction: real, shuffle: Shuffle)
    requires 0.0 < fraction < 1.0 && Permutes(shuffle)
    ensures |shuffle(s.grade, s.members)| == |s.members|
    ensures Withheld(s, fraction, shuffle) == shuffle(s.grade, s.members)[..Wanted(|s.members|, fraction)]
  {
    var members := shuffle(s.grade, s.members);
    assert |multiset(members)| == |multiset(s.members)|;
    hide Wanted, Permutes;
  }

  /** Which they are: those that come first when the samples of the grade, in ascending order, are shuffled. The order the
      samples are given in has no part in it. */
  lemma HoldoutIsFirst(graded: seq<Graded>, fraction: real, shuffle: Shuffle, i: nat, ids: seq<Id>, id: Id)
    requires 0.0 < fraction < 1.0 && Permutes(shuffle) && DistinctIds(graded) && i < |graded|
    requires Climbing(ids) && Elements(ids) == OfGrade(graded, graded[i].grade) && id in ids
    ensures var shuffled, holdout := shuffle(graded[i].grade, ids), PartitionOf(graded, fraction, shuffle).value.holdout;
            && |Elements(ids) * Elements(holdout)| <= |shuffled|
            && (id in holdout <==> id in shuffled[..|Elements(ids) * Elements(holdout)|])
  {
    var o := StratumOf(graded, i);
    MembersClimb(graded, o);
    hide *;
    var s := SortedStrata(graded)[o];
    ClimbingUnique(ids, s.members);
    ElementsCount(s.members);
    WithheldOf(graded, fraction, shuffle, o);
    WithheldFirst(s, fraction, shuffle);
    MemberInHoldout(graded, fraction, shuffle, o, id);
  }

  /** The counts recorded beside the halves: grade by grade in ascending order, each with the number of its samples. */
  lemma CountsOfGrades(graded: seq<Graded>, fraction: real, shuffle: Shuffle, i: nat) returns (o: nat)
    requires 0.0 < fraction < 1.0 && DistinctIds(graded) && i < |graded|
    ensures var counts := PartitionOf(graded, fraction, shuffle).value.counts;
            && o < |counts| && counts[o].grade == graded[i].grade && |counts[o].members| == |OfGrade(graded, graded[i].grade)|
            && forall a, b :: 0 <= a < b < |counts| ==> counts[a].grade <= counts[b].grade
  {
    o := StratumOf(graded, i);
    var counts := SortedStrata(graded);
    ElementsCount(counts[o].members);
    assert SortedBy(counts, GradeKey);
    hide SortBy, Strata, AllShown, AllWithheld, NoneTwice, DistinctIds, Elements, OfGrade;
    forall a, b | 0 <= a < b < |counts| ensures counts[a].grade <= counts[b].grade {
      assert GradeKey(counts[a]) <= GradeKey(counts[b]);
    }
  }

  /** Both halves are listed in ascending order. */
  lemma HalvesAscend(graded: seq<Graded>, fraction: real, shuffle: Shuffle)
    requires 0.0 < fraction < 1.0
    ensures var split := PartitionOf(graded, fraction, shuffle).value;
            && (forall i, j :: 0 <= i < j < |split.anchors| ==> split.anchors[i] <= split.anchors[j])
            && (forall i, j :: 0 <= i < j < |split.holdout| ==> split.holdout[i] <= split.holdout[j])
  {
    var split := PartitionOf(graded, fraction, shuffle).value;
    hide AllShown, AllWithheld, SortedStrata;
    assert SortedBy(split.anchors, IdOrder) && SortedBy(split.holdout, IdOrder);
    hide SortBy;
    forall i, j | 0 <= i < j < |split.anchors| ensures split.anchors[i] <= split.anchors[j] {
      assert IdOrder(split.anchors[i]) <= IdOrder(split.anchors[j]);
    }
    forall i, j | 0 <= i < j < |split.holdout| ensures split.holdout[i] <= split.holdout[j] {
      assert IdOrder(split.holdout[i]) <= IdOrder(split.holdout[j]);
    }
  }
}
