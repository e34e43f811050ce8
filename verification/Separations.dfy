/** When the separation that src/freeweight/domain/comparison.py states for a group is one that separates. */
module Separations {
  import opened Results
  import opened Comparison

  /** The verdict, x being given before y, allows merging. */
  predicate Merges(judge: Judge, x: RunId, y: RunId) { Judged(judge, Pair(x, y)).MayMerge() }

  ghost function GroupsFor(judge: Judge, ids: seq<RunId>): Grouping { Grouped(IndexFor(judge, ids), ids) }

  /** Every separation stated is a verdict that forbids merging. */
  ghost predicate AllDeny(byPair: ByPair, groups: Grouping)
    requires AllFounded(groups)
  {
    forall g :: 0 < g < |groups| ==> !May(byPair, groups[g][0], groups[0][0])
  }

  /** Of three different runs, no first one may merge with two that may not merge with each other. */
  ghost predicate Agreeing(judge: Judge, runs: set<RunId>) {
    forall x, y, z :: x in runs && y in runs && z in runs && x != y && y != z && x != z ==>
      Merges(judge, x, y) && Merges(judge, x, z) ==> Merges(judge, y, z)
  }

  ghost predicate DrawnFrom(ids: seq<RunId>, runs: set<RunId>) {
    Distinct(ids) && forall i :: 0 <= i < |ids| ==> ids[i] in runs
  }

  // ---------------------------------------------------------------------------------------
  // Founders and groups
  // ---------------------------------------------------------------------------------------

  /** The first run founds the first group. */
  lemma {:induction false} FirstFounder(byPair: ByPair, ids: seq<RunId>)
    requires ids != []
    ensures var groups := Grouped(byPair, ids); groups != [] && groups[0] != [] && groups[0][0] == ids[0]
  {
    hide Joins, Place;
    var n := |ids| - 1;
    var at := Placed(byPair, Grouped(byPair, ids[..n]), ids[n]);
    if n > 0 {
      FirstFounder(byPair, ids[..n]);
    } else {
      assert ids[..n] == [];
      NothingGrouped(byPair);
    }
  }

  lemma {:induction false} DistinctOnce(ids: seq<RunId>, x: RunId)
    requires Distinct(ids)
    ensures multiset(ids)[x] <= 1
  {
    if ids != [] {
      var n := |ids| - 1;
      assert ids == ids[..n] + [ids[n]];
      DistinctOnce(ids[..n], x);
      if multiset(ids[..n])[x] > 0 {
        assert x in ids[..n];
      }
    }
  }

  lemma {:induction false} InTwoGroups(groups: Grouping, g: nat, h: nat, x: RunId)
    requires g < h < |groups| && x in groups[g] && x in groups[h]
    ensures multiset(Flatten(groups))[x] >= 2
  {
    var n := |groups| - 1;
    if h < n {
      InTwoGroups(groups[..n], g, h, x);
    } else {
      var i :| 0 <= i < |groups[g]| && groups[g][i] == x;
      assert groups[..n][g] == groups[g];
      FlattenHas(groups[..n], g, i);
      assert x in multiset(Flatten(groups[..n])) && x in multiset(groups[n]);
    }
  }

  /** Among distinct runs the verdict on two of them is the one reached with the earlier given first. */
  lemma EarlierFirst(judge: Judge, ids: seq<RunId>, i: nat, j: nat)
    requires Distinct(ids) && i < j < |ids|
    ensures Lookup(IndexFor(judge, ids), ids[j], ids[i]) == Some(Judged(judge, Pair(ids[i], ids[j])))
    ensures Lookup(IndexFor(judge, ids), ids[i], ids[j]) == Some(Judged(judge, Pair(ids[i], ids[j])))
  {
    IndexForIsIndexed(judge, ids);
    hide IndexFor, Judged;
  }

  lemma MayIsMerges(judge: Judge, ids: seq<RunId>, i: nat, j: nat)
    requires Distinct(ids) && i < j < |ids|
    ensures May(IndexFor(judge, ids), ids[j], ids[i]) <==> Merges(judge, ids[i], ids[j])
    ensures May(IndexFor(judge, ids), ids[i], ids[j]) <==> Merges(judge, ids[i], ids[j])
  {
    EarlierFirst(judge, ids, i, j);
    hide IndexFor, Judged, Lookup;
  }

  /** No run stands in the first group and in a later one. */
  lemma Apart(ids: seq<RunId>, groups: Grouping, g: nat, k: nat)
    requires Distinct(ids) && multiset(Flatten(groups)) == multiset(ids)
    requires 0 < g < |groups| && groups[g] != [] && k < |groups[0]|
    ensures groups[0][k] != groups[g][0] && groups[0][k] in ids && groups[g][0] in ids
  {
    hide Flatten, Distinct;
    DistinctOnce(ids, groups[0][k]);
    if groups[0][k] == groups[g][0] {
      InTwoGroups(groups, 0, g, groups[0][k]);
    }
    FlattenHas(groups, 0, k);
    FlattenHas(groups, g, 0);
    assert groups[0][k] in multiset(ids) && groups[g][0] in multiset(ids);
  }

  /** A later founder that may merge with the first was refused by another member of the first group. */
  lemma Refuser(byPair: ByPair, ids: seq<RunId>, groups: Grouping, g: nat) returns (refuser: RunId)
    requires Distinct(ids) && groups == Grouped(byPair, ids) && AllFounded(groups)
    requires 0 < g < |groups| && May(byPair, groups[g][0], groups[0][0])
    ensures refuser != groups[0][0] && refuser != groups[g][0] && groups[g][0] != groups[0][0]
    ensures groups[0][0] == ids[0] && refuser in ids && groups[g][0] in ids
    ensures May(byPair, refuser, groups[0][0]) && !May(byPair, groups[g][0], refuser)
  {
    if ids == [] {
      NothingGrouped(byPair);
    }
    GroupsPartition(byPair, ids);
    GroupsAreMergeable(byPair, ids);
    FirstFounder(byPair, ids);
    hide Grouped, Flatten, Lookup, Distinct, May;
    assert !Joins(byPair, groups[g][0], groups[0]);
    var k :| 0 <= k < |groups[0]| && !May(byPair, groups[g][0], groups[0][k]);
    refuser := groups[0][k];
    Apart(ids, groups, g, k);
    Apart(ids, groups, g, 0);
    assert May(byPair, groups[0][k], groups[0][0]);
  }

  // ---------------------------------------------------------------------------------------
  // When every stated separation separates
  // ---------------------------------------------------------------------------------------

  /** Where mergeability is transitive, every stated separation is one. */
  lemma TransitiveSeparationsDeny(byPair: ByPair, judge: Judge, ids: seq<RunId>)
    requires Indexed(byPair, judge, ids) && Distinct(ids) && Transitive(byPair, ids)
    ensures AllFounded(Grouped(byPair, ids)) && AllDeny(byPair, Grouped(byPair, ids))
  {
    GroupsPartition(byPair, ids);
    hide May, Grouped, Indexed;
    var groups := Grouped(byPair, ids);
    if !AllDeny(byPair, groups) {
      AllowedIsIntransitive(byPair, judge, ids, groups);
    }
  }

  lemma AllowedIsIntransitive(byPair: ByPair, judge: Judge, ids: seq<RunId>, groups: Grouping)
    requires Indexed(byPair, judge, ids) && Distinct(ids) && groups == Grouped(byPair, ids) && AllFounded(groups)
    requires !AllDeny(byPair, groups)
    ensures !Transitive(byPair, ids)
  {
    hide Place, Indexed, Distinct, May, Grouped;
    var g :| 0 < g < |groups| && May(byPair, groups[g][0], groups[0][0]);
    var refuser := Refuser(byPair, ids, groups, g);
    MayEitherWay(byPair, judge, ids, refuser, groups[0][0]);
    assert groups[0][0] in ids;
  }

  lemma MayEitherWay(byPair: ByPair, judge: Judge, ids: seq<RunId>, x: RunId, y: RunId)
    requires Indexed(byPair, judge, ids) && Distinct(ids) && x != y
    ensures May(byPair, x, y) <==> May(byPair, y, x)
  {
    LookupSymmetric(byPair, judge, ids, x, y);
  }

  lemma AllowedIsDisagreement(judge: Judge, runs: set<RunId>, ids: seq<RunId>, groups: Grouping)
    requires DrawnFrom(ids, runs) && groups == GroupsFor(judge, ids) && AllFounded(groups)
    requires !AllDeny(IndexFor(judge, ids), groups)
    ensures !Agreeing(judge, runs)
  {
    var byPair := IndexFor(judge, ids);
    hide Place, IndexFor, May, Grouped, Merges;
    var g :| 0 < g < |groups| && May(byPair, groups[g][0], groups[0][0]);
    var a := groups[g][0];
    var z := Refuser(byPair, ids, groups, g);
    var i :| 0 <= i < |ids| && ids[i] == a;
    var k :| 0 <= k < |ids| && ids[k] == z;
    MayIsMerges(judge, ids, 0, i);
    MayIsMerges(judge, ids, 0, k);
    MayIsMerges(judge, ids, if i < k then i else k, if i < k then k else i);
    assert !Merges(judge, if i < k then a else z, if i < k then z else a);
  }

  /** Three runs that disagree, given in that order, are grouped so that the separation stated for the third is a
      verdict that lets it merge. */
  lemma DisagreeingSeparationAllows(judge: Judge, x: RunId, y: RunId, z: RunId)
    requires x != y && y != z && x != z
    requires Merges(judge, x, y) && Merges(judge, x, z) && !Merges(judge, y, z)
    ensures GroupsFor(judge, [x, y, z]) == [[x, y], [z]]
    ensures May(IndexFor(judge, [x, y, z]), z, x)
  {
    var ids := [x, y, z];
    MayIsMerges(judge, ids, 0, 1);
    MayIsMerges(judge, ids, 0, 2);
    MayIsMerges(judge, ids, 1, 2);
    hide IndexFor, May, Merges, Grouped;
    SeparationMayNameAMergeablePair(IndexFor(judge, ids), x, y, z);
  }

  ghost predicate AlwaysDeny(judge: Judge, runs: set<RunId>) {
    forall ids :: DrawnFrom(ids, runs) ==>
      AllFounded(GroupsFor(judge, ids)) && AllDeny(IndexFor(judge, ids), GroupsFor(judge, ids))
  }

  /** Every list drawn from the runs gets only separations that separate if and only if no three of them disagree. */
  lemma SeparationsDenyExactly(judge: Judge, runs: set<RunId>)
    ensures AlwaysDeny(judge, runs) <==> Agreeing(judge, runs)
  {
    hide IndexFor, AllDeny, Merges, Grouped;
    if Agreeing(judge, runs) {
      forall ids | DrawnFrom(ids, runs)
        ensures AllFounded(GroupsFor(judge, ids)) && AllDeny(IndexFor(judge, ids), GroupsFor(judge, ids))
      {
        GroupsPartition(IndexFor(judge, ids), ids);
        if !AllDeny(IndexFor(judge, ids), GroupsFor(judge, ids)) {
          AllowedIsDisagreement(judge, runs, ids, GroupsFor(judge, ids));
        }
      }
    }
    if AlwaysDeny(judge, runs) {
      forall x, y, z | x in runs && y in runs && z in runs && x != y && y != z && x != z && Merges(judge, x, y) && Merges(judge, x, z)
        ensures Merges(judge, y, z)
      {
        if !Merges(judge, y, z) {
          DisagreeingAreNotDenied(judge, runs, x, y, z);
        }
      }
    }
  }

  lemma DisagreeingAreNotDenied(judge: Judge, runs: set<RunId>, x: RunId, y: RunId, z: RunId)
    requires x in runs && y in runs && z in runs && x != y && y != z && x != z
    requires Merges(judge, x, y) && Merges(judge, x, z) && !Merges(judge, y, z)
    ensures !AlwaysDeny(judge, runs)
  {
    hide GroupsFor, IndexFor, Merges, May;
    var ids := [x, y, z];
    DisagreeingSeparationAllows(judge, x, y, z);
    assert DrawnFrom(ids, runs);
    var groups := GroupsFor(judge, ids);
    assert groups[1][0] == z && groups[0][0] == x;
  }

  // ---------------------------------------------------------------------------------------
  // An input
  // ---------------------------------------------------------------------------------------

  /** Run 1 may merge with runs 2 and 3, which may not merge with each other. */
  function Contrary(left: RunId, right: RunId): Judgement {
    if left == 2 && right == 3 then Judgement(Indeterminate, Unrelated, DifferentModels)
    else Judgement(Warn, Direct, OfMatrix("identified by name only"))
  }

  /** Runs 1, 2 and 3, given in that order: the third stands apart, yet the separation stated for it is direct. */
  lemma ContraryRuns(groups: seq<ComparisonGroup>)
    requires Reported(IndexFor(Contrary, [1, 2, 3]), groups, GroupsFor(Contrary, [1, 2, 3]))
    ensures |groups| == 2 && groups[0].members == [1, 2] && groups[1].members == [3]
    ensures May(IndexFor(Contrary, [1, 2, 3]), 3, 1)
    ensures groups[1].study == Direct && groups[1].reason == OfMatrix("identified by name only")
  {
    DisagreeingSeparationAllows(Contrary, 1, 2, 3);
    var ids: seq<RunId> := [1, 2, 3];
    EarlierFirst(Contrary, ids, 0, 2);
    assert Judged(Contrary, Pair(1, 3)).judgement == Judgement(Warn, Direct, OfMatrix("identified by name only"));
    hide IndexFor, GroupsFor, May, Lookup, Judged, Contrary;
    assert ids[0] == 1 && ids[2] == 3;
    var members: Grouping := [[1, 2], [3]];
    assert members[1][0] == 3 && members[0][0] == 1;
  }
}
