/** The partition of measurements into mergeable groups of src/freeweight/domain/comparison.py. */
module Comparison {
  import opened Results

  type RunId = nat

  datatype Comparability = Comparable | Warn | Separate | Indeterminate

  datatype StudyKind = Direct | RuntimeStudy | QuantizationStudy | MachineStudy | Incomparable | Unrelated

  /** The sentence shown beside a verdict or a group: the one the comparability matrix gave, or one of this module's
      own with the facts it names. */
  datatype Sentence =
    | FirstGroup
    | OfMatrix(text: string)
    | DifferentSuites(left: string, right: string)
    | OtherVersion(suite: string, left: string, right: string)
    | OtherQuantization(family: string, left: string, right: string)
    | SameQuantization(family: string, quantization: string)
    | DifferentModels

  datatype Judgement = Judgement(comparability: Comparability, study: StudyKind, reason: Sentence) {
    predicate MayMerge() { comparability == Comparable || comparability == Warn }
  }

  datatype PairVerdict = PairVerdict(left: RunId, right: RunId, judgement: Judgement) {
    predicate MayMerge() { judgement.MayMerge() }
  }

  /** What verdict_for_pair finds for two of the subjects, the earlier first, for one kind of metric. */
  type Judge = (RunId, RunId) -> Judgement

  datatype Pair = Pair(left: RunId, right: RunId)

  type ByPair = map<Pair, PairVerdict>

  datatype ComparisonGroup = ComparisonGroup(members: seq<RunId>, study: StudyKind, reason: Sentence)

  /** The verdict on two runs, whichever of them was given first. */
  function Lookup(byPair: ByPair, left: RunId, right: RunId): Option<PairVerdict> {
    if Pair(left, right) in byPair then Some(byPair[Pair(left, right)])
    else if Pair(right, left) in byPair then Some(byPair[Pair(right, left)])
    else None
  }

  predicate May(byPair: ByPair, left: RunId, right: RunId) {
    Lookup(byPair, left, right).Some? && Lookup(byPair, left, right).value.MayMerge()
  }

  predicate Joins(byPair: ByPair, subject: RunId, members: seq<RunId>) {
    forall i :: 0 <= i < |members| ==> May(byPair, subject, members[i])
  }

  // ---------------------------------------------------------------------------------------
  // Every pair's verdict
  // ---------------------------------------------------------------------------------------

  function Judged(judge: Judge, p: Pair): PairVerdict { PairVerdict(p.left, p.right, judge(p.left, p.right)) }

  function Row(judge: Judge, left: RunId, rights: seq<RunId>): (row: seq<PairVerdict>)
    ensures |row| == |rights|
  {
    if rights == [] then []
    else
      var right := rights[|rights| - 1];
      Row(judge, left, rights[..|rights| - 1]) + [Judged(judge, Pair(left, right))]
  }

  /** Each subject against every later one. */
  function AllPairs(judge: Judge, ids: seq<RunId>): seq<PairVerdict> {
    if ids == [] then [] else Row(judge, ids[0], ids[1..]) + AllPairs(judge, ids[1..])
  }

  /** Exactly the pairs in the order given, each with its own verdict. */
  ghost predicate Indexed(byPair: ByPair, judge: Judge, ids: seq<RunId>) {
    && (forall i, j :: 0 <= i < j < |ids| ==> Pair(ids[i], ids[j]) in byPair)
    && (forall p :: p in byPair ==> Given(ids, p) && byPair[p] == Judged(judge, p))
  }

  ghost predicate Given(ids: seq<RunId>, p: Pair) {
    exists i, j :: 0 <= i < j < |ids| && ids[i] == p.left && ids[j] == p.right
  }

  ghost function PairsOf(ids: seq<RunId>): set<Pair> {
    set i, j | 0 <= i < j < |ids| :: Pair(ids[i], ids[j])
  }

  /** The table of every pair's verdict. */
  ghost function IndexFor(judge: Judge, ids: seq<RunId>): ByPair {
    map p | p in PairsOf(ids) :: Judged(judge, p)
  }

  lemma IndexForIsIndexed(judge: Judge, ids: seq<RunId>)
    ensures Indexed(IndexFor(judge, ids), judge, ids)
  {
    hide Judged;
  }

  lemma GivenIsPaired(ids: seq<RunId>, p: Pair)
    ensures Given(ids, p) <==> p in PairsOf(ids)
  {
  }

  /** There is only one such table. */
  lemma IndexedIsIndexFor(byPair: ByPair, judge: Judge, ids: seq<RunId>)
    requires Indexed(byPair, judge, ids)
    ensures byPair == IndexFor(judge, ids)
  {
    hide Judged, Given, PairsOf;
    forall p ensures p in byPair <==> p in PairsOf(ids) {
      GivenIsPaired(ids, p);
      if Given(ids, p) {
        GivenIn(byPair, judge, ids, p);
      }
    }
  }

  lemma GivenIn(byPair: ByPair, judge: Judge, ids: seq<RunId>, p: Pair)
    requires Indexed(byPair, judge, ids) && Given(ids, p)
    ensures p in byPair
  {
    hide Judged;
    var i, j :| 0 <= i < j < |ids| && ids[i] == p.left && ids[j] == p.right;
    assert p == Pair(ids[i], ids[j]);
  }

  lemma {:induction false} RowHolds(judge: Judge, left: RunId, rights: seq<RunId>)
    ensures forall k :: 0 <= k < |rights| ==> Row(judge, left, rights)[k] == Judged(judge, Pair(left, rights[k]))
  {
    hide Judged;
    if rights != [] {
      RowHolds(judge, left, rights[..|rights| - 1]);
    }
  }

  lemma RowSnoc(judge: Judge, left: RunId, rights: seq<RunId>, right: RunId)
    ensures Row(judge, left, rights + [right]) == Row(judge, left, rights) + [Judged(judge, Pair(left, right))]
  {
    hide Judged;
    assert (rights + [right])[..|rights|] == rights;
  }

  lemma AllPairsStep(judge: Judge, ids: seq<RunId>, i: nat)
    requires i < |ids|
    ensures AllPairs(judge, ids[i..]) == Row(judge, ids[i], ids[i + 1..]) + AllPairs(judge, ids[i + 1..])
  {
    hide Row;
    assert ids[i..][1..] == ids[i + 1..] && ids[i..][0] == ids[i];
  }

  lemma AllPairsEnd(judge: Judge)
    ensures AllPairs(judge, []) == []
  {
  }

  lemma GivenLater(ids: seq<RunId>, p: Pair)
    requires ids != [] && Given(ids[1..], p)
    ensures Given(ids, p)
  {
    var i, j :| 0 <= i < j < |ids[1..]| && ids[1..][i] == p.left && ids[1..][j] == p.right;
    assert ids[i + 1] == p.left && ids[j + 1] == p.right;
  }

  /** Every verdict listed is some given pair's own. */
  lemma {:induction false} VerdictsAreGiven(judge: Judge, ids: seq<RunId>, v: PairVerdict)
    requires v in AllPairs(judge, ids)
    ensures Given(ids, Pair(v.left, v.right)) && v == Judged(judge, Pair(v.left, v.right))
  {
    hide Row, Given;
    var rest, row := ids[1..], Row(judge, ids[0], ids[1..]);
    if v in row {
      RowHolds(judge, ids[0], rest);
      var k :| 0 <= k < |row| && row[k] == v;
      GivenAt(ids, 0, k + 1);
    } else {
      VerdictsAreGiven(judge, rest, v);
      GivenLater(ids, Pair(v.left, v.right));
    }
  }

  lemma GivenAt(ids: seq<RunId>, i: nat, j: nat)
    requires i < j < |ids|
    ensures Given(ids, Pair(ids[i], ids[j]))
  {
  }

  /** Every pair given has its verdict listed. */
  lemma {:induction false} GivenHaveVerdicts(judge: Judge, ids: seq<RunId>, i: nat, j: nat)
    requires i < j < |ids|
    ensures Judged(judge, Pair(ids[i], ids[j])) in AllPairs(judge, ids)
  {
    hide Row, Judged;
    var rest, row := ids[1..], Row(judge, ids[0], ids[1..]);
    if i == 0 {
      RowHolds(judge, ids[0], rest);
      assert row[j - 1] in row && rest[j - 1] == ids[j];
    } else {
      GivenHaveVerdicts(judge, rest, i - 1, j - 1);
    }
  }

  method JudgePairs(judge: Judge, ids: seq<RunId>) returns (verdicts: seq<PairVerdict>)
    ensures verdicts == AllPairs(judge, ids)
  {
    hide AllPairs, Row;
    verdicts := [];
    assert ids[0..] == ids;
    var i := 0;
    while i < |ids|
      invariant 0 <= i <= |ids|
      invariant verdicts + AllPairs(judge, ids[i..]) == AllPairs(judge, ids)
    {
      AllPairsStep(judge, ids, i);
      var row := JudgeRow(judge, ids, i);
      verdicts := verdicts + row;
      i := i + 1;
    }
    assert ids[|ids|..] == [];
    AllPairsEnd(judge);
  }

  method JudgeRow(judge: Judge, ids: seq<RunId>, i: nat) returns (row: seq<PairVerdict>)
    requires i < |ids|
    ensures row == Row(judge, ids[i], ids[i + 1..])
  {
    hide Judged;
    row := [];
    var j := i + 1;
    while j < |ids|
      invariant i < j <= |ids|
      invariant row == Row(judge, ids[i], ids[i + 1..j])
    {
      assert ids[i + 1..j + 1] == ids[i + 1..j] + [ids[j]];
      RowSnoc(judge, ids[i], ids[i + 1..j], ids[j]);
      row := row + [Judged(judge, Pair(ids[i], ids[j]))];
      j := j + 1;
    }
    assert ids[i + 1..|ids|] == ids[i + 1..];
  }

  method IndexPairs(judge: Judge, ids: seq<RunId>, verdicts: seq<PairVerdict>) returns (byPair: ByPair)
    requires verdicts == AllPairs(judge, ids)
    ensures Indexed(byPair, judge, ids)
  {
    hide AllPairs, Given;
    byPair := map[];
    var i := 0;
    while i < |verdicts|
      invariant 0 <= i <= |verdicts|
      invariant forall k :: 0 <= k < i ==> Pair(verdicts[k].left, verdicts[k].right) in byPair
      invariant forall p :: p in byPair ==> byPair[p] in verdicts && p == Pair(byPair[p].left, byPair[p].right)
    {
      byPair := byPair[Pair(verdicts[i].left, verdicts[i].right) := verdicts[i]];
      i := i + 1;
    }
    forall p | p in byPair ensures Given(ids, p) && byPair[p] == Judged(judge, p) {
      VerdictsAreGiven(judge, ids, byPair[p]);
    }
    forall a, b | 0 <= a < b < |ids| ensures Pair(ids[a], ids[b]) in byPair {
      GivenHaveVerdicts(judge, ids, a, b);
      var k :| 0 <= k < |verdicts| && verdicts[k] == Judged(judge, Pair(ids[a], ids[b]));
    }
  }

  // ---------------------------------------------------------------------------------------
  // The grouping
  // ---------------------------------------------------------------------------------------

  type Grouping = seq<seq<RunId>>

  /** The subject joins the first group that accepts it, or starts a new one. */
  function Place(byPair: ByPair, groups: Grouping, subject: RunId): Grouping {
    if groups == [] then [[subject]]
    else if Joins(byPair, subject, groups[0]) then [groups[0] + [subject]] + groups[1..]
    else [groups[0]] + Place(byPair, groups[1..], subject)
  }

  function Grouped(byPair: ByPair, ids: seq<RunId>): Grouping {
    if ids == [] then [] else Place(byPair, Grouped(byPair, ids[..|ids| - 1]), ids[|ids| - 1])
  }

  lemma {:induction false} PlaceAt(byPair: ByPair, groups: Grouping, subject: RunId, at: nat)
    requires at <= |groups| && forall g :: 0 <= g < at ==> !Joins(byPair, subject, groups[g])
    requires at < |groups| ==> Joins(byPair, subject, groups[at])
    ensures Place(byPair, groups, subject) ==
            if at == |groups| then groups + [[subject]] else groups[at := groups[at] + [subject]]
  {
    if groups != [] && at > 0 {
      PlaceAt(byPair, groups[1..], subject, at - 1);
    }
  }

  lemma {:induction false} Placed(byPair: ByPair, groups: Grouping, subject: RunId) returns (at: nat)
    ensures at <= |groups| && forall g :: 0 <= g < at ==> !Joins(byPair, subject, groups[g])
    ensures at < |groups| ==> Joins(byPair, subject, groups[at])
    ensures Place(byPair, groups, subject) ==
            if at == |groups| then groups + [[subject]] else groups[at := groups[at] + [subject]]
  {
    at := 0;
    while at < |groups| && !Joins(byPair, subject, groups[at])
      invariant at <= |groups| && forall g :: 0 <= g < at ==> !Joins(byPair, subject, groups[g])
    {
      at := at + 1;
    }
    PlaceAt(byPair, groups, subject, at);
  }

  predicate AllFounded(members: Grouping) { forall g :: 0 <= g < |members| ==> members[g] != [] }

  /** The separation kept for a later group is the verdict on its founder and the first founder. */
  ghost predicate SeparatedBy(byPair: ByPair, members: Grouping, separations: map<nat, PairVerdict>)
    requires AllFounded(members)
  {
    && 0 !in separations
    && forall g: nat ::
         if 0 < g < |members| && Lookup(byPair, members[g][0], members[0][0]).Some?
         then g in separations && separations[g] == Lookup(byPair, members[g][0], members[0][0]).value
         else g !in separations
  }

  /** How one group is reported. */
  ghost predicate ReportedAt(byPair: ByPair, group: ComparisonGroup, members: Grouping, g: nat)
    requires g < |members|
  {
    && members[g] != []
    && members[0] != []
    && group.members == members[g]
    && var against := Lookup(byPair, members[g][0], members[0][0]);
       if g > 0 && against.Some?
       then group.study == against.value.judgement.study && group.reason == against.value.judgement.reason
       else group.study == (if g == 0 then Direct else Incomparable) && group.reason == FirstGroup
  }

  ghost predicate Reported(byPair: ByPair, groups: seq<ComparisonGroup>, members: Grouping) {
    |groups| == |members| && forall g :: 0 <= g < |members| ==> ReportedAt(byPair, groups[g], members, g)
  }

  lemma GrowKeepsSeparations(byPair: ByPair, members: Grouping, separations: map<nat, PairVerdict>, at: nat, subject: RunId)
    requires AllFounded(members) && SeparatedBy(byPair, members, separations) && at < |members|
    ensures var after := members[at := members[at] + [subject]];
            AllFounded(after) && SeparatedBy(byPair, after, separations)
  {
    hide Lookup;
    var after := members[at := members[at] + [subject]];
    assert forall g :: 0 <= g < |members| ==> after[g][0] == members[g][0];
  }

  lemma FoundKeepsSeparations(byPair: ByPair, members: Grouping, separations: map<nat, PairVerdict>, subject: RunId)
    requires AllFounded(members) && SeparatedBy(byPair, members, separations)
    ensures AllFounded(members + [[subject]])
    ensures members == [] ==> SeparatedBy(byPair, members + [[subject]], separations)
    ensures members != [] ==>
      var against := Lookup(byPair, subject, members[0][0]);
      SeparatedBy(byPair, members + [[subject]],
                  if against.Some? then separations[|members| := against.value] else separations)
  {
    hide Lookup;
  }

  /** The inner for-else: the first group all of whose members may merge with the subject, or none. */
  method FirstToAccept(byPair: ByPair, subject: RunId, members: Grouping) returns (at: nat)
    ensures at <= |members|
    ensures Place(byPair, members, subject) ==
            if at == |members| then members + [[subject]] else members[at := members[at] + [subject]]
  {
    at := 0;
    while at < |members| && !Joins(byPair, subject, members[at])
      invariant 0 <= at <= |members| && forall g :: 0 <= g < at ==> !Joins(byPair, subject, members[g])
    {
      at := at + 1;
    }
    PlaceAt(byPair, members, subject, at);
  }

  lemma GroupedStep(byPair: ByPair, ids: seq<RunId>, i: nat)
    requires i < |ids|
    ensures Grouped(byPair, ids[..i + 1]) == Place(byPair, Grouped(byPair, ids[..i]), ids[i])
  {
    hide Place;
    assert ids[..i + 1][..i] == ids[..i];
  }

  /** One turn of the outer loop. */
  method PlaceSubject(byPair: ByPair, members: Grouping, separations: map<nat, PairVerdict>, subject: RunId)
    returns (members': Grouping, separations': map<nat, PairVerdict>)
    requires AllFounded(members) && SeparatedBy(byPair, members, separations)
    ensures members' == Place(byPair, members, subject)
    ensures AllFounded(members') && SeparatedBy(byPair, members', separations')
  {
    var at := FirstToAccept(byPair, subject, members);
    hide Joins, Lookup, SeparatedBy, Place;
    separations' := separations;
    if at < |members| {
      GrowKeepsSeparations(byPair, members, separations, at, subject);
      members' := members[at := members[at] + [subject]];
    } else {
      FoundKeepsSeparations(byPair, members, separations, subject);
      if members != [] {
        var against := Lookup(byPair, subject, members[0][0]);
        if against.Some? {
          separations' := separations[|members| := against.value];
        }
      }
      members' := members + [[subject]];
    }
  }

  method GroupSubjects(judge: Judge, ids: seq<RunId>) returns (groups: seq<ComparisonGroup>, verdicts: seq<PairVerdict>)
    ensures verdicts == AllPairs(judge, ids)
    ensures Reported(IndexFor(judge, ids), groups, Grouped(IndexFor(judge, ids), ids))
  {
    verdicts := JudgePairs(judge, ids);
    var byPair := IndexPairs(judge, ids, verdicts);
    IndexedIsIndexFor(byPair, judge, ids);
    NothingGrouped(byPair);
    NothingSeparated(byPair);
    var members: Grouping := [];
    var separations: map<nat, PairVerdict> := map[];
    hide *;
    var i := 0;
    while i < |ids|
      invariant 0 <= i <= |ids|
      invariant members == Grouped(byPair, ids[..i])
      invariant AllFounded(members) && SeparatedBy(byPair, members, separations)
    {
      GroupedStep(byPair, ids, i);
      members, separations := PlaceSubject(byPair, members, separations, ids[i]);
      i := i + 1;
    }
    assert ids[..|ids|] == ids;
    groups := Report(byPair, members, separations);
  }

  lemma NothingGrouped(byPair: ByPair)
    ensures Grouped(byPair, []) == []
  {
  }

  lemma NothingSeparated(byPair: ByPair)
    ensures AllFounded([]) && SeparatedBy(byPair, [], map[])
  {
  }

  method Report(ghost byPair: ByPair, members: Grouping, separations: map<nat, PairVerdict>) returns (groups: seq<ComparisonGroup>)
    requires AllFounded(members) && SeparatedBy(byPair, members, separations)
    ensures Reported(byPair, groups, members)
  {
    groups := [];
    for g := 0 to |members|
      invariant |groups| == g
      invariant forall k :: 0 <= k < g ==> ReportedAt(byPair, groups[k], members, k)
    {
      var group := ReportOne(byPair, members, separations, g);
      groups := groups + [group];
    }
  }

  method ReportOne(ghost byPair: ByPair, members: Grouping, separations: map<nat, PairVerdict>, g: nat) returns (group: ComparisonGroup)
    requires AllFounded(members) && SeparatedBy(byPair, members, separations) && g < |members|
    ensures ReportedAt(byPair, group, members, g)
  {
    hide Lookup;
    if g in separations {
      group := ComparisonGroup(members[g], separations[g].judgement.study, separations[g].judgement.reason);
    } else {
      group := ComparisonGroup(members[g], if g == 0 then Direct else Incomparable, FirstGroup);
    }
  }

  // ---------------------------------------------------------------------------------------
  // What the grouping promises
  // ---------------------------------------------------------------------------------------

  function Flatten(groups: Grouping): seq<RunId> {
    if groups == [] then [] else Flatten(groups[..|groups| - 1]) + groups[|groups| - 1]
  }

  /** xs is what some deletions leave of ys. */
  predicate Subsequence(xs: seq<RunId>, ys: seq<RunId>) {
    if ys == [] then xs == []
    else if xs != [] && xs[|xs| - 1] == ys[|ys| - 1] then Subsequence(xs[..|xs| - 1], ys[..|ys| - 1])
    else Subsequence(xs, ys[..|ys| - 1])
  }

  /** Every pair inside a group may merge. */
  predicate Cohesive(byPair: ByPair, groups: Grouping) {
    forall g, i, j :: 0 <= g < |groups| && 0 <= i < j < |groups[g]| ==> May(byPair, groups[g][j], groups[g][i])
  }

  /** Every member of a later group is unmergeable with some member of each earlier one. */
  predicate Separated(byPair: ByPair, groups: Grouping) {
    forall g, h, j :: 0 <= g < h < |groups| && 0 <= j < |groups[h]| ==> !Joins(byPair, groups[h][j], groups[g])
  }

  lemma FlattenStep(groups: Grouping)
    requires groups != []
    ensures multiset(Flatten(groups)) == multiset(Flatten(groups[..|groups| - 1])) + multiset(groups[|groups| - 1])
  {
  }

  lemma {:induction false} FlattenUpdate(groups: Grouping, at: nat, subject: RunId)
    requires at < |groups|
    ensures multiset(Flatten(groups[at := groups[at] + [subject]])) == multiset(Flatten(groups)) + multiset{subject}
  {
    hide Flatten;
    var n := |groups| - 1;
    var after := groups[at := groups[at] + [subject]];
    FlattenStep(groups);
    FlattenStep(after);
    if at == n {
      assert after[..n] == groups[..n];
      assert multiset(groups[n] + [subject]) == multiset(groups[n]) + multiset{subject};
    } else {
      FlattenUpdate(groups[..n], at, subject);
      assert after[..n] == groups[..n][at := groups[at] + [subject]];
    }
  }

  lemma FlattenNew(groups: Grouping, subject: RunId)
    ensures multiset(Flatten(groups + [[subject]])) == multiset(Flatten(groups)) + multiset{subject}
  {
    assert (groups + [[subject]])[..|groups|] == groups;
  }

  /** The groups hold exactly the subjects given. */
  lemma {:induction false} GroupsPartition(byPair: ByPair, ids: seq<RunId>)
    ensures multiset(Flatten(Grouped(byPair, ids))) == multiset(ids)
    ensures forall g :: 0 <= g < |Grouped(byPair, ids)| ==> Grouped(byPair, ids)[g] != []
  {
    hide Joins, Place;
    if ids != [] {
      var n := |ids| - 1;
      GroupsPartition(byPair, ids[..n]);
      assert ids == ids[..n] + [ids[n]];
      var groups := Grouped(byPair, ids[..n]);
      var at := Placed(byPair, groups, ids[n]);
      if at < |groups| {
        FlattenUpdate(groups, at, ids[n]);
      } else {
        FlattenNew(groups, ids[n]);
      }
    }
  }

  /** In a group, members stand in the order they were given. */
  lemma {:induction false} GroupsKeepOrder(byPair: ByPair, ids: seq<RunId>, g: nat)
    requires g < |Grouped(byPair, ids)|
    ensures Subsequence(Grouped(byPair, ids)[g], ids)
  {
    hide Joins, Place;
    if ids != [] {
      var n := |ids| - 1;
      var groups := Grouped(byPair, ids[..n]);
      var at := Placed(byPair, groups, ids[n]);
      if g < |groups| {
        GroupsKeepOrder(byPair, ids[..n], g);
        var group := Grouped(byPair, ids)[g];
        if g == at {
          assert group[..|group| - 1] == groups[g];
        } else {
          SubsequenceGrows(groups[g], ids[..n], ids[n]);
          assert ids == ids[..n] + [ids[n]];
        }
      } else {
        NothingIsSubsequence(ids[..n]);
      }
    }
  }

  lemma {:induction false} NothingIsSubsequence(ys: seq<RunId>)
    ensures Subsequence([], ys)
  {
    if ys != [] {
      NothingIsSubsequence(ys[..|ys| - 1]);
    }
  }

  lemma {:induction false} SubsequenceGrows(xs: seq<RunId>, ys: seq<RunId>, y: RunId)
    requires Subsequence(xs, ys)
    ensures Subsequence(xs, ys + [y])
    decreases |ys|, 1
  {
    assert (ys + [y])[..|ys|] == ys;
    if xs != [] && xs[|xs| - 1] == y {
      DropLastOfSubsequence(xs, ys);
    }
  }

  lemma {:induction false} DropLastOfSubsequence(xs: seq<RunId>, ys: seq<RunId>)
    requires xs != [] && Subsequence(xs, ys)
    ensures Subsequence(xs[..|xs| - 1], ys)
    decreases |ys|, 0
  {
    var n := |ys| - 1;
    if xs[|xs| - 1] == ys[n] {
      SubsequenceGrows(xs[..|xs| - 1], ys[..n], ys[n]);
      assert ys == ys[..n] + [ys[n]];
    } else {
      DropLastOfSubsequence(xs, ys[..n]);
      SubsequenceGrows(xs[..|xs| - 1], ys[..n], ys[n]);
      assert ys == ys[..n] + [ys[n]];
    }
  }

  /** Whatever the verdicts: inside a group every pair may merge, and a member of a later group is
      unmergeable with some member of each earlier one. */
  lemma {:induction false} GroupsAreMergeable(byPair: ByPair, ids: seq<RunId>)
    ensures Cohesive(byPair, Grouped(byPair, ids)) && Separated(byPair, Grouped(byPair, ids))
  {
    if ids != [] {
      var n := |ids| - 1;
      GroupsAreMergeable(byPair, ids[..n]);
      var groups := Grouped(byPair, ids[..n]);
      var at := Placed(byPair, groups, ids[n]);
      hide Place, May;
      PlacedKeeps(byPair, groups, ids[n], at);
    }
  }

  lemma PlacedKeeps(byPair: ByPair, groups: Grouping, subject: RunId, at: nat)
    requires Cohesive(byPair, groups) && Separated(byPair, groups)
    requires at <= |groups| && forall g :: 0 <= g < at ==> !Joins(byPair, subject, groups[g])
    requires at < |groups| ==> Joins(byPair, subject, groups[at])
    ensures var after := if at == |groups| then groups + [[subject]] else groups[at := groups[at] + [subject]];
            Cohesive(byPair, after) && Separated(byPair, after)
  {
    hide May;
    var after := if at == |groups| then groups + [[subject]] else groups[at := groups[at] + [subject]];
    forall g, h, j | 0 <= g < h < |after| && 0 <= j < |after[h]| ensures !Joins(byPair, after[h][j], after[g]) {
      if h == at && j == |after[h]| - 1 {
        assert after[g] == groups[g] && after[h][j] == subject;
      } else {
        assert after[h][j] == groups[h][j] && !Joins(byPair, groups[h][j], groups[g]);
        var k :| 0 <= k < |groups[g]| && !May(byPair, groups[h][j], groups[g][k]);
        assert after[g][k] == groups[g][k];
      }
    }
  }

  // ---------------------------------------------------------------------------------------
  // When mergeability is an equivalence
  // ---------------------------------------------------------------------------------------

  predicate Distinct(ids: seq<RunId>) {
    forall i, j :: 0 <= i < j < |ids| ==> ids[i] != ids[j]
  }

  /** Mergeability of different subjects is transitive. */
  ghost predicate Transitive(byPair: ByPair, ids: seq<RunId>) {
    forall x, y, z :: x in ids && y in ids && z in ids && x != z && May(byPair, x, y) && May(byPair, y, z) ==>
      May(byPair, x, z)
  }

  ghost predicate Together(groups: Grouping, x: RunId, y: RunId) {
    exists g :: 0 <= g < |groups| && x in groups[g] && y in groups[g]
  }

  /** Among distinct runs each pair has one verdict, read the same way round or the other. */
  lemma LookupSymmetric(byPair: ByPair, judge: Judge, ids: seq<RunId>, x: RunId, y: RunId)
    requires Indexed(byPair, judge, ids) && Distinct(ids) && x != y
    ensures Lookup(byPair, x, y) == Lookup(byPair, y, x)
  {
  }

  lemma {:induction false} FlattenHolds(groups: Grouping, x: RunId) returns (g: nat)
    requires x in Flatten(groups)
    ensures g < |groups| && x in groups[g]
  {
    var n := |groups| - 1;
    if x in groups[n] {
      g := n;
    } else {
      g := FlattenHolds(groups[..n], x);
    }
  }

  /** When mergeability is an equivalence, the groups are exactly its classes. */
  lemma GroupsAreClasses(byPair: ByPair, judge: Judge, ids: seq<RunId>, x: RunId, y: RunId)
    requires Indexed(byPair, judge, ids) && Distinct(ids) && Transitive(byPair, ids)
    requires x in ids && y in ids && x != y
    ensures Together(Grouped(byPair, ids), x, y) <==> May(byPair, x, y)
  {
    var groups := Grouped(byPair, ids);
    GroupsPartition(byPair, ids);
    GroupsAreMergeable(byPair, ids);
    LookupSymmetric(byPair, judge, ids, x, y);
    assert May(byPair, x, y) <==> May(byPair, y, x);
    hide *;
    if Together(groups, x, y) {
      TogetherMayMerge(byPair, groups, x, y);
    }
    if May(byPair, x, y) {
      MergeableAreTogether(byPair, judge, ids, groups, x, y);
    }
  }

  lemma TogetherMayMerge(byPair: ByPair, groups: Grouping, x: RunId, y: RunId)
    requires Cohesive(byPair, groups) && Together(groups, x, y) && x != y
    requires Lookup(byPair, x, y) == Lookup(byPair, y, x)
    ensures May(byPair, x, y)
  {
    hide Lookup;
    var g :| 0 <= g < |groups| && x in groups[g] && y in groups[g];
    var i :| 0 <= i < |groups[g]| && groups[g][i] == x;
    var j :| 0 <= j < |groups[g]| && groups[g][j] == y;
    assert May(byPair, if i < j then y else x, if i < j then x else y);
  }

  lemma MergeableAreTogether(byPair: ByPair, judge: Judge, ids: seq<RunId>, groups: Grouping, x: RunId, y: RunId)
    requires Indexed(byPair, judge, ids) && Distinct(ids) && Transitive(byPair, ids)
    requires Cohesive(byPair, groups) && Separated(byPair, groups) && multiset(Flatten(groups)) == multiset(ids)
    requires x in ids && y in ids && May(byPair, x, y) && May(byPair, y, x)
    ensures Together(groups, x, y)
  {
    hide Indexed, Lookup, Flatten, Transitive, Separated, Cohesive, Distinct, May;
    assert x in multiset(Flatten(groups)) && y in multiset(Flatten(groups));
    var g := FlattenHolds(groups, x);
    var h := FlattenHolds(groups, y);
    if y !in groups[g] && x !in groups[h] {
      if g < h {
        LaterIsApart(byPair, judge, ids, groups, g, h, x, y);
      } else if h < g {
        LaterIsApart(byPair, judge, ids, groups, h, g, y, x);
      }
    }
  }

  lemma {:induction false} FlattenHas(groups: Grouping, g: nat, k: nat)
    requires g < |groups| && k < |groups[g]|
    ensures groups[g][k] in Flatten(groups)
  {
    if g < |groups| - 1 {
      FlattenHas(groups[..|groups| - 1], g, k);
    }
  }

  /** Of two members of a group, either may merge with the other. */
  lemma InsideMayMerge(byPair: ByPair, judge: Judge, ids: seq<RunId>, groups: Grouping, g: nat, i: nat, k: nat)
    requires Indexed(byPair, judge, ids) && Distinct(ids) && Cohesive(byPair, groups)
    requires g < |groups| && i < |groups[g]| && k < |groups[g]| && groups[g][i] != groups[g][k]
    ensures May(byPair, groups[g][i], groups[g][k])
  {
    LookupSymmetric(byPair, judge, ids, groups[g][i], groups[g][k]);
    hide Indexed, Lookup;
  }

  lemma LaterIsApart(byPair: ByPair, judge: Judge, ids: seq<RunId>, groups: Grouping, g: nat, h: nat, x: RunId, y: RunId)
    requires Indexed(byPair, judge, ids) && Distinct(ids) && Transitive(byPair, ids)
    requires Cohesive(byPair, groups) && Separated(byPair, groups) && multiset(Flatten(groups)) == multiset(ids)
    requires g < h < |groups| && x in groups[g] && y in groups[h] && y !in groups[g] && x in ids && y in ids
    ensures !May(byPair, y, x)
  {
    hide Indexed, Lookup, Flatten, Cohesive, May, Distinct;
    var j :| 0 <= j < |groups[h]| && groups[h][j] == y;
    assert !Joins(byPair, y, groups[g]);
    var k :| 0 <= k < |groups[g]| && !May(byPair, y, groups[g][k]);
    var z := groups[g][k];
    var i :| 0 <= i < |groups[g]| && groups[g][i] == x;
    if z != x {
      InsideMayMerge(byPair, judge, ids, groups, g, i, k);
      FlattenHas(groups, g, k);
      assert z in multiset(Flatten(groups));
      assert May(byPair, x, z) && z != y;
    }
  }

  /** A group's stated separation can name a pair that may merge: z may merge with x, the first founder, but not
      with y, so it stands alone, and the verdict kept for it is the one on z and x. */
  lemma SeparationMayNameAMergeablePair(byPair: ByPair, x: RunId, y: RunId, z: RunId)
    requires May(byPair, y, x) && May(byPair, z, x) && !May(byPair, z, y)
    ensures Grouped(byPair, [x, y, z]) == [[x, y], [z]]
    ensures Lookup(byPair, z, x).Some? && Lookup(byPair, z, x).value.MayMerge()
  {
    var ids := [x, y, z];
    assert ids[..0] == [] && ids[..3] == ids;
    hide Grouped, Place, Joins, Lookup;
    NothingGrouped(byPair);
    GroupedStep(byPair, ids, 0);
    GroupedStep(byPair, ids, 1);
    GroupedStep(byPair, ids, 2);
    PlacedOne(byPair, x);
    PlacedTwo(byPair, x, y);
    PlacedThree(byPair, x, y, z);
  }

  lemma PlacedOne(byPair: ByPair, x: RunId)
    ensures Place(byPair, [], x) == [[x]]
  {
  }

  lemma PlacedTwo(byPair: ByPair, x: RunId, y: RunId)
    requires May(byPair, y, x)
    ensures Place(byPair, [[x]], y) == [[x, y]]
  {
    assert [x] + [y] == [x, y] && [[x]][1..] == [];
    assert Joins(byPair, y, [x]);
  }

  lemma PlacedThree(byPair: ByPair, x: RunId, y: RunId, z: RunId)
    requires !May(byPair, z, y)
    ensures Place(byPair, [[x, y]], z) == [[x, y], [z]]
  {
    hide May;
    var pair := [x, y];
    assert pair[1] == y;
    assert !Joins(byPair, z, pair);
    PlacedOne(byPair, z);
    assert [[x, y]][1..] == [];
  }
}
