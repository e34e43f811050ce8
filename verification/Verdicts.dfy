/** The verdict on one pair of measurements, of src/freeweight/domain/comparison.py. */
module Verdicts {
  import opened Comparison
  import opened Documents
  import opened Provenance
  import opened Results
  import opened Separations

  datatype Subject = Subject(benchmarkKey: string, benchmarkVersion: string, runtimeProfileHash: string,
                             machineFingerprint: string, document: map<string, Json>, family: Option<string>,
                             quantization: Option<string>)

  /** What the comparability matrix says of two subjects of one suite, for one kind of metric. */
  datatype Outcome = Outcome(comparability: Comparability, reason: string)

  type Matrix = (Subject, Subject) -> Outcome

  function OrUnreported(quantization: Option<string>): string {
    if quantization.None? || quantization.value == "" then "unreported" else quantization.value
  }

  predicate SameFamily(left: Subject, right: Subject) {
    left.family.Some? && right.family.Some? && left.family.value != "" && left.family == right.family
  }

  function StudyForDifferentIdentity(left: Subject, right: Subject): (StudyKind, Sentence) {
    if !SameFamily(left, right) then (Unrelated, DifferentModels)
    else if left.quantization != right.quantization then
      (QuantizationStudy, OtherQuantization(left.family.value, OrUnreported(left.quantization), OrUnreported(right.quantization)))
    else (Unrelated, SameQuantization(left.family.value, OrUnreported(left.quantization)))
  }

  /** The first dimension that differs. */
  function StudyForSeparate(left: Subject, right: Subject, reason: string): (StudyKind, Sentence) {
    if left.runtimeProfileHash != right.runtimeProfileHash then (RuntimeStudy, OfMatrix(reason))
    else if left.machineFingerprint != right.machineFingerprint then (MachineStudy, OfMatrix(reason))
    else if left.benchmarkVersion != right.benchmarkVersion then
      (Incomparable, OtherVersion(left.benchmarkKey, left.benchmarkVersion, right.benchmarkVersion))
    else (Incomparable, OfMatrix(reason))
  }

  function JudgementFor(matrix: Matrix, left: Subject, right: Subject): Judgement {
    if left.benchmarkKey != right.benchmarkKey then
      Judgement(Separate, Incomparable, DifferentSuites(left.benchmarkKey, right.benchmarkKey))
    else
      var outcome := matrix(left, right);
      match outcome.comparability
      case Comparable => Judgement(Comparable, Direct, OfMatrix(outcome.reason))
      case Warn =>
        Judgement(Warn, if left.machineFingerprint != right.machineFingerprint then MachineStudy else Direct, OfMatrix(outcome.reason))
      case Separate =>
        var (study, reason) := StudyForSeparate(left, right, outcome.reason);
        Judgement(Separate, study, reason)
      case Indeterminate =>
        var (study, reason) := StudyForDifferentIdentity(left, right);
        Judgement(Indeterminate, study, reason)
  }

  /** The verdict and the field-level diff shown with it: there is one exactly when the study is not direct and both
      subjects carry documents that differ beyond null-valued keys. */
  method VerdictForPair(matrix: Matrix, left: Subject, right: Subject) returns (judgement: Judgement, diff: seq<FieldDiff>)
    ensures judgement == JudgementFor(matrix, left, right)
    ensures diff != [] <==>
      && judgement.study != Direct
      && left.document != map[] && right.document != map[]
      && WithoutNulls(Object(left.document)) != WithoutNulls(Object(right.document))
    ensures diff != [] ==> ByPath(diff) && multiset(diff) == multiset(Walk("", Object(left.document), Object(right.document)))
  {
    hide Walk, WithoutNulls, ByPath;
    judgement := JudgementFor(matrix, left, right);
    diff := [];
    if judgement.study != Direct {
      diff := SeparationDiff(left, right);
    }
  }

  method SeparationDiff(left: Subject, right: Subject) returns (diff: seq<FieldDiff>)
    ensures diff != [] <==>
      && left.document != map[] && right.document != map[]
      && WithoutNulls(Object(left.document)) != WithoutNulls(Object(right.document))
    ensures diff != [] ==> ByPath(diff) && multiset(diff) == multiset(Walk("", Object(left.document), Object(right.document)))
  {
    hide Walk, WithoutNulls, ByPath;
    if left.document == map[] || right.document == map[] {
      return [];
    }
    diff := DiffDocuments(left.document, right.document);
  }

  // ---------------------------------------------------------------------------------------
  // What a study says
  // ---------------------------------------------------------------------------------------

  /** When each study is the one, by what the two subjects differ in and what the matrix says of them. */
  lemma StudyExactly(matrix: Matrix, left: Subject, right: Subject)
    ensures var judgement, one, says := JudgementFor(matrix, left, right), left.benchmarkKey == right.benchmarkKey,
        matrix(left, right).comparability;
            var otherMachine, otherProfile := left.machineFingerprint != right.machineFingerprint,
                left.runtimeProfileHash != right.runtimeProfileHash;
            var related := exists f: string :: f != "" && left.family == Some(f) && right.family == Some(f);
            && judgement.comparability == (if one then says else Separate)
            && (judgement.study == Direct <==> one && (says == Comparable || (says == Warn && !otherMachine)))
            && (judgement.study == MachineStudy <==> one && otherMachine && (says == Warn || (says == Separate && !otherProfile)))
            && (judgement.study == RuntimeStudy <==> one && says == Separate && otherProfile)
            && (judgement.study == QuantizationStudy <==>
                  one && says == Indeterminate && related && left.quantization != right.quantization)
            && (judgement.study == Unrelated <==>
                  one && says == Indeterminate && !(related && left.quantization != right.quantization))
            && (judgement.study == Incomparable <==> !one || (says == Separate && !otherProfile && !otherMachine))
  {
    if SameFamily(left, right) {
      assert left.family == Some(left.family.value) && right.family == Some(left.family.value);
    }
  }

  /** A quantization that is missing or empty is shown as unreported. */
  function Shown(quantization: Option<string>): string {
    match quantization
    case None => "unreported"
    case Some(q) => if |q| == 0 then "unreported" else q
  }

  /** And its reason: the matrix's own, unless the suites, the suite versions or the models are what differs. */
  lemma ReasonExactly(matrix: Matrix, left: Subject, right: Subject)
    ensures var judgement, says := JudgementFor(matrix, left, right), matrix(left, right);
            if left.benchmarkKey != right.benchmarkKey then judgement.reason == DifferentSuites(left.benchmarkKey, right.benchmarkKey)
            else if says.comparability == Indeterminate then
              forall f: string :: f != "" && left.family == Some(f) && right.family == Some(f) ==>
                judgement.reason ==
                if left.quantization == right.quantization then SameQuantization(f, Shown(left.quantization))
                else OtherQuantization(f, Shown(left.quantization), Shown(right.quantization))
            else if judgement.study == Incomparable && left.benchmarkVersion != right.benchmarkVersion then
              judgement.reason == OtherVersion(left.benchmarkKey, left.benchmarkVersion, right.benchmarkVersion)
            else judgement.reason == OfMatrix(says.reason)
    ensures JudgementFor(matrix, left, right).reason == DifferentModels <==>
            && left.benchmarkKey == right.benchmarkKey && matrix(left, right).comparability == Indeterminate
            && (left.family == None || left.family == Some("") || left.family != right.family)
  {
  }

  /** The matrix warns of two subjects of one suite on different machines. */
  predicate WarnsAcrossMachines(matrix: Matrix, left: Subject, right: Subject) {
    && left.benchmarkKey == right.benchmarkKey
    && matrix(left, right).comparability == Warn
    && left.machineFingerprint != right.machineFingerprint
  }

  /** A direct study permits merging; so does one other, and exactly where the matrix only warns of two subjects of
      one suite on different machines. */
  lemma MergesBeyondDirect(matrix: Matrix, left: Subject, right: Subject)
    ensures var judgement := JudgementFor(matrix, left, right);
            && (judgement.study == Direct ==> judgement.MayMerge())
            && (judgement.MayMerge() && judgement.study != Direct <==> WarnsAcrossMachines(matrix, left, right))
  {
  }

  // ---------------------------------------------------------------------------------------
  // Inside a group
  // ---------------------------------------------------------------------------------------

  type Subjects = RunId -> Subject

  function JudgeOf(matrix: Matrix, subjects: Subjects): Judge {
    (left: RunId, right: RunId) => JudgementFor(matrix, subjects(left), subjects(right))
  }

  /** Of two members of a group, the verdict with the one given first on the left permits merging, and its study is
      direct unless the two ran on different machines and the matrix warns of it. */
  lemma InsideAGroup(matrix: Matrix, subjects: Subjects, ids: seq<RunId>, g: nat, x: RunId, y: RunId)
    returns (first: RunId, second: RunId)
    requires Distinct(ids) && g < |GroupsFor(JudgeOf(matrix, subjects), ids)| && x != y
    requires x in GroupsFor(JudgeOf(matrix, subjects), ids)[g] && y in GroupsFor(JudgeOf(matrix, subjects), ids)[g]
    ensures (first, second) == (x, y) || (first, second) == (y, x)
    ensures Given(ids, Pair(first, second))
    ensures var judgement := JudgementFor(matrix, subjects(first), subjects(second));
            && judgement.MayMerge()
            && (judgement.study != Direct <==> WarnsAcrossMachines(matrix, subjects(first), subjects(second)))
  {
    var judge := JudgeOf(matrix, subjects);
    first, second := MembersInOrder(judge, ids, g, x, y);
    MergesBeyondDirect(matrix, subjects(first), subjects(second));
    hide JudgementFor, Distinct, GroupsFor, Given;
    assert Judged(judge, Pair(first, second)).judgement == JudgementFor(matrix, subjects(first), subjects(second));
  }

  lemma MembersInOrder(judge: Judge, ids: seq<RunId>, g: nat, x: RunId, y: RunId) returns (first: RunId, second: RunId)
    requires Distinct(ids) && g < |GroupsFor(judge, ids)| && x != y
    requires x in GroupsFor(judge, ids)[g] && y in GroupsFor(judge, ids)[g]
    ensures (first, second) == (x, y) || (first, second) == (y, x)
    ensures Given(ids, Pair(first, second)) && Merges(judge, first, second)
  {
    var byPair, groups := IndexFor(judge, ids), GroupsFor(judge, ids);
    GroupsPartition(byPair, ids);
    GroupsAreMergeable(byPair, ids);
    hide IndexFor, Grouped, Lookup, Flatten, Merges, May, Distinct;
    var i :| 0 <= i < |groups[g]| && groups[g][i] == x;
    var j :| 0 <= j < |groups[g]| && groups[g][j] == y;
    FlattenHas(groups, g, i);
    FlattenHas(groups, g, j);
    assert x in multiset(ids) && y in multiset(ids);
    var a :| 0 <= a < |ids| && ids[a] == x;
    var b :| 0 <= b < |ids| && ids[b] == y;
    first, second := if a < b then x else y, if a < b then y else x;
    GivenAt(ids, if a < b then a else b, if a < b then b else a);
    MayIsMerges(judge, ids, if a < b then a else b, if a < b then b else a);
    assert May(byPair, groups[g][if i < j then j else i], groups[g][if i < j then i else j]);
  }

  // ---------------------------------------------------------------------------------------
  // An input
  // ---------------------------------------------------------------------------------------

  function OnMachine(machine: string): Subject { Subject("suite", "1", "profile", machine, map[], None, None) }

  function TwoMachines(id: RunId): Subject { OnMachine(if id == 1 then "first" else "second") }

  function WarnAlways(left: Subject, right: Subject): Outcome { Outcome(Warn, "another machine") }

  /** Two runs of one suite on two machines: they form one group, under a verdict that is a machine study. */
  lemma MachineStudyMerges()
    ensures GroupsFor(JudgeOf(WarnAlways, TwoMachines), [1, 2]) == [[1, 2]]
    ensures JudgementFor(WarnAlways, TwoMachines(1), TwoMachines(2)).study == MachineStudy
  {
    var judge, ids := JudgeOf(WarnAlways, TwoMachines), [1, 2];
    DifferentMachines();
    assert Judged(judge, Pair(1, 2)).judgement == JudgementFor(WarnAlways, TwoMachines(1), TwoMachines(2));
    MayIsMerges(judge, ids, 0, 1);
    hide IndexFor, May, JudgementFor, Grouped, Place;
    var byPair := IndexFor(judge, ids);
    assert ids[..0] == [] && ids[..2] == ids;
    NothingGrouped(byPair);
    GroupedStep(byPair, ids, 0);
    GroupedStep(byPair, ids, 1);
    PlacedOne(byPair, 1);
    PlacedTwo(byPair, 1, 2);
  }

  lemma DifferentMachines()
    ensures JudgementFor(WarnAlways, TwoMachines(1), TwoMachines(2)) == Judgement(Warn, MachineStudy, OfMatrix("another machine"))
  {
    var first, second := "first", "second";
    assert first[0] != second[0];
  }
}
