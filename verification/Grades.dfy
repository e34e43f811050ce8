/** What the stored grades come to: src/freeweight/services/calibration.py. */
module Grades {
  import opened Agreement
  import opened Calibration
  import opened Ordering
  import opened Partition
  import opened Results
  import opened Sums

  // ---------------------------------------------------------------------------------------
  // Recording
  // ---------------------------------------------------------------------------------------

  ghost predicate Stored(samples: seq<Sample>, id: Id) { exists i :: 0 <= i < |samples| && samples[i].id == id }

  lemma StoredIs(samples: seq<Sample>, id: Id)
    ensures HasSample(samples, id) <==> Stored(samples, id)
  {
    if HasSample(samples, id) {
      var i := FindSample(samples, id);
    }
    if Stored(samples, id) {
      var i :| 0 <= i < |samples| && samples[i].id == id;
      SampleAt(samples, i);
    }
  }

  /** A submission is acceptable for a stored sample, a criterion that is graded on a scale, and a grade on it. */
  lemma AcceptableMeans(samples: seq<Sample>, criteria: map<string, Option<int>>, g: GradeRow)
    ensures Acceptable(samples, criteria, g) <==>
      && Stored(samples, g.sampleId)
      && g.criterion in criteria && criteria[g.criterion] != None && 1 <= g.grade <= criteria[g.criterion].value
  {
    StoredIs(samples, g.sampleId);
  }

  /** After any history, accepted grades leave one row for each sample and criterion: the last submitted for them, or
      where none was, the row there was; one that is not acceptable refuses them all. */
  lemma GradesAfter(history: seq<Step>, criteria: map<string, Option<int>>, submissions: seq<GradeRow>)
    requires Fair(history)
    ensures var before, after := Run(history).store, AfterGrade(Run(history).store, criteria, submissions);
            && OnePerPair(before.grades) && after.samples == before.samples
            && (if forall i :: 0 <= i < |submissions| ==> Acceptable(before.samples, criteria, submissions[i])
                then Regraded(before.grades, submissions, after.grades) else after == before)
  {
    RunKeeps(history);
    hide Run, Fair, Regraded, OnePerPair, Acceptable;
    var s := Run(history).store;
    StoredOnePerPair(s.samples, s.grades);
    UpsertAllIs(s.grades, submissions);
  }

  // ---------------------------------------------------------------------------------------
  // The grade a sample is stratified under
  // ---------------------------------------------------------------------------------------

  /** A figure of each grade one sample was given. */
  function OfSample(id: Id, h: int -> real): GradeRow -> real {
    (r: GradeRow) => if r.sampleId == id then h(r.grade) else 0.0
  }

  /** A sample's grades are those of its rows, as often as they stand there. */
  lemma {:induction false} GradesOfRows(rows: seq<GradeRow>, id: Id, h: int -> real)
    ensures SumOf(GradesOf(rows, id), h) == SumOf(rows, OfSample(id, h))
  {
    if rows != [] {
      GradesOfRows(rows[..|rows| - 1], id, h);
    }
  }

  predicate AscendingGrades(grades: seq<int>) { forall i, j :: 0 <= i < j < |grades| ==> grades[i] <= grades[j] }

  lemma SameLast(a: seq<int>, b: seq<int>)
    requires AscendingGrades(a) && AscendingGrades(b) && multiset(a) == multiset(b) && a != [] && b != []
    ensures a[|a| - 1] == b[|b| - 1]
  {
    assert a[|a| - 1] in multiset(b) && b[|b| - 1] in multiset(a);
  }

  lemma FrontGrades(a: seq<int>)
    requires a != []
    ensures multiset(a[..|a| - 1]) == multiset(a) - multiset{a[|a| - 1]}
    ensures AscendingGrades(a) ==> AscendingGrades(a[..|a| - 1])
  {
    assert a == a[..|a| - 1] + [a[|a| - 1]];
  }

  lemma SameSize(a: seq<int>, b: seq<int>)
    requires multiset(a) == multiset(b)
    ensures |a| == |b|
  {
    assert |multiset(a)| == |multiset(b)|;
  }

  lemma SameFront(a: seq<int>, b: seq<int>)
    requires AscendingGrades(a) && AscendingGrades(b) && multiset(a) == multiset(b) && a != [] && b != []
    ensures multiset(a[..|a| - 1]) == multiset(b[..|b| - 1])
    ensures AscendingGrades(a[..|a| - 1]) && AscendingGrades(b[..|b| - 1])
  {
    SameLast(a, b);
    FrontGrades(a);
    FrontGrades(b);
  }

  lemma Rejoined(a: seq<int>, b: seq<int>)
    requires |a| == |b| > 0 && a[..|a| - 1] == b[..|b| - 1] && a[|a| - 1] == b[|b| - 1]
    ensures a == b
  {
    assert a == a[..|a| - 1] + [a[|a| - 1]];
    assert b == b[..|b| - 1] + [b[|b| - 1]];
  }

  lemma {:induction false} OneArrangement(a: seq<int>, b: seq<int>)
    requires AscendingGrades(a) && AscendingGrades(b) && multiset(a) == multiset(b)
    ensures a == b
  {
    SameSize(a, b);
    if a != [] {
      SameLast(a, b);
      SameFront(a, b);
      hide AscendingGrades;
      OneArrangement(a[..|a| - 1], b[..|b| - 1]);
      Rejoined(a, b);
    }
  }

  lemma SortedGrades(grades: seq<int>, ordered: seq<int>)
    requires AscendingGrades(ordered) && multiset(ordered) == multiset(grades)
    ensures SortBy(grades, AsReal) == ordered && |ordered| == |grades|
  {
    SortedAscends(grades);
    hide AscendingGrades;
    OneArrangement(SortBy(grades, AsReal), ordered);
    hide SortBy;
    SameSize(ordered, grades);
  }

  lemma SortedAscends(grades: seq<int>)
    ensures AscendingGrades(SortBy(grades, AsReal)) && multiset(SortBy(grades, AsReal)) == multiset(grades)
  {
    var sorted := SortBy(grades, AsReal);
    assert SortedBy(sorted, AsReal);
    hide SortBy;
    forall i, j | 0 <= i < j < |sorted| ensures sorted[i] <= sorted[j] {
      assert AsReal(sorted[i]) <= AsReal(sorted[j]);
    }
  }

  /** The representative grade lies within one half of the middle of the ordered grades: of the middle one, or of the mean
      of the two; where it is exactly one half away it is even. */
  lemma RepresentativeMeans(grades: seq<int>, ordered: seq<int>)
    requires grades != [] && AscendingGrades(ordered) && multiset(ordered) == multiset(grades)
    ensures |ordered| == |grades|
    ensures var n := |ordered|;
            var middle, r := (ordered[(n - 1) / 2] + ordered[n / 2]) as real / 2.0, Representative(grades);
            && -0.5 <= r as real - middle <= 0.5
            && (r as real - middle == 0.5 || r as real - middle == -0.5 ==> r % 2 == 0)
            && ordered[0] <= r <= ordered[n - 1]
  {
    SortedGrades(grades, ordered);
    MedianIs(grades, ordered);
    hide SortBy, Median, AscendingGrades, Round;
    RoundMeans(Median(grades));
    Within(Median(grades), ordered[0], ordered[|ordered| - 1]);
  }

  lemma MedianIs(grades: seq<int>, ordered: seq<int>)
    requires grades != [] && AscendingGrades(ordered) && ordered == SortBy(grades, AsReal)
    ensures |ordered| == |grades|
    ensures var n := |ordered|;
            && Median(grades) == (ordered[(n - 1) / 2] + ordered[n / 2]) as real / 2.0
            && ordered[0] as real <= Median(grades) <= ordered[n - 1] as real
  {
    hide *;
    Halves(|ordered|, (|ordered| - 1) / 2, |ordered| / 2);
    MiddleWithin(ordered, (|ordered| - 1) / 2, |ordered| / 2);
    SortedSize(grades);
    Middle(grades, ordered[(|ordered| - 1) / 2], ordered[|ordered| / 2]);
    Between(ordered[(|ordered| - 1) / 2], ordered[|ordered| / 2], ordered[0], ordered[|ordered| - 1]);
  }

  lemma SortedSize(grades: seq<int>)
    ensures |SortBy(grades, AsReal)| == |grades|
  {
  }

  lemma MiddleWithin(ordered: seq<int>, a: int, b: int)
    requires AscendingGrades(ordered) && 0 <= a <= b < |ordered|
    ensures ordered[0] <= ordered[a] <= ordered[|ordered| - 1] && ordered[0] <= ordered[b] <= ordered[|ordered| - 1]
  {
  }

  lemma Between(low: int, high: int, least: int, greatest: int)
    requires least <= low <= greatest && least <= high <= greatest
    ensures least as real <= (low + high) as real / 2.0 <= greatest as real
  {
  }

  lemma Halves(n: nat, a: int, b: int)
    requires n > 0 && a == (n - 1) / 2 && b == n / 2
    ensures 0 <= a <= b < n && (if n % 2 == 1 then a == b else a == b - 1)
  {
  }

  lemma Middle(grades: seq<int>, low: int, high: int)
    requires grades != []
    requires var o := SortBy(grades, AsReal);
             var n := |o|;
             n == |grades| && o[n / 2] == high && (if n % 2 == 1 then low == high else o[n / 2 - 1] == low)
    ensures Median(grades) == (low + high) as real / 2.0
  {
    hide SortBy;
  }

  lemma Within(x: real, low: int, high: int)
    ensures low as real <= x <= high as real ==> low <= Round(x) <= high
  {
  }

  // ---------------------------------------------------------------------------------------
  // The graded samples, and when a calibration is refused
  // ---------------------------------------------------------------------------------------

  ghost predicate HasGrades(rows: seq<GradeRow>, id: Id) { exists r :: 0 <= r < |rows| && rows[r].sampleId == id }

  lemma {:induction false} GradedIffRow(rows: seq<GradeRow>, id: Id)
    ensures GradesOf(rows, id) != [] <==> HasGrades(rows, id)
  {
    if rows != [] {
      var n := |rows| - 1;
      GradedIffRow(rows[..n], id);
      assert forall r :: 0 <= r < n ==> rows[..n][r] == rows[r];
    }
  }

  /** How many samples have a grade. */
  ghost function GradedCount(samples: seq<Sample>, rows: seq<GradeRow>): real {
    SumOf(samples, (s: Sample) => if HasGrades(rows, s.id) then 1.0 else 0.0)
  }

  lemma CountStep(samples: seq<Sample>, rows: seq<GradeRow>)
    ensures samples == [] ==> GradedCount(samples, rows) == 0.0
    ensures samples != [] ==>
      var n := |samples| - 1;
      GradedCount(samples, rows) == GradedCount(samples[..n], rows) + if HasGrades(rows, samples[n].id) then 1.0 else 0.0
  {
    var one := (s: Sample) => if HasGrades(rows, s.id) then 1.0 else 0.0;
    if samples != [] {
      var n := |samples| - 1;
      assert SumOf(samples, one) == SumOf(samples[..n], one) + one(samples[n]);
    }
  }

  /** Every sample with a grade, and no other, is graded, once and under its representative grade. */
  lemma {:induction false} GradedSamplesAre(samples: seq<Sample>, rows: seq<GradeRow>, g: Graded)
    ensures g in GradedSamples(samples, rows) <==>
      Stored(samples, g.id) && HasGrades(rows, g.id) && g.grade == Representative(GradesOf(rows, g.id))
    ensures |GradedSamples(samples, rows)| as real == GradedCount(samples, rows)
  {
    hide Representative;
    CountStep(samples, rows);
    if samples != [] {
      var n := |samples| - 1;
      GradedSamplesAre(samples[..n], rows, g);
      GradedIffRow(rows, samples[n].id);
      assert Stored(samples, g.id) <==> Stored(samples[..n], g.id) || samples[n].id == g.id by {
        assert forall i :: 0 <= i < n ==> samples[..n][i] == samples[i];
      }
      GradedStep(samples, rows);
      hide GradedSamples, GradesOf, HasGrades, Stored, GradedCount;
    }
  }

  /** Some judged criterion has grades and they are all the same. */
  ghost predicate Constant(rows: seq<GradeRow>, judged: seq<string>) {
    exists c :: 0 <= c < |judged| && OneGrade(rows, judged[c])
  }

  ghost predicate OneGrade(rows: seq<GradeRow>, criterion: string) {
    && (exists r :: 0 <= r < |rows| && rows[r].criterion == criterion)
    && forall r, t :: 0 <= r < |rows| && 0 <= t < |rows| && rows[r].criterion == rows[t].criterion == criterion ==>
         rows[r].grade == rows[t].grade
  }

  lemma {:induction false} GradesForRows(rows: seq<GradeRow>, criterion: string, grade: int)
    ensures grade in GradesFor(rows, criterion) <==>
            exists r :: 0 <= r < |rows| && rows[r].criterion == criterion && rows[r].grade == grade
  {
    if rows != [] {
      var n := |rows| - 1;
      GradesForRows(rows[..n], criterion, grade);
      assert forall r :: 0 <= r < n ==> rows[..n][r] == rows[r];
      if rows[n].criterion == criterion {
        assert GradesFor(rows, criterion) == GradesFor(rows[..n], criterion) + [rows[n].grade];
      }
    }
  }

  lemma NoVariance(grades: seq<int>)
    ensures grades != [] && !HasVariance(grades) <==> grades != [] && forall x :: x in grades ==> x == grades[0]
  {
    if grades != [] {
      if x :| x in grades && x != grades[0] {
        var i :| 0 <= i < |grades| && grades[i] == x;
        assert 0 < i && grades[0] != grades[i];
      }
      if HasVariance(grades) {
        var i, j :| 0 <= i < j < |grades| && grades[i] != grades[j];
        assert grades[i] in grades && grades[j] in grades;
      }
    }
  }

  lemma OneGradeIs(rows: seq<GradeRow>, criterion: string)
    ensures OneGrade(rows, criterion) <==> GradesFor(rows, criterion) != [] && !HasVariance(GradesFor(rows, criterion))
  {
    var grades := GradesFor(rows, criterion);
    NoVariance(grades);
    forall grade ensures grade in grades <==> exists r :: 0 <= r < |rows| && rows[r].criterion == criterion && rows[r].grade == grade {
      GradesForRows(rows, criterion, grade);
    }
    hide GradesFor, HasVariance;
    if OneGrade(rows, criterion) {
      var r :| 0 <= r < |rows| && rows[r].criterion == criterion;
      assert rows[r].grade in grades;
      assert grades[0] in grades;
    } else if grades != [] && forall x :: x in grades ==> x == grades[0] {
      assert grades[0] in grades;
      forall r, t | 0 <= r < |rows| && 0 <= t < |rows| && rows[r].criterion == rows[t].criterion == criterion
        ensures rows[r].grade == rows[t].grade
      {
        assert rows[r].grade in grades && rows[t].grade in grades;
      }
    }
  }

  /** With something judged, a calibration is refused exactly for too few graded samples, for a judged criterion whose
      grades are all the same, and for a share to hold out that is not between 0 and 1. */
  lemma RefusedExactly(s: Store, judged: seq<string>, policy: Policy, shuffle: Shuffle)
    ensures OutcomeOf(s, judged, policy, shuffle).NotRequired? <==> judged == []
    ensures OutcomeOf(s, judged, policy, shuffle).Refused? <==>
      judged != [] && (GradedCount(s.samples, s.grades) < policy.minSamples as real || Constant(s.grades, judged)
                       || !(0.0 < policy.holdoutFraction < 1.0))
  {
    GradedSamplesAre(s.samples, s.grades, Graded(0, 0));
    forall c | 0 <= c < |judged|
      ensures OneGrade(s.grades, judged[c]) <==> GradesFor(s.grades, judged[c]) != [] && !HasVariance(GradesFor(s.grades, judged[c]))
    {
      OneGradeIs(s.grades, judged[c]);
    }
    hide GradedSamples, GradesFor, HasVariance, OneGrade, ExemplarsFrom, SortedStrata, AllShown, AllWithheld, GradedCount;
    assert Flat(s.grades, judged) <==> Constant(s.grades, judged);
  }

  // ---------------------------------------------------------------------------------------
  // What a jury is shown
  // ---------------------------------------------------------------------------------------

  ghost predicate FromRow(e: Exemplar, samples: seq<Sample>, r: GradeRow) {
    && e.criterion == r.criterion && e.grade == r.grade && e.note == r.note
    && exists i :: 0 <= i < |samples| && samples[i].id == r.sampleId && e.content == samples[i].content
  }

  ghost predicate DistinctStored(samples: seq<Sample>) {
    forall i, j :: 0 <= i < j < |samples| ==> samples[i].id != samples[j].id
  }

  lemma ContentIs(samples: seq<Sample>, id: Id)
    requires DistinctStored(samples) && Stored(samples, id)
    ensures forall i :: 0 <= i < |samples| && samples[i].id == id ==> ContentOf(samples, id) == samples[i].content
  {
    forall i | 0 <= i < |samples| && samples[i].id == id ensures ContentOf(samples, id) == samples[i].content {
      ContentHere(samples, i);
    }
  }

  lemma {:induction false} ContentHere(samples: seq<Sample>, i: nat)
    requires DistinctStored(samples) && i < |samples|
    ensures ContentOf(samples, samples[i].id) == samples[i].content
  {
    if i < |samples| - 1 {
      ContentHere(samples[..|samples| - 1], i);
    }
  }

  ghost predicate RowOf(e: Exemplar, rows: seq<GradeRow>, id: Id, content: string) {
    exists r :: 0 <= r < |rows| && rows[r].sampleId == id && e == Exemplar(rows[r].criterion, content, rows[r].grade, rows[r].note)
  }

  lemma {:induction false} ExemplarsOfRows(rows: seq<GradeRow>, id: Id, content: string, e: Exemplar)
    ensures e in ExemplarsOf(rows, id, content) <==> RowOf(e, rows, id, content)
  {
    if rows != [] {
      var n := |rows| - 1;
      ExemplarsOfRows(rows[..n], id, content, e);
      assert forall r :: 0 <= r < n ==> rows[..n][r] == rows[r];
      if rows[n].sampleId == id {
        var last := Exemplar(rows[n].criterion, content, rows[n].grade, rows[n].note);
        assert ExemplarsOf(rows, id, content) == ExemplarsOf(rows[..n], id, content) + [last];
      }
    }
  }

  ghost predicate Given(e: Exemplar, anchors: seq<Id>, samples: seq<Sample>, rows: seq<GradeRow>) {
    exists a :: 0 <= a < |anchors| && RowOf(e, rows, anchors[a], ContentOf(samples, anchors[a]))
  }

  lemma {:induction false} ExemplarsGiven(anchors: seq<Id>, samples: seq<Sample>, rows: seq<GradeRow>, e: Exemplar)
    ensures e in ExemplarsFrom(anchors, samples, rows) <==> Given(e, anchors, samples, rows)
  {
    hide ContentOf, RowOf;
    if anchors != [] {
      var n := |anchors| - 1;
      ExemplarsGiven(anchors[..n], samples, rows, e);
      ExemplarsOfRows(rows, anchors[n], ContentOf(samples, anchors[n]), e);
      assert forall a :: 0 <= a < n ==> anchors[..n][a] == anchors[a];
      hide ExemplarsOf;
    }
  }

  /** The exemplars of a calibration are the author's grades of its anchors: criterion, grade and note of the row, with the
      stored text of its sample. */
  lemma ExemplarsAre(anchors: seq<Id>, samples: seq<Sample>, rows: seq<GradeRow>, e: Exemplar)
    requires DistinctStored(samples) && forall a :: 0 <= a < |anchors| ==> Stored(samples, anchors[a])
    ensures e in ExemplarsFrom(anchors, samples, rows) <==>
            exists r :: 0 <= r < |rows| && rows[r].sampleId in anchors && FromRow(e, samples, rows[r])
  {
    ExemplarsGiven(anchors, samples, rows, e);
    hide ExemplarsFrom, ContentOf, DistinctStored;
    if Given(e, anchors, samples, rows) {
      var a :| 0 <= a < |anchors| && RowOf(e, rows, anchors[a], ContentOf(samples, anchors[a]));
      var r :| 0 <= r < |rows| && rows[r].sampleId == anchors[a]
               && e == Exemplar(rows[r].criterion, ContentOf(samples, anchors[a]), rows[r].grade, rows[r].note);
      ContentIs(samples, anchors[a]);
      var i :| 0 <= i < |samples| && samples[i].id == anchors[a];
      assert FromRow(e, samples, rows[r]);
    }
    if r :| 0 <= r < |rows| && rows[r].sampleId in anchors && FromRow(e, samples, rows[r]) {
      var a :| 0 <= a < |anchors| && anchors[a] == rows[r].sampleId;
      ContentIs(samples, anchors[a]);
      assert RowOf(e, rows, anchors[a], ContentOf(samples, anchors[a]));
    }
  }

  /** A run's exemplars are those of the rows whose sample is stored as an anchor. */
  lemma {:induction false} RunExemplarsAre(samples: seq<Sample>, rows: seq<GradeRow>, e: Exemplar)
    ensures e in AnchorsFor(samples, rows) <==>
            exists r :: 0 <= r < |rows| && IsAnchor(samples, rows[r].sampleId) && e == RowExemplar(samples, rows[r])
  {
    hide IsAnchor;
    if rows != [] {
      var n := |rows| - 1;
      RunExemplarsAre(samples, rows[..n], e);
      assert forall r :: 0 <= r < n ==> rows[..n][r] == rows[r];
      if IsAnchor(samples, rows[n].sampleId) {
        assert AnchorsFor(samples, rows) == AnchorsFor(samples, rows[..n]) + [RowExemplar(samples, rows[n])];
      }
      hide ContentOf;
    }
  }

  lemma {:induction false} SelectedAre(exemplars: seq<Exemplar>, criterion: string, e: Exemplar)
    ensures multiset(Select(exemplars, criterion))[e] == if e.criterion == criterion then multiset(exemplars)[e] else 0
  {
    if exemplars != [] {
      var n := |exemplars| - 1;
      SelectedAre(exemplars[..n], criterion, e);
      assert exemplars == exemplars[..n] + [exemplars[n]];
    }
  }

  /** A criterion's part of the prompt holds all its exemplars and no others, the best grade first. */
  lemma PromptMeans(exemplars: seq<Exemplar>, criterion: string)
    ensures forall e: Exemplar :: multiset(Prompt(exemplars,
        criterion))[e] == if e.criterion == criterion then multiset(exemplars)[e] else 0
    ensures forall i, j :: 0 <= i < j < |Prompt(exemplars, criterion)| ==>
              Prompt(exemplars, criterion)[i].grade >= Prompt(exemplars, criterion)[j].grade
  {
    var prompt := Prompt(exemplars, criterion);
    forall e: Exemplar ensures multiset(prompt)[e] == if e.criterion == criterion then multiset(exemplars)[e] else 0 {
      SelectedAre(exemplars, criterion, e);
    }
    assert SortedBy(prompt, BestFirst);
    hide SortBy, Select;
    forall i, j | 0 <= i < j < |prompt| ensures prompt[i].grade >= prompt[j].grade {
      assert BestFirst(prompt[i]) <= BestFirst(prompt[j]);
    }
  }

  // ---------------------------------------------------------------------------------------
  // Adding samples
  // ---------------------------------------------------------------------------------------

  /** An entry that names no text, or a run sample that cannot be promoted, or another text than the one on record. */
  predicate Bad(e: Entry) {
    match e
    case Pasted(content, _, _, _) => content == ""
    case Promoted(_, record, supplied) => record == None || record.value.text == "" || (supplied != "" && supplied != record.value.text)
  }

  /** What the sample of a good entry holds: the text offered, or the one on record. */
  predicate Holds(s: Sample, e: Entry) {
    match e
    case Pasted(content, origin, model, task) => s.content == content && s.about == About(origin, model, task, None)
    case Promoted(source, record, _) =>
      record.Some? && s.content == record.value.text
      && s.about == About("imported_run_sample", Some(record.value.model), record.value.task, Some(source))
  }

  function TextIn(e: Entry): string {
    match e
    case Pasted(content, _, _, _) => content
    case Promoted(_, record, _) => if record.Some? then record.value.text else ""
  }

  lemma DraftMeans(e: Entry)
    ensures DraftOf(e).ValueError? <==> Bad(e)
    ensures !Bad(e) ==>
      && DraftOf(e).value.content == TextIn(e)
      && forall id: Id :: Holds(Sample(id, DraftOf(e).value.content, Holdout, DraftOf(e).value.about), e)
  {
  }

  ghost predicate Offered(d: Draft, entries: seq<Entry>) {
    exists k :: 0 <= k < |entries| && DraftOf(entries[k]) == Ok(d)
  }

  lemma {:induction false} PendingIs(samples: seq<Sample>, entries: seq<Entry>)
    ensures Pending(samples, entries).ValueError? <==> exists k :: 0 <= k < |entries| && DraftOf(entries[k]).ValueError?
    ensures Pending(samples, entries).Ok? ==>
      && (forall i :: 0 <= i < |Pending(samples, entries).value| ==> Offered(Pending(samples, entries).value[i], entries))
      && (forall k :: 0 <= k < |entries| ==>
            HasContent(samples, DraftOf(entries[k]).value.content) ||
                Drafted(Pending(samples, entries).value, DraftOf(entries[k]).value.content))
  {
    hide DraftOf, HasContent;
    if entries != [] {
      var n := |entries| - 1;
      PendingIs(samples, entries[..n]);
      assert forall k :: 0 <= k < n ==> entries[..n][k] == entries[k];
      if Pending(samples, entries).Ok? {
        var front, all, draft := Pending(samples, entries[..n]).value, Pending(samples, entries).value, DraftOf(entries[n]).value;
        forall i | 0 <= i < |all| ensures Offered(all[i], entries) {
          if i < |front| {
            assert Offered(front[i], entries[..n]);
          } else {
            assert DraftOf(entries[n]) == Ok(draft);
          }
        }
        forall text | Drafted(front, text) ensures Drafted(all, text) {
          var i :| 0 <= i < |front| && front[i].content == text;
          assert all[i] == front[i];
        }
        if !HasContent(samples, draft.content) && !Drafted(front, draft.content) {
          assert all[|front|] == draft;
        }
      }
    }
  }

  /** What is new is held out, under the next ids in turn, with the text and origin of an entry. */
  ghost predicate NewFrom(s: Sample, id: Id, entries: seq<Entry>) {
    s.id == id && s.half == Holdout && exists k :: 0 <= k < |entries| && Holds(s, entries[k])
  }

  ghost predicate HasText(samples: seq<Sample>, text: string) { exists i :: 0 <= i < |samples| && samples[i].content == text }

  /** Adding stores every text offered and nothing else, behind what was there; one bad entry refuses them all. */
  lemma AddStores(s: Store, entries: seq<Entry>)
    ensures (exists k :: 0 <= k < |entries| && Bad(entries[k])) ==> AfterAdd(s, entries) == s
    ensures (forall k :: 0 <= k < |entries| ==> !Bad(entries[k])) ==>
      var after, n := AfterAdd(s, entries).samples, |s.samples|;
      && AfterAdd(s, entries).grades == s.grades
      && n <= |after| && after[..n] == s.samples
      && (forall i :: n <= i < |after| ==> NewFrom(after[i], s.nextId + (i - n), entries))
      && (forall k :: 0 <= k < |entries| ==> HasText(after, TextIn(entries[k])))
  {
    hide *;
    AfterAddIs(s, entries);
    RefusedIffBad(s.samples, entries);
    if forall k :: 0 <= k < |entries| ==> !Bad(entries[k]) {
      var drafts, n := Pending(s.samples, entries).value, |s.samples|;
      var after := s.samples + NewSamples(drafts, s.nextId);
      forall i | n <= i < |after| ensures NewFrom(after[i], s.nextId + (i - n), entries) {
        NewStands(s.samples, entries, s.nextId, i - n);
      }
      forall k | 0 <= k < |entries| ensures HasText(after, TextIn(entries[k])) {
        OfferedStands(s.samples, entries, s.nextId, k);
      }
    }
  }

  lemma RefusedIffBad(samples: seq<Sample>, entries: seq<Entry>)
    ensures Pending(samples, entries).ValueError? <==> exists k :: 0 <= k < |entries| && Bad(entries[k])
  {
    PendingIs(samples, entries);
    hide DraftOf, Bad, Pending;
    forall k | 0 <= k < |entries| ensures DraftOf(entries[k]).ValueError? <==> Bad(entries[k]) {
      DraftMeans(entries[k]);
    }
  }

  lemma NewStands(samples: seq<Sample>, entries: seq<Entry>, nextId: Id, i: nat)
    requires Pending(samples, entries).Ok? && i < |Pending(samples, entries).value|
    requires forall k :: 0 <= k < |entries| ==> !Bad(entries[k])
    ensures var all := samples + NewSamples(Pending(samples, entries).value, nextId);
            NewFrom(all[|samples| + i], nextId + i, entries)
  {
    PendingIs(samples, entries);
    hide DraftOf, Bad, Pending, NewFrom, Offered;
    NewHolds(entries, Pending(samples, entries).value[i], nextId + i);
  }

  lemma OfferedStands(samples: seq<Sample>, entries: seq<Entry>, nextId: Id, k: nat)
    requires Pending(samples, entries).Ok? && k < |entries| && !Bad(entries[k])
    ensures HasText(samples + NewSamples(Pending(samples, entries).value, nextId), TextIn(entries[k]))
  {
    PendingIs(samples, entries);
    DraftMeans(entries[k]);
    hide DraftOf, Bad, Pending, TextIn, HasContent, Drafted, HasText;
    TextStored(samples, Pending(samples, entries).value, nextId, TextIn(entries[k]));
  }

  lemma AfterAddIs(s: Store, entries: seq<Entry>)
    ensures Pending(s.samples, entries).ValueError? ==> AfterAdd(s, entries) == s
    ensures Pending(s.samples, entries).Ok? ==>
      && AfterAdd(s, entries).grades == s.grades
      && AfterAdd(s, entries).samples == s.samples + NewSamples(Pending(s.samples, entries).value, s.nextId)
  {
    hide Pending;
  }

  lemma NewHolds(entries: seq<Entry>, d: Draft, id: Id)
    requires Offered(d, entries) && forall k :: 0 <= k < |entries| ==> !Bad(entries[k])
    ensures NewFrom(Sample(id, d.content, Holdout, d.about), id, entries)
  {
    hide DraftOf, Holds, Bad;
    var k :| 0 <= k < |entries| && DraftOf(entries[k]) == Ok(d);
    DraftMeans(entries[k]);
  }

  lemma TextStored(samples: seq<Sample>, drafts: seq<Draft>, nextId: Id, text: string)
    requires HasContent(samples, text) || Drafted(drafts, text)
    ensures HasText(samples + NewSamples(drafts, nextId), text)
  {
    var all := samples + NewSamples(drafts, nextId);
    if HasContent(samples, text) {
      var i :| 0 <= i < |samples| && samples[i].content == text;
      assert all[i] == samples[i];
    } else {
      var i :| 0 <= i < |drafts| && drafts[i].content == text;
      assert all[|samples| + i].content == drafts[i].content;
    }
  }
}
