/** The calibration instrument of src/freeweight/services/calibration.py: adding, grading and
    partitioning samples, and the exemplars a jury is shown. Content hashes are modelled by the
    content itself, new identifiers by a counter. */
module Calibration {
  import opened Agreement
  import opened Ordering
  import opened Partition
  import opened Results

  datatype Half = Anchor | Holdout

  /** Where a sample came from: how, which model wrote it, for which task of the goal, and the run sample it is. */
  datatype About = About(origin: string, model: Option<string>, task: Option<string>, source: Option<string>)

  datatype Sample = Sample(id: Id, content: string, half: Half, about: About)

  datatype GradeRow = GradeRow(sampleId: Id, criterion: string, grade: int, note: string)

  datatype Store = Store(samples: seq<Sample>, grades: seq<GradeRow>, nextId: Id)

  /** What is on record of a run sample: its response, the model of its run and the goal's task it answered. */
  datatype RunSample = RunSample(text: string, model: string, task: Option<string>)

  /** What a caller offers: pasted text and what it says of it, or the id of a run sample to promote with its record
      (None when it is not a completed text-bearing sample of this goal) and the text sent beside it. */
  datatype Entry =
    | Pasted(content: string, origin: string, model: Option<string>, task: Option<string>)
    | Promoted(source: string, record: Option<RunSample>, supplied: string)

  /** A sample about to be stored. */
  datatype Draft = Draft(content: string, about: About)

  datatype Exemplar = Exemplar(criterion: string, content: string, grade: int, note: string)

  datatype Policy = Policy(minSamples: int, holdoutFraction: real)

  datatype Outcome =
    | NotRequired
    | Refused
    | Ran(split: Split, exemplars: seq<Exemplar>, judgedTexts: seq<string>)

  // ---------------------------------------------------------------------------------------
  // Adding samples
  // ---------------------------------------------------------------------------------------

  /** The sample a run sample becomes when it is promoted. */
  function Promotion(source: string, record: RunSample): Draft {
    Draft(record.text, About("imported_run_sample", Some(record.model), record.task, Some(source)))
  }

  function DraftOf(e: Entry): Result<Draft> {
    match e
    case Pasted(content, origin, model, task) =>
      if content == "" then ValueError else Ok(Draft(content, About(origin, model, task, None)))
    case Promoted(source, record, supplied) =>
      if record.None? || (supplied != "" && supplied != record.value.text) || record.value.text == "" then ValueError
      else Ok(Promotion(source, record.value))
  }

  predicate HasContent(samples: seq<Sample>, text: string) {
    exists i :: 0 <= i < |samples| && samples[i].content == text
  }

  predicate Drafted(drafts: seq<Draft>, text: string) {
    exists i :: 0 <= i < |drafts| && drafts[i].content == text
  }

  /** The new texts of a batch, in order, each once and none already stored; one bad entry refuses it all. */
  function Pending(samples: seq<Sample>, entries: seq<Entry>): Result<seq<Draft>> {
    if entries == [] then Ok([])
    else
      var front := Pending(samples, entries[..|entries| - 1]);
      var draft := DraftOf(entries[|entries| - 1]);
      if front.ValueError? || draft.ValueError? then ValueError
      else if HasContent(samples, draft.value.content) || Drafted(front.value, draft.value.content) then front
      else Ok(front.value + [draft.value])
  }

  function NewSamples(drafts: seq<Draft>, nextId: Id): (samples: seq<Sample>)
    ensures |samples| == |drafts|
    ensures forall i :: 0 <= i < |drafts| ==> samples[i] == Sample(nextId + i, drafts[i].content, Holdout, drafts[i].about)
  {
    seq(|drafts|, i requires 0 <= i < |drafts| => Sample(nextId + i, drafts[i].content, Holdout, drafts[i].about))
  }

  function AfterAdd(s: Store, entries: seq<Entry>): Store {
    var pending := Pending(s.samples, entries);
    if pending.ValueError? then s
    else Store(s.samples + NewSamples(pending.value, s.nextId), s.grades, s.nextId + |pending.value|)
  }

  // ---------------------------------------------------------------------------------------
  // Grading
  // ---------------------------------------------------------------------------------------

  predicate HasSample(samples: seq<Sample>, id: Id) {
    samples != [] && (samples[|samples| - 1].id == id || HasSample(samples[..|samples| - 1], id))
  }

  /** criteria maps each stored criterion to its scale, None when it is not graded on one. */
  predicate Acceptable(samples: seq<Sample>, criteria: map<string, Option<int>>, g: GradeRow) {
    && HasSample(samples, g.sampleId)
    && g.criterion in criteria
    && criteria[g.criterion].Some?
    && 1 <= g.grade <= criteria[g.criterion].value
  }

  /** Replaces the row of the same sample and criterion, or appends one. */
  function Upsert(rows: seq<GradeRow>, g: GradeRow): seq<GradeRow> {
    if rows == [] then [g]
    else
      var front, last := rows[..|rows| - 1], rows[|rows| - 1];
      if last.sampleId == g.sampleId && last.criterion == g.criterion then front + [g] else Upsert(front, g) + [last]
  }

  function UpsertAll(rows: seq<GradeRow>, submissions: seq<GradeRow>): seq<GradeRow> {
    if submissions == [] then rows
    else Upsert(UpsertAll(rows, submissions[..|submissions| - 1]), submissions[|submissions| - 1])
  }

  predicate AllAcceptable(samples: seq<Sample>, criteria: map<string, Option<int>>, submissions: seq<GradeRow>) {
    forall i :: 0 <= i < |submissions| ==> Acceptable(samples, criteria, submissions[i])
  }

  function AfterGrade(s: Store, criteria: map<string, Option<int>>, submissions: seq<GradeRow>): Store {
    if AllAcceptable(s.samples, criteria, submissions) then s.(grades := UpsertAll(s.grades, submissions)) else s
  }

  predicate SamePair(a: GradeRow, b: GradeRow) { a.sampleId == b.sampleId && a.criterion == b.criterion }

  ghost predicate OnePerPair(rows: seq<GradeRow>) {
    forall i, j :: 0 <= i < j < |rows| ==> !SamePair(rows[i], rows[j])
  }

  /** No later submission is for the same sample and criterion. */
  ghost predicate IsLast(submissions: seq<GradeRow>, k: nat)
    requires k < |submissions|
  {
    forall j :: k < j < |submissions| ==> !SamePair(submissions[j], submissions[k])
  }

  ghost predicate Submitted(submissions: seq<GradeRow>, r: GradeRow) {
    exists k :: 0 <= k < |submissions| && submissions[k] == r && IsLast(submissions, k)
  }

  ghost predicate Untouched(submissions: seq<GradeRow>, r: GradeRow) {
    forall k :: 0 <= k < |submissions| ==> !SamePair(submissions[k], r)
  }

  /** Of each sample and criterion there is at most one row: the last one submitted for them, or where none was, the row
      there was before. */
  ghost predicate Regraded(rows: seq<GradeRow>, submissions: seq<GradeRow>, after: seq<GradeRow>) {
    && OnePerPair(after)
    && forall r :: r in after <==> Submitted(submissions, r) || (r in rows && Untouched(submissions, r))
  }

  lemma {:induction false} UpsertIs(rows: seq<GradeRow>, g: GradeRow)
    requires OnePerPair(rows)
    ensures OnePerPair(Upsert(rows, g))
    ensures forall r :: r in Upsert(rows, g) <==> r == g || (r in rows && !SamePair(r, g))
  {
    if rows != [] {
      var n := |rows| - 1;
      var front, last := rows[..n], rows[n];
      assert rows == front + [last];
      if SamePair(last, g) {
        InPlace(front, last, g);
      } else {
        UpsertIs(front, g);
        Behind(Upsert(front, g), front, last, g);
      }
    }
  }

  lemma InPlace(front: seq<GradeRow>, last: GradeRow, g: GradeRow)
    requires OnePerPair(front + [last]) && SamePair(last, g)
    ensures OnePerPair(front + [g])
    ensures forall r :: r in front + [g] <==> r == g || (r in front + [last] && !SamePair(r, g))
  {
    var rows := front + [last];
    forall i | 0 <= i < |front| ensures !SamePair(front[i], g) {
      assert !SamePair(rows[i], rows[|front|]);
    }
    forall i, j | 0 <= i < j < |front| ensures !SamePair(front[i], front[j]) {
      assert !SamePair(rows[i], rows[j]);
    }
  }

  lemma Behind(upserted: seq<GradeRow>, front: seq<GradeRow>, last: GradeRow, g: GradeRow)
    requires OnePerPair(front + [last]) && !SamePair(last, g) && OnePerPair(upserted)
    requires forall r :: r in upserted <==> r == g || (r in front && !SamePair(r, g))
    ensures OnePerPair(upserted + [last])
    ensures forall r :: r in upserted + [last] <==> r == g || (r in front + [last] && !SamePair(r, g))
  {
    forall i | 0 <= i < |upserted| ensures !SamePair(upserted[i], last) {
      if upserted[i] != g {
        assert upserted[i] in upserted && upserted[i] in front;
        var k :| 0 <= k < |front| && front[k] == upserted[i];
        assert !SamePair((front + [last])[k], (front + [last])[|front|]);
      }
    }
  }

  lemma LaterSubmission(submissions: seq<GradeRow>, g: GradeRow, r: GradeRow)
    ensures Submitted(submissions + [g], r) <==> r == g || (Submitted(submissions, r) && !SamePair(r, g))
    ensures Untouched(submissions + [g], r) <==> Untouched(submissions, r) && !SamePair(g, r)
  {
    var all, n := submissions + [g], |submissions|;
    if Submitted(all, r) && r != g {
      var k :| 0 <= k < |all| && all[k] == r && IsLast(all, k);
      assert k < n && !SamePair(all[n], all[k]);
      assert forall j :: k < j < n ==> all[j] == submissions[j];
      assert IsLast(submissions, k);
    }
    if r == g {
      assert all[n] == r && IsLast(all, n);
    } else if Submitted(submissions, r) && !SamePair(r, g) {
      var k :| 0 <= k < n && submissions[k] == r && IsLast(submissions, k);
      assert forall j :: k < j <= n ==> all[j] == if j < n then submissions[j] else g;
      assert all[k] == r && IsLast(all, k);
    }
    assert forall k :: 0 <= k < n ==> all[k] == submissions[k];
    assert all[n] == g;
  }

  /** Recording grades one by one leaves the last one of each sample and criterion. */
  lemma {:induction false} UpsertAllIs(rows: seq<GradeRow>, submissions: seq<GradeRow>)
    requires OnePerPair(rows)
    ensures Regraded(rows, submissions, UpsertAll(rows, submissions))
  {
    hide OnePerPair, Upsert;
    if submissions == [] {
      assert forall r :: !Submitted(submissions, r) && Untouched(submissions, r);
    } else {
      var n := |submissions| - 1;
      var before, g := UpsertAll(rows, submissions[..n]), submissions[n];
      UpsertAllIs(rows, submissions[..n]);
      UpsertIs(before, g);
      assert submissions == submissions[..n] + [g];
      hide Submitted, Untouched;
      forall r ensures r in Upsert(before, g) <==> Submitted(submissions, r) || (r in rows && Untouched(submissions, r)) {
        LaterSubmission(submissions[..n], g, r);
      }
    }
  }

  // ---------------------------------------------------------------------------------------
  // Calibrating
  // ---------------------------------------------------------------------------------------

  function GradesOf(rows: seq<GradeRow>, id: Id): seq<int> {
    if rows == [] then []
    else
      var front, last := GradesOf(rows[..|rows| - 1], id), rows[|rows| - 1];
      if last.sampleId == id then front + [last.grade] else front
  }

  function GradesFor(rows: seq<GradeRow>, criterion: string): seq<int> {
    if rows == [] then []
    else
      var front, last := GradesFor(rows[..|rows| - 1], criterion), rows[|rows| - 1];
      if last.criterion == criterion then front + [last.grade] else front
  }

  function AsReal(x: int): real { x as real }

  function Median(grades: seq<int>): real
    requires grades != []
  {
    var ordered := SortBy(grades, AsReal);
    var n := |ordered|;
    if n % 2 == 1 then ordered[n / 2] as real else (ordered[n / 2 - 1] + ordered[n / 2]) as real / 2.0
  }

  function Representative(grades: seq<int>): int {
    if grades == [] then 1 else Round(Median(grades))
  }

  /** The samples with at least one grade, each under its representative grade. */
  function GradedSamples(samples: seq<Sample>, rows: seq<GradeRow>): seq<Graded> {
    if samples == [] then []
    else
      var front, last := GradedSamples(samples[..|samples| - 1], rows), samples[|samples| - 1];
      var grades := GradesOf(rows, last.id);
      if grades == [] then front else front + [Graded(last.id, Representative(grades))]
  }

  predicate Flat(rows: seq<GradeRow>, judged: seq<string>) {
    exists c :: 0 <= c < |judged| && GradesFor(rows, judged[c]) != [] && !HasVariance(GradesFor(rows, judged[c]))
  }

  function Relabelled(samples: seq<Sample>, split: Split): (r: seq<Sample>)
    ensures |r| == |samples|
    ensures forall i :: 0 <= i < |samples| ==>
              r[i] == samples[i].(half := if samples[i].id in split.anchors then Anchor
                                           else if samples[i].id in split.holdout then Holdout
                                           else samples[i].half)
  {
    seq(|samples|, i requires 0 <= i < |samples| =>
      samples[i].(half := if samples[i].id in split.anchors then Anchor
                           else if samples[i].id in split.holdout then Holdout
                           else samples[i].half))
  }

  function ContentOf(samples: seq<Sample>, id: Id): string {
    if samples == [] then ""
    else if samples[|samples| - 1].id == id then samples[|samples| - 1].content
    else ContentOf(samples[..|samples| - 1], id)
  }

  function ContentsOf(samples: seq<Sample>, ids: seq<Id>): (texts: seq<string>)
    ensures |texts| == |ids| && forall i :: 0 <= i < |ids| ==> texts[i] == ContentOf(samples, ids[i])
  {
    seq(|ids|, i requires 0 <= i < |ids| => ContentOf(samples, ids[i]))
  }

  /** The author's grades of one sample, as exemplars. */
  function ExemplarsOf(rows: seq<GradeRow>, id: Id, content: string): seq<Exemplar> {
    if rows == [] then []
    else
      var front, last := ExemplarsOf(rows[..|rows| - 1], id, content), rows[|rows| - 1];
      if last.sampleId == id then front + [Exemplar(last.criterion, content, last.grade, last.note)] else front
  }

  /** The exemplars of the anchor half of one partition. */
  function ExemplarsFrom(anchors: seq<Id>, samples: seq<Sample>, rows: seq<GradeRow>): seq<Exemplar> {
    if anchors == [] then []
    else
      var id := anchors[|anchors| - 1];
      ExemplarsFrom(anchors[..|anchors| - 1], samples, rows) + ExemplarsOf(rows, id, ContentOf(samples, id))
  }

  predicate IsAnchor(samples: seq<Sample>, id: Id) {
    samples != [] && ((samples[|samples| - 1].id == id && samples[|samples| - 1].half == Anchor)
                      || IsAnchor(samples[..|samples| - 1], id))
  }

  /** The exemplars a run's jury is built with, read back from the stored labels. */
  function AnchorsFor(samples: seq<Sample>, rows: seq<GradeRow>): seq<Exemplar> {
    if rows == [] then []
    else
      var front, last := AnchorsFor(samples, rows[..|rows| - 1]), rows[|rows| - 1];
      if IsAnchor(samples, last.sampleId) then
        front + [Exemplar(last.criterion, ContentOf(samples, last.sampleId), last.grade, last.note)]
      else front
  }

  function Select(exemplars: seq<Exemplar>, criterion: string): seq<Exemplar> {
    if exemplars == [] then []
    else
      var front, last := Select(exemplars[..|exemplars| - 1], criterion), exemplars[|exemplars| - 1];
      if last.criterion == criterion then front + [last] else front
  }

  function BestFirst(e: Exemplar): real { -(e.grade as real) }

  /** One criterion's part of the judge prompt: its exemplars, best grade first. */
  function Prompt(exemplars: seq<Exemplar>, criterion: string): seq<Exemplar> {
    SortBy(Select(exemplars, criterion), BestFirst)
  }

  function OutcomeOf(s: Store, judged: seq<string>, policy: Policy, shuffle: Shuffle): Outcome {
    var graded := GradedSamples(s.samples, s.grades);
    if judged == [] then NotRequired
    else if |graded| < policy.minSamples || Flat(s.grades, judged) then Refused
    else
      var r := PartitionOf(graded, policy.holdoutFraction, shuffle);
      if r.ValueError? then Refused
      else Ran(r.value, ExemplarsFrom(r.value.anchors, s.samples, s.grades), ContentsOf(s.samples, r.value.holdout))
  }

  function AfterCalibrate(s: Store, judged: seq<string>, policy: Policy, shuffle: Shuffle): Store {
    var outcome := OutcomeOf(s, judged, policy, shuffle);
    if outcome.Ran? then s.(samples := Relabelled(s.samples, outcome.split)) else s
  }

  // ---------------------------------------------------------------------------------------
  // The stored goal, changed in place
  // ---------------------------------------------------------------------------------------

  class Goal {
    var samples: seq<Sample>
    var grades: seq<GradeRow>
    var nextId: Id

    constructor ()
      ensures State() == Store([], [], 0)
    {
      samples, grades, nextId := [], [], 0;
    }

    function State(): Store
      reads this
    {
      Store(samples, grades, nextId)
    }

    /** The ids of the samples stored, which stand last, in the order given. */
    method AddSamples(entries: seq<Entry>) returns (added: Result<seq<Id>>)
      modifies this
      ensures State() == AfterAdd(old(State()), entries)
      ensures added.Ok? <==> Pending(old(samples), entries).Ok?
      ensures added.Ok? ==> |samples| == |old(samples)| + |added.value|
      ensures added.Ok? ==> forall i :: 0 <= i < |added.value| ==> samples[|old(samples)| + i].id == added.value[i]
    {
      var pending: seq<Draft> := [];
      for i := 0 to |entries|
        invariant Ok(pending) == Pending(samples, entries[..i])
        invariant unchanged(this)
      {
        assert entries[..i + 1][..i] == entries[..i];
        var draft := DraftOf(entries[i]);
        if draft.ValueError? {
          PendingRefused(samples, entries, i);
          return ValueError;
        }
        if !HasContent(samples, draft.value.content) && !Drafted(pending, draft.value.content) {
          pending := pending + [draft.value];
        }
      }
      assert entries[..|entries|] == entries;
      var created := NewSamples(pending, nextId);
      samples := samples + created;
      nextId := nextId + |pending|;
      return Ok(seq(|created|, i requires 0 <= i < |created| => created[i].id));
    }

    method RecordGrades(criteria: map<string, Option<int>>, submissions: seq<GradeRow>) returns (recorded: Result<nat>)
      modifies `grades
      ensures State() == AfterGrade(old(State()), criteria, submissions)
      ensures recorded == if AllAcceptable(samples, criteria, submissions) then Ok(|submissions|) else ValueError
      ensures recorded.ValueError? ==> grades == old(grades)
      ensures recorded.Ok? && OnePerPair(old(grades)) ==> Regraded(old(grades), submissions, grades)
    {
      if OnePerPair(grades) {
        UpsertAllIs(grades, submissions);
      }
      hide Regraded, OnePerPair;
      var rows := grades;
      for i := 0 to |submissions|
        invariant AllAcceptable(samples, criteria, submissions[..i])
        invariant rows == UpsertAll(grades, submissions[..i]) && grades == old(grades)
      {
        assert submissions[..i + 1][..i] == submissions[..i];
        if !Acceptable(samples, criteria, submissions[i]) {
          return ValueError;
        }
        rows := Upsert(rows, submissions[i]);
      }
      assert submissions[..|submissions|] == submissions;
      grades := rows;
      return Ok(|submissions|);
    }

    method RunCalibration(judged: seq<string>, policy: Policy, shuffle: Shuffle) returns (outcome: Outcome)
      modifies `samples
      ensures State() == AfterCalibrate(old(State()), judged, policy, shuffle)
      ensures outcome == OutcomeOf(old(State()), judged, policy, shuffle)
    {
      if judged == [] {
        return NotRequired;
      }
      hide PartitionOf, GradedSamples, ExemplarsFrom, Flat;
      var graded := GradedSamples(samples, grades);
      if |graded| < policy.minSamples || Flat(grades, judged) {
        return Refused;
      }
      var split := PartitionSamples(graded, policy.holdoutFraction, shuffle);
      if split.ValueError? {
        return Refused;
      }
      var snapshot := samples;
      samples := Relabelled(samples, split.value);
      var exemplars := BuildExemplars(split.value.anchors, snapshot, grades);
      return Ran(split.value, exemplars, ContentsOf(snapshot, split.value.holdout));
    }
  }

  method BuildExemplars(anchors: seq<Id>, samples: seq<Sample>, rows: seq<GradeRow>) returns (exemplars: seq<Exemplar>)
    ensures exemplars == ExemplarsFrom(anchors, samples, rows)
  {
    exemplars := [];
    for i := 0 to |anchors|
      invariant exemplars == ExemplarsFrom(anchors[..i], samples, rows)
    {
      assert anchors[..i + 1][..i] == anchors[..i];
      exemplars := exemplars + ExemplarsOf(rows, anchors[i], ContentOf(samples, anchors[i]));
    }
    assert anchors[..|anchors|] == anchors;
  }

  lemma {:induction false} PendingRefused(samples: seq<Sample>, entries: seq<Entry>, i: nat)
    requires i < |entries| && DraftOf(entries[i]).ValueError?
    ensures Pending(samples, entries).ValueError?
  {
    if i < |entries| - 1 {
      PendingRefused(samples, entries[..|entries| - 1], i);
    }
  }

  // ---------------------------------------------------------------------------------------
  // Every history of adding, grading and calibrating
  // ---------------------------------------------------------------------------------------

  datatype Step =
    | Add(entries: seq<Entry>)
    | Grade(criteria: map<string, Option<int>>, submissions: seq<GradeRow>)
    | Calibrate(judged: seq<string>, policy: Policy, shuffle: Shuffle)

  /** The stored goal together with the last partition any calibration computed. */
  datatype World = World(store: Store, last: Option<Split>)

  const EMPTY := World(Store([], [], 0), None)

  function After(w: World, step: Step): World {
    match step
    case Add(entries) => w.(store := AfterAdd(w.store, entries))
    case Grade(criteria, submissions) => w.(store := AfterGrade(w.store, criteria, submissions))
    case Calibrate(judged, policy, shuffle) =>
      var outcome := OutcomeOf(w.store, judged, policy, shuffle);
      World(AfterCalibrate(w.store, judged, policy, shuffle), if outcome.Ran? then Some(outcome.split) else w.last)
  }

  function Run(history: seq<Step>): World {
    if history == [] then EMPTY else After(Run(history[..|history| - 1]), history[|history| - 1])
  }

  ghost predicate FairStep(step: Step) {
    step.Calibrate? ==> Permutes(step.shuffle)
  }

  ghost predicate Fair(history: seq<Step>) {
    forall i :: 0 <= i < |history| ==> FairStep(history[i])
  }

  // ---------------------------------------------------------------------------------------
  // What every step keeps
  // ---------------------------------------------------------------------------------------

  ghost predicate DistinctSamples(s: Store) {
    && (forall i, j :: 0 <= i < j < |s.samples| ==> s.samples[i].id < s.samples[j].id && s.samples[i].content != s.samples[j].content)
    && (forall i :: 0 <= i < |s.samples| ==> s.samples[i].id < s.nextId && s.samples[i].content != "")
  }

  ghost predicate HasRow(rows: seq<GradeRow>, id: Id, criterion: string) {
    rows != [] && ((rows[|rows| - 1].sampleId == id && rows[|rows| - 1].criterion == criterion)
                   || HasRow(rows[..|rows| - 1], id, criterion))
  }

  ghost predicate HasGrade(rows: seq<GradeRow>, id: Id) {
    rows != [] && (rows[|rows| - 1].sampleId == id || HasGrade(rows[..|rows| - 1], id))
  }

  /** At most one grade for one sample on one criterion, and every grade on a stored sample. */
  ghost predicate GradesStored(samples: seq<Sample>, rows: seq<GradeRow>) {
    rows != [] ==>
      var front, last := rows[..|rows| - 1], rows[|rows| - 1];
      GradesStored(samples, front) && HasSample(samples, last.sampleId) && !HasRow(front, last.sampleId, last.criterion)
  }

  /** The stored anchors are exactly the last partition's, and all of them are graded samples. */
  ghost predicate LabelsCurrent(w: World) {
    && (forall i :: 0 <= i < |w.store.samples| ==>
          (w.store.samples[i].half == Anchor <==> w.last.Some? && w.store.samples[i].id in w.last.value.anchors))
    && (forall id :: w.last.Some? && id in w.last.value.anchors ==>
          HasGrade(w.store.grades, id) && HasSample(w.store.samples, id))
  }

  ghost predicate Inv(w: World) {
    DistinctSamples(w.store) && GradesStored(w.store.samples, w.store.grades) && LabelsCurrent(w)
  }

  predicate FreshDrafts(samples: seq<Sample>, drafts: seq<Draft>) {
    && (forall i :: 0 <= i < |drafts| ==> drafts[i].content != "" && !HasContent(samples, drafts[i].content))
    && (forall i, j :: 0 <= i < j < |drafts| ==> drafts[i].content != drafts[j].content)
  }

  lemma {:induction false} PendingFresh(samples: seq<Sample>, entries: seq<Entry>)
    requires Pending(samples, entries).Ok?
    ensures FreshDrafts(samples, Pending(samples, entries).value)
  {
    if entries != [] {
      PendingFresh(samples, entries[..|entries| - 1]);
      hide HasContent;
    }
  }

  lemma {:induction false} SampleAt(samples: seq<Sample>, i: nat)
    requires i < |samples|
    ensures HasSample(samples, samples[i].id)
  {
    if i < |samples| - 1 {
      SampleAt(samples[..|samples| - 1], i);
    }
  }

  lemma {:induction false} FindSample(samples: seq<Sample>, id: Id) returns (i: nat)
    requires HasSample(samples, id)
    ensures i < |samples| && samples[i].id == id
  {
    if samples[|samples| - 1].id == id {
      i := |samples| - 1;
    } else {
      i := FindSample(samples[..|samples| - 1], id);
    }
  }

  /** Samples that stay, possibly among others or under other labels, stay found. */
  lemma SameSamples(samples: seq<Sample>, samples': seq<Sample>, id: Id)
    requires |samples| <= |samples'| && forall i :: 0 <= i < |samples| ==> samples'[i].id == samples[i].id
    ensures HasSample(samples, id) ==> HasSample(samples', id)
    ensures |samples| == |samples'| ==> (HasSample(samples', id) ==> HasSample(samples, id))
  {
    if HasSample(samples, id) {
      var i := FindSample(samples, id);
      SampleAt(samples', i);
    }
    if |samples| == |samples'| && HasSample(samples', id) {
      var i := FindSample(samples', id);
      SampleAt(samples, i);
    }
  }

  lemma {:induction false} GradesStayStored(samples: seq<Sample>, samples': seq<Sample>, rows: seq<GradeRow>)
    requires GradesStored(samples, rows)
    requires |samples| <= |samples'| && forall i :: 0 <= i < |samples| ==> samples'[i].id == samples[i].id
    ensures GradesStored(samples', rows)
  {
    if rows != [] {
      GradesStayStored(samples, samples', rows[..|rows| - 1]);
      SameSamples(samples, samples', rows[|rows| - 1].sampleId);
    }
  }

  lemma JoinKeepsDistinct(s: Store, drafts: seq<Draft>)
    requires DistinctSamples(s) && FreshDrafts(s.samples, drafts)
    ensures DistinctSamples(Store(s.samples + NewSamples(drafts, s.nextId), s.grades, s.nextId + |drafts|))
  {
    var n, added := |s.samples|, NewSamples(drafts, s.nextId);
    var all := s.samples + added;
    assert forall i :: 0 <= i < |all| ==> all[i] == if i < n then s.samples[i] else added[i - n];
    forall i, j | 0 <= i < n <= j < |all| ensures all[i].content != all[j].content {
      assert !HasContent(s.samples, drafts[j - n].content);
    }
  }

  lemma AddKeepsDistinct(s: Store, entries: seq<Entry>)
    requires DistinctSamples(s)
    ensures DistinctSamples(AfterAdd(s, entries))
  {
    if Pending(s.samples, entries).Ok? {
      PendingFresh(s.samples, entries);
      hide Pending, FreshDrafts;
      JoinKeepsDistinct(s, Pending(s.samples, entries).value);
    }
  }

  lemma AddKeeps(w: World, entries: seq<Entry>)
    requires Inv(w)
    ensures Inv(After(w, Add(entries)))
  {
    AddKeepsDistinct(w.store, entries);
    if Pending(w.store.samples, entries).Ok? {
      hide Pending;
      var s, s' := w.store, AfterAdd(w.store, entries);
      var n := |s.samples|;
      GradesStayStored(s.samples, s'.samples, s.grades);
      forall id ensures HasSample(s.samples, id) ==> HasSample(s'.samples, id) {
        SameSamples(s.samples, s'.samples, id);
      }
      forall i | n <= i < |s'.samples| ensures !HasSample(s.samples, s'.samples[i].id) {
        if HasSample(s.samples, s'.samples[i].id) {
          var j := FindSample(s.samples, s'.samples[i].id);
          assert false;
        }
      }
    }
  }

  lemma {:induction false} UpsertRows(rows: seq<GradeRow>, g: GradeRow, id: Id, criterion: string)
    ensures HasRow(Upsert(rows, g), id, criterion)
       <==> HasRow(rows, id, criterion) || (id == g.sampleId && criterion == g.criterion)
    ensures HasGrade(Upsert(rows, g), id) <==> HasGrade(rows, id) || id == g.sampleId
  {
    if rows != [] {
      UpsertRows(rows[..|rows| - 1], g, id, criterion);
    }
  }

  /** The rows of a store that keeps its grades have one row per sample and criterion. */
  lemma {:induction false} StoredOnePerPair(samples: seq<Sample>, rows: seq<GradeRow>)
    requires GradesStored(samples, rows)
    ensures OnePerPair(rows)
    ensures forall i :: 0 <= i < |rows| ==> HasRow(rows, rows[i].sampleId, rows[i].criterion)
  {
    if rows != [] {
      var n := |rows| - 1;
      StoredOnePerPair(samples, rows[..n]);
      forall i | 0 <= i < n ensures !SamePair(rows[i], rows[n]) && HasRow(rows, rows[i].sampleId, rows[i].criterion) {
        assert rows[..n][i] == rows[i];
      }
      forall i, j | 0 <= i < j < n ensures !SamePair(rows[i], rows[j]) {
        assert !SamePair(rows[..n][i], rows[..n][j]);
      }
    }
  }

  lemma {:induction false} UpsertKeeps(samples: seq<Sample>, rows: seq<GradeRow>, g: GradeRow)
    requires GradesStored(samples, rows) && HasSample(samples, g.sampleId)
    ensures GradesStored(samples, Upsert(rows, g))
  {
    if rows != [] {
      var front, last := rows[..|rows| - 1], rows[|rows| - 1];
      if last.sampleId != g.sampleId || last.criterion != g.criterion {
        UpsertKeeps(samples, front, g);
        UpsertRows(front, g, last.sampleId, last.criterion);
      }
    }
  }

  lemma {:induction false} UpsertAllKeeps(s: Store, criteria: map<string, Option<int>>, submissions: seq<GradeRow>, id: Id)
    requires GradesStored(s.samples, s.grades) && AllAcceptable(s.samples, criteria, submissions)
    ensures GradesStored(s.samples, UpsertAll(s.grades, submissions))
    ensures HasGrade(s.grades, id) ==> HasGrade(UpsertAll(s.grades, submissions), id)
  {
    if submissions != [] {
      var front, g := submissions[..|submissions| - 1], submissions[|submissions| - 1];
      UpsertAllKeeps(s, criteria, front, id);
      UpsertKeeps(s.samples, UpsertAll(s.grades, front), g);
      UpsertRows(UpsertAll(s.grades, front), g, id, g.criterion);
    }
  }

  lemma GradeKeeps(w: World, criteria: map<string, Option<int>>, submissions: seq<GradeRow>)
    requires Inv(w)
    ensures Inv(After(w, Grade(criteria, submissions)))
  {
    if AllAcceptable(w.store.samples, criteria, submissions) {
      forall id ensures HasGrade(w.store.grades, id) ==> HasGrade(UpsertAll(w.store.grades, submissions), id) {
        UpsertAllKeeps(w.store, criteria, submissions, id);
      }
      UpsertAllKeeps(w.store, criteria, submissions, 0);
    }
  }

  lemma {:induction false} GradesOfGraded(rows: seq<GradeRow>, id: Id)
    ensures GradesOf(rows, id) != [] <==> HasGrade(rows, id)
  {
    if rows != [] {
      GradesOfGraded(rows[..|rows| - 1], id);
    }
  }

  /** The graded samples are the stored samples that have a grade. */
  lemma {:induction false} GradedExactly(samples: seq<Sample>, rows: seq<GradeRow>, id: Id)
    ensures id in Ids(GradedSamples(samples, rows)) <==> HasSample(samples, id) && HasGrade(rows, id)
  {
    hide Representative;
    if samples != [] {
      var front, last := samples[..|samples| - 1], samples[|samples| - 1];
      GradedExactly(front, rows, id);
      GradesOfGraded(rows, last.id);
      var before := GradedSamples(front, rows);
      if HasGrade(rows, last.id) {
        assert Ids(GradedSamples(samples, rows)) == Ids(before) + [last.id];
      }
    }
  }

  predicate Below(graded: seq<Graded>, bound: Id) {
    forall i :: 0 <= i < |graded| ==> graded[i].id < bound
  }

  lemma LaterId(graded: seq<Graded>, g: Graded, bound: Id)
    requires DistinctIds(graded) && Below(graded, g.id) && g.id < bound
    ensures DistinctIds(graded + [g]) && Below(graded + [g], bound) && Below(graded, bound)
  {
  }

  predicate AscendingIds(samples: seq<Sample>, bound: Id) {
    && (forall i, j :: 0 <= i < j < |samples| ==> samples[i].id < samples[j].id)
    && (forall i :: 0 <= i < |samples| ==> samples[i].id < bound)
  }

  lemma FrontAscends(samples: seq<Sample>, bound: Id)
    requires samples != [] && AscendingIds(samples, bound)
    ensures var n := |samples| - 1; samples[n].id < bound && AscendingIds(samples[..n], samples[n].id)
  {
  }

  lemma GradedStep(samples: seq<Sample>, rows: seq<GradeRow>)
    requires samples != []
    ensures var n := |samples| - 1;
            var front, grades := GradedSamples(samples[..n], rows), GradesOf(rows, samples[n].id);
            GradedSamples(samples, rows) ==
            if grades == [] then front else front + [Graded(samples[n].id, Representative(grades))]
  {
    hide GradesOf, Representative;
  }

  lemma {:induction false} GradedBelow(samples: seq<Sample>, rows: seq<GradeRow>, bound: Id)
    requires AscendingIds(samples, bound)
    ensures DistinctIds(GradedSamples(samples, rows)) && Below(GradedSamples(samples, rows), bound)
  {
    if samples != [] {
      var n := |samples| - 1;
      FrontAscends(samples, bound);
      hide AscendingIds;
      GradedBelow(samples[..n], rows, samples[n].id);
      GradedStep(samples, rows);
      hide GradedSamples, GradesOf, Representative;
      LaterId(GradedSamples(samples[..n], rows), Graded(samples[n].id, Representative(GradesOf(rows, samples[n].id))), bound);
    }
  }

  lemma GradedDistinct(s: Store)
    requires DistinctSamples(s)
    ensures DistinctIds(GradedSamples(s.samples, s.grades))
  {
    hide GradedSamples, Below;
    GradedBelow(s.samples, s.grades, s.nextId);
  }

  /** A calibration's halves are disjoint and hold exactly the stored samples that have a grade. */
  lemma HalvesExactly(s: Store, judged: seq<string>, policy: Policy, shuffle: Shuffle, id: Id)
    requires DistinctSamples(s) && Permutes(shuffle) && OutcomeOf(s, judged, policy, shuffle).Ran?
    ensures var split := OutcomeOf(s, judged, policy, shuffle).split;
            && (id in split.anchors || id in split.holdout <==> HasSample(s.samples, id) && HasGrade(s.grades, id))
            && !(id in split.anchors && id in split.holdout)
  {
    hide GradedSamples, Flat, ExemplarsFrom;
    var graded := GradedSamples(s.samples, s.grades);
    GradedDistinct(s);
    GradedExactly(s.samples, s.grades, id);
    PartitionDisjoint(graded, policy.holdoutFraction, shuffle, id);
    hide Permutes;
  }

  lemma CalibrateKeeps(w: World, judged: seq<string>, policy: Policy, shuffle: Shuffle)
    requires Inv(w) && Permutes(shuffle)
    ensures Inv(After(w, Calibrate(judged, policy, shuffle)))
  {
    var s, outcome := w.store, OutcomeOf(w.store, judged, policy, shuffle);
    hide PartitionOf, GradedSamples, ExemplarsFrom, Flat;
    if outcome.Ran? {
      var split := outcome.split;
      forall id: Id ensures (id in split.anchors || id in split.holdout <==> HasSample(s.samples, id) && HasGrade(s.grades, id))
                            && !(id in split.anchors && id in split.holdout) {
        HalvesExactly(s, judged, policy, shuffle, id);
      }
      hide OutcomeOf;
      LabelsAfter(w, After(w, Calibrate(judged, policy, shuffle)), split);
    }
  }

  lemma LabelsAfter(w: World, w': World, split: Split)
    requires Inv(w)
    requires forall id: Id :: (id in split.anchors || id in split.holdout <==>
        HasSample(w.store.samples, id) && HasGrade(w.store.grades, id))
    requires w' == World(w.store.(samples := Relabelled(w.store.samples, split)), Some(split))
    ensures Inv(w')
  {
    var samples, samples' := w.store.samples, w'.store.samples;
    GradesStayStored(samples, samples', w.store.grades);
    forall id ensures HasSample(samples', id) <==> HasSample(samples, id) {
      SameSamples(samples, samples', id);
    }
    forall i | 0 <= i < |samples'| ensures samples'[i].half == Anchor <==> samples'[i].id in split.anchors {
      SampleAt(samples, i);
    }
    hide HasSample, HasGrade, GradesStored;
  }

  /** Every reachable state keeps texts distinct, grades on stored samples, and the stored anchors
      equal to the last partition's. */
  lemma {:induction false} RunKeeps(history: seq<Step>)
    requires Fair(history)
    ensures Inv(Run(history))
  {
    if history != [] {
      var front, step := history[..|history| - 1], history[|history| - 1];
      RunKeeps(front);
      assert FairStep(step);
      match step
      case Add(entries) => AddKeeps(Run(front), entries);
      case Grade(criteria, submissions) => GradeKeeps(Run(front), criteria, submissions);
      case Calibrate(judged, policy, shuffle) => CalibrateKeeps(Run(front), judged, policy, shuffle);
    }
  }

  // ---------------------------------------------------------------------------------------
  // No held-out text reaches the jury
  // ---------------------------------------------------------------------------------------

  lemma {:induction false} ContentAt(samples: seq<Sample>, i: nat)
    requires i < |samples| && forall j, k :: 0 <= j < k < |samples| ==> samples[j].id < samples[k].id
    ensures ContentOf(samples, samples[i].id) == samples[i].content
  {
    if i < |samples| - 1 {
      ContentAt(samples[..|samples| - 1], i);
    }
  }

  lemma {:induction false} FindAnchor(samples: seq<Sample>, id: Id) returns (i: nat)
    requires IsAnchor(samples, id)
    ensures i < |samples| && samples[i].id == id && samples[i].half == Anchor
  {
    if samples[|samples| - 1].id == id && samples[|samples| - 1].half == Anchor {
      i := |samples| - 1;
    } else {
      i := FindAnchor(samples[..|samples| - 1], id);
    }
  }

  lemma {:induction false} AnchorAt(samples: seq<Sample>, i: nat)
    requires i < |samples| && samples[i].half == Anchor
    ensures IsAnchor(samples, samples[i].id)
  {
    if i < |samples| - 1 {
      AnchorAt(samples[..|samples| - 1], i);
    }
  }

  /** Every exemplar read back from the stored labels is the text of a stored anchor. */
  lemma {:induction false} ExemplarIsAnchor(s: Store, rows: seq<GradeRow>, k: nat) returns (i: nat)
    requires DistinctSamples(s) && k < |AnchorsFor(s.samples, rows)|
    ensures i < |s.samples| && s.samples[i].half == Anchor && s.samples[i].content == AnchorsFor(s.samples, rows)[k].content
  {
    var front, last := AnchorsFor(s.samples, rows[..|rows| - 1]), rows[|rows| - 1];
    if k < |front| {
      i := ExemplarIsAnchor(s, rows[..|rows| - 1], k);
    } else {
      i := FindAnchor(s.samples, last.sampleId);
      ContentAt(s.samples, i);
    }
  }

  lemma {:induction false} Selected(exemplars: seq<Exemplar>, criterion: string, k: nat) returns (j: nat)
    requires k < |Select(exemplars, criterion)|
    ensures j < |exemplars| && exemplars[j] == Select(exemplars, criterion)[k]
  {
    var n := |exemplars| - 1;
    if k < |Select(exemplars[..n], criterion)| {
      j := Selected(exemplars[..n], criterion, k);
    } else {
      j := n;
    }
  }

  lemma Prompted(exemplars: seq<Exemplar>, criterion: string, k: nat) returns (j: nat)
    requires k < |Prompt(exemplars, criterion)|
    ensures j < |exemplars| && exemplars[j] == Prompt(exemplars, criterion)[k]
  {
    var selected := Select(exemplars, criterion);
    assert Prompt(exemplars, criterion)[k] in multiset(selected);
    var m :| 0 <= m < |selected| && selected[m] == Prompt(exemplars, criterion)[k];
    j := Selected(exemplars, criterion, m);
  }

  lemma NoHeldOutIn(s: Store, criterion: string, k: nat, i: nat)
    requires DistinctSamples(s)
    requires k < |Prompt(AnchorsFor(s.samples, s.grades), criterion)| && i < |s.samples| && s.samples[i].half == Holdout
    ensures Prompt(AnchorsFor(s.samples, s.grades), criterion)[k].content != s.samples[i].content
  {
    hide Prompt, AnchorsFor;
    var j := Prompted(AnchorsFor(s.samples, s.grades), criterion, k);
    var a := ExemplarIsAnchor(s, s.grades, j);
  }

  /** After any history, no exemplar a run's jury is built with, for any criterion, has the text of a
      sample stored as held out. */
  lemma NoHeldOutExemplar(history: seq<Step>, criterion: string, k: nat, i: nat)
    requires Fair(history)
    requires var s := Run(history).store;
             k < |Prompt(AnchorsFor(s.samples, s.grades), criterion)| && i < |s.samples| && s.samples[i].half == Holdout
    ensures var s := Run(history).store;
            Prompt(AnchorsFor(s.samples, s.grades), criterion)[k].content != s.samples[i].content
  {
    hide Run, Fair, LabelsCurrent, GradesStored, Prompt, AnchorsFor;
    RunKeeps(history);
    NoHeldOutIn(Run(history).store, criterion, k, i);
  }

  lemma {:induction false} ExemplarFrom(anchors: seq<Id>, samples: seq<Sample>, rows: seq<GradeRow>, k: nat) returns (a: nat)
    requires k < |ExemplarsFrom(anchors, samples, rows)|
    ensures a < |anchors| && ExemplarsFrom(anchors, samples, rows)[k].content == ContentOf(samples, anchors[a])
  {
    var n := |anchors| - 1;
    var front := ExemplarsFrom(anchors[..n], samples, rows);
    if k < |front| {
      a := ExemplarFrom(anchors[..n], samples, rows, k);
    } else {
      a := n;
      OneContent(rows, anchors[n], ContentOf(samples, anchors[n]), k - |front|);
    }
  }

  lemma {:induction false} OneContent(rows: seq<GradeRow>, id: Id, content: string, k: nat)
    requires k < |ExemplarsOf(rows, id, content)|
    ensures ExemplarsOf(rows, id, content)[k].content == content
  {
    if k < |ExemplarsOf(rows[..|rows| - 1], id, content)| {
      OneContent(rows[..|rows| - 1], id, content, k);
    }
  }

  lemma InvDistinct(w: World)
    requires Inv(w)
    ensures DistinctSamples(w.store)
  {
    hide DistinctSamples, GradesStored, LabelsCurrent;
  }

  // ---------------------------------------------------------------------------------------
  // A promoted sample is the record it names
  // ---------------------------------------------------------------------------------------

  /** What a sample says of a run sample is what is on record of it. */
  ghost predicate OnRecord(s: Sample, records: string -> RunSample) {
    s.about.source.Some? ==> Draft(s.content, s.about) == Promotion(s.about.source.value, records(s.about.source.value))
  }

  ghost predicate AllOnRecord(samples: seq<Sample>, records: string -> RunSample) {
    forall i :: 0 <= i < |samples| ==> OnRecord(samples[i], records)
  }

  /** Each look-up found what is on record, or nothing. */
  ghost predicate Truthful(entries: seq<Entry>, records: string -> RunSample) {
    forall i :: 0 <= i < |entries| && entries[i].Promoted? && entries[i].record.Some? ==>
      entries[i].record.value == records(entries[i].source)
  }

  ghost predicate TruthfulStep(step: Step, records: string -> RunSample) {
    step.Add? ==> Truthful(step.entries, records)
  }

  lemma {:induction false} PendingOnRecord(samples: seq<Sample>, entries: seq<Entry>, records: string -> RunSample, nextId: Id)
    requires Truthful(entries, records) && Pending(samples, entries).Ok?
    ensures AllOnRecord(NewSamples(Pending(samples, entries).value, nextId), records)
  {
    hide HasContent, Drafted;
    if entries != [] {
      PendingOnRecord(samples, entries[..|entries| - 1], records, nextId);
    }
  }

  lemma StepOnRecord(w: World, step: Step, records: string -> RunSample)
    requires AllOnRecord(w.store.samples, records) && TruthfulStep(step, records)
    ensures AllOnRecord(After(w, step).store.samples, records)
  {
    hide Pending, OutcomeOf, AllAcceptable, UpsertAll;
    match step
    case Add(entries) =>
      if Pending(w.store.samples, entries).Ok? {
        PendingOnRecord(w.store.samples, entries, records, w.store.nextId);
      }
    case Grade(_, _) =>
    case Calibrate(_, _, _) =>
  }

  /** After any history, whatever callers sent: every stored sample that names a run sample has that sample's text, the
      model of its run and its task, provided that what is on record of a run sample never changes. */
  lemma {:induction false} PromotedIsOnRecord(history: seq<Step>, records: string -> RunSample)
    requires forall i :: 0 <= i < |history| ==> TruthfulStep(history[i], records)
    ensures AllOnRecord(Run(history).store.samples, records)
  {
    if history != [] {
      var n := |history| - 1;
      PromotedIsOnRecord(history[..n], records);
      hide After, AllOnRecord, TruthfulStep;
      StepOnRecord(Run(history[..n]), history[n], records);
    }
  }

  /** Samples with different ids have different texts. */
  lemma DistinctContents(s: Store, id: Id, other: Id)
    requires DistinctSamples(s) && HasSample(s.samples, id) && HasSample(s.samples, other) && id != other
    ensures ContentOf(s.samples, id) != ContentOf(s.samples, other)
  {
    var x := FindSample(s.samples, id);
    var y := FindSample(s.samples, other);
    ContentAt(s.samples, x);
    ContentAt(s.samples, y);
    hide ContentOf, HasSample;
    assert s.samples[if x < y then x else y].content != s.samples[if x < y then y else x].content;
  }

  /** What a calibration hands out comes from its two halves. */
  lemma HandedOut(s: Store, judged: seq<string>, policy: Policy, shuffle: Shuffle)
    requires OutcomeOf(s, judged, policy, shuffle).Ran?
    ensures var outcome := OutcomeOf(s, judged, policy, shuffle);
            && outcome.exemplars == ExemplarsFrom(outcome.split.anchors, s.samples, s.grades)
            && outcome.judgedTexts == ContentsOf(s.samples, outcome.split.holdout)
  {
    hide PartitionOf, GradedSamples, Flat, ExemplarsFrom;
  }

  lemma NoLeakIn(s: Store, judged: seq<string>, policy: Policy, shuffle: Shuffle, criterion: string, k: nat, t: nat)
    requires DistinctSamples(s) && Permutes(shuffle)
    requires var outcome := OutcomeOf(s, judged, policy, shuffle);
             outcome.Ran? && k < |Prompt(outcome.exemplars, criterion)| && t < |outcome.judgedTexts|
    ensures var outcome := OutcomeOf(s, judged, policy, shuffle);
            Prompt(outcome.exemplars, criterion)[k].content != outcome.judgedTexts[t]
  {
    hide *;
    var outcome := OutcomeOf(s, judged, policy, shuffle);
    HandedOut(s, judged, policy, shuffle);
    var j := Prompted(outcome.exemplars, criterion, k);
    var a := ExemplarFrom(outcome.split.anchors, s.samples, s.grades, j);
    var shown, held := outcome.split.anchors[a], outcome.split.holdout[t];
    HalvesExactly(s, judged, policy, shuffle, shown);
    HalvesExactly(s, judged, policy, shuffle, held);
    assert shown in outcome.split.anchors && held in outcome.split.holdout;
    DistinctContents(s, shown, held);
  }

  /** In every calibration of every history, no exemplar handed to the jury has the text of a sample
      the jury is then measured on. */
  lemma NoLeakWhileCalibrating(history: seq<Step>, judged: seq<string>, policy: Policy, shuffle: Shuffle,
                               criterion: string, k: nat, t: nat)
    requires Fair(history) && Permutes(shuffle)
    requires var outcome := OutcomeOf(Run(history).store, judged, policy, shuffle);
             outcome.Ran? && k < |Prompt(outcome.exemplars, criterion)| && t < |outcome.judgedTexts|
    ensures var outcome := OutcomeOf(Run(history).store, judged, policy, shuffle);
            Prompt(outcome.exemplars, criterion)[k].content != outcome.judgedTexts[t]
  {
    hide *;
    RunKeeps(history);
    InvDistinct(Run(history));
    NoLeakIn(Run(history).store, judged, policy, shuffle, criterion, k, t);
  }

  /** Both halves of every calibration hold every grade given to two or more samples. */
  lemma CalibrationSpans(history: seq<Step>, judged: seq<string>, policy: Policy, shuffle: Shuffle, i: nat, j: nat)
    returns (held: Id, shown: Id)
    requires Fair(history) && Permutes(shuffle)
    requires var s := Run(history).store;
             var graded := GradedSamples(s.samples, s.grades);
             OutcomeOf(s, judged, policy, shuffle).Ran? && i < j < |graded| && graded[i].grade == graded[j].grade
    ensures var s := Run(history).store;
            var graded, split := GradedSamples(s.samples, s.grades), OutcomeOf(s, judged, policy, shuffle).split;
            && held in split.holdout && Graded(held, graded[i].grade) in graded
            && shown in split.anchors && Graded(shown, graded[i].grade) in graded
  {
    RunKeeps(history);
    var s := Run(history).store;
    hide Run, Fair, Flat, ExemplarsFrom, GradedSamples;
    var graded := GradedSamples(s.samples, s.grades);
    GradedDistinct(s);
    held, shown := PartitionSpans(graded, policy.holdoutFraction, shuffle, i, j);
  }

  // ---------------------------------------------------------------------------------------
  // The jury that is measured is shown what the jury of a run is shown
  // ---------------------------------------------------------------------------------------

  function RowExemplar(samples: seq<Sample>, r: GradeRow): Exemplar {
    Exemplar(r.criterion, ContentOf(samples, r.sampleId), r.grade, r.note)
  }

  lemma OneMoreOf(rows: seq<GradeRow>, r: GradeRow, id: Id, text: string)
    ensures ExemplarsOf(rows + [r], id, text) ==
            ExemplarsOf(rows, id, text) + if r.sampleId == id then [Exemplar(r.criterion, text, r.grade, r.note)] else []
  {
    assert (rows + [r])[..|rows|] == rows;
  }

  lemma AnchorLast(anchors: seq<Id>, samples: seq<Sample>, rows: seq<GradeRow>)
    requires anchors != []
    ensures var n := |anchors| - 1;
            ExemplarsFrom(anchors, samples, rows) ==
            ExemplarsFrom(anchors[..n], samples, rows) + ExemplarsOf(rows, anchors[n], ContentOf(samples, anchors[n]))
  {
    hide ExemplarsOf, ContentOf;
  }

  lemma CountLast(anchors: seq<Id>, id: Id)
    requires anchors != []
    ensures var n := |anchors| - 1;
            multiset(anchors)[id] == multiset(anchors[..n])[id] + if anchors[n] == id then 1 else 0
  {
    assert anchors == anchors[..|anchors| - 1] + [anchors[|anchors| - 1]];
  }

  lemma NothingShown(samples: seq<Sample>, rows: seq<GradeRow>)
    ensures ExemplarsFrom([], samples, rows) == []
  {
  }

  lemma {:induction false} OneMoreRow(anchors: seq<Id>, samples: seq<Sample>, rows: seq<GradeRow>, r: GradeRow, x: Exemplar)
    ensures multiset(ExemplarsFrom(anchors, samples, rows + [r]))[x]
         == multiset(ExemplarsFrom(anchors, samples, rows))[x]
            + if x == RowExemplar(samples, r) then multiset(anchors)[r.sampleId] else 0
  {
    hide ExemplarsFrom, ExemplarsOf, ContentOf;
    if anchors == [] {
      NothingShown(samples, rows);
      NothingShown(samples, rows + [r]);
    } else {
      var n := |anchors| - 1;
      OneMoreRow(anchors[..n], samples, rows, r, x);
      AnchorLast(anchors, samples, rows);
      AnchorLast(anchors, samples, rows + [r]);
      OneMoreOf(rows, r, anchors[n], ContentOf(samples, anchors[n]));
      CountLast(anchors, r.sampleId);
    }
  }

  lemma {:induction false} NoRows(anchors: seq<Id>, samples: seq<Sample>)
    ensures ExemplarsFrom(anchors, samples, []) == []
  {
    if anchors != [] {
      NoRows(anchors[..|anchors| - 1], samples);
    }
  }

  lemma {:induction false} SameExemplars(anchors: seq<Id>, samples: seq<Sample>, labelled: seq<Sample>,
      rows: seq<GradeRow>, x: Exemplar)
    requires forall i :: 0 <= i < |rows| ==>
               multiset(anchors)[rows[i].sampleId] == (if IsAnchor(labelled, rows[i].sampleId) then 1 else 0)
               && ContentOf(labelled, rows[i].sampleId) == ContentOf(samples, rows[i].sampleId)
    ensures multiset(ExemplarsFrom(anchors, samples, rows))[x] == multiset(AnchorsFor(labelled, rows))[x]
  {
    hide ExemplarsFrom;
    if rows == [] {
      NoRows(anchors, samples);
    } else {
      var n := |rows| - 1;
      SameExemplars(anchors, samples, labelled, rows[..n], x);
      OneMoreRow(anchors, samples, rows[..n], rows[n], x);
      assert rows == rows[..n] + [rows[n]];
    }
  }

  lemma {:induction false} SelectCount(exemplars: seq<Exemplar>, criterion: string, x: Exemplar)
    ensures multiset(Select(exemplars, criterion))[x] == if x.criterion == criterion then multiset(exemplars)[x] else 0
  {
    if exemplars != [] {
      var n := |exemplars| - 1;
      SelectCount(exemplars[..n], criterion, x);
      assert exemplars == exemplars[..n] + [exemplars[n]];
    }
  }

  lemma SameJury(w: World, judged: seq<string>, policy: Policy, shuffle: Shuffle)
    requires Inv(w) && Permutes(shuffle) && OutcomeOf(w.store, judged, policy, shuffle).Ran?
    ensures var s' := AfterCalibrate(w.store, judged, policy, shuffle);
            multiset(OutcomeOf(w.store, judged, policy, shuffle).exemplars) == multiset(AnchorsFor(s'.samples, s'.grades))
  {
    hide GradedSamples, Flat, PartitionOf, Inv, ExemplarsFrom, AnchorsFor, IsAnchor, ContentOf;
    var s, split := w.store, OutcomeOf(w.store, judged, policy, shuffle).split;
    var labelled := Relabelled(s.samples, split);
    assert OutcomeOf(s, judged, policy, shuffle).exemplars == ExemplarsFrom(split.anchors, s.samples, s.grades);
    hide OutcomeOf, Relabelled;
    forall i | 0 <= i < |s.grades|
      ensures multiset(split.anchors)[s.grades[i].sampleId] == (if IsAnchor(labelled, s.grades[i].sampleId) then 1 else 0)
              && ContentOf(labelled, s.grades[i].sampleId) == ContentOf(s.samples, s.grades[i].sampleId)
    {
      RowLabelled(w, judged, policy, shuffle, i);
    }
    forall x: Exemplar
      ensures multiset(ExemplarsFrom(split.anchors, s.samples, s.grades))[x] == multiset(AnchorsFor(labelled, s.grades))[x]
    {
      SameExemplars(split.anchors, s.samples, labelled, s.grades, x);
    }
  }

  lemma RowLabelled(w: World, judged: seq<string>, policy: Policy, shuffle: Shuffle, i: nat)
    requires Inv(w) && Permutes(shuffle) && OutcomeOf(w.store, judged, policy, shuffle).Ran? && i < |w.store.grades|
    ensures var id, split := w.store.grades[i].sampleId, OutcomeOf(w.store, judged, policy, shuffle).split;
            var labelled := Relabelled(w.store.samples, split);
            && multiset(split.anchors)[id] == (if IsAnchor(labelled, id) then 1 else 0)
            && ContentOf(labelled, id) == ContentOf(w.store.samples, id)
  {
    CalibrateKeeps(w, judged, policy, shuffle);
    var s, id, split := w.store, w.store.grades[i].sampleId, OutcomeOf(w.store, judged, policy, shuffle).split;
    RelabelledContent(s.samples, split, id);
    AnchorOnce(s, judged, policy, shuffle, id);
    RowStored(s.samples, s.grades, i);
    SameSamples(s.samples, Relabelled(s.samples, split), id);
    hide OutcomeOf, GradesStored, DistinctSamples;
    StoredAnchor(World(s.(samples := Relabelled(s.samples, split)), Some(split)), id);
  }

  /** After a calibration, a run reads back, criterion by criterion, exactly the exemplars the
      calibration's own jury was shown. */
  lemma RunsSeeTheSameExemplars(history: seq<Step>, judged: seq<string>, policy: Policy, shuffle: Shuffle, criterion: string)
    requires Fair(history) && Permutes(shuffle)
    requires OutcomeOf(Run(history).store, judged, policy, shuffle).Ran?
    ensures var shown := OutcomeOf(Run(history).store, judged, policy, shuffle).exemplars;
            var s' := AfterCalibrate(Run(history).store, judged, policy, shuffle);
            multiset(Prompt(shown, criterion)) == multiset(Prompt(AnchorsFor(s'.samples, s'.grades), criterion))
  {
    hide Run, Fair, OutcomeOf, AfterCalibrate, Inv, AnchorsFor;
    RunKeeps(history);
    SameJury(Run(history), judged, policy, shuffle);
    var shown := OutcomeOf(Run(history).store, judged, policy, shuffle).exemplars;
    var s' := AfterCalibrate(Run(history).store, judged, policy, shuffle);
    SelectSame(shown, AnchorsFor(s'.samples, s'.grades), criterion);
  }

  lemma SelectSame(a: seq<Exemplar>, b: seq<Exemplar>, criterion: string)
    requires multiset(a) == multiset(b)
    ensures multiset(Prompt(a, criterion)) == multiset(Prompt(b, criterion))
  {
    forall x: Exemplar ensures multiset(Select(a, criterion))[x] == multiset(Select(b, criterion))[x] {
      SelectCount(a, criterion, x);
      SelectCount(b, criterion, x);
    }
  }

  lemma {:induction false} RelabelledContent(samples: seq<Sample>, split: Split, id: Id)
    ensures ContentOf(Relabelled(samples, split), id) == ContentOf(samples, id)
  {
    if samples != [] {
      var n := |samples| - 1;
      RelabelledContent(samples[..n], split, id);
      assert Relabelled(samples, split)[..n] == Relabelled(samples[..n], split);
    }
  }

  lemma AnchorOnce(s: Store, judged: seq<string>, policy: Policy, shuffle: Shuffle, id: Id)
    requires DistinctSamples(s) && Permutes(shuffle) && OutcomeOf(s, judged, policy, shuffle).Ran?
    ensures multiset(OutcomeOf(s, judged, policy, shuffle).split.anchors)[id]
         == if id in OutcomeOf(s, judged, policy, shuffle).split.anchors then 1 else 0
  {
    hide GradedSamples, Flat, ExemplarsFrom;
    var graded, split := GradedSamples(s.samples, s.grades), OutcomeOf(s, judged, policy, shuffle).split;
    GradedDistinct(s);
    PartitionCovers(graded, policy.holdoutFraction, shuffle);
    AtMostOnce(graded, id);
    assert multiset(split.anchors)[id] + multiset(split.holdout)[id] == multiset(Ids(graded))[id];
    assert id in split.anchors <==> multiset(split.anchors)[id] > 0;
  }

  lemma {:induction false} RowStored(samples: seq<Sample>, rows: seq<GradeRow>, i: nat)
    requires GradesStored(samples, rows) && i < |rows|
    ensures HasSample(samples, rows[i].sampleId)
  {
    if i < |rows| - 1 {
      RowStored(samples, rows[..|rows| - 1], i);
    }
  }

  lemma StoredAnchor(w: World, id: Id)
    requires Inv(w) && w.last.Some? && HasSample(w.store.samples, id)
    ensures IsAnchor(w.store.samples, id) <==> id in w.last.value.anchors
  {
    var i := FindSample(w.store.samples, id);
    if w.store.samples[i].half == Anchor {
      AnchorAt(w.store.samples, i);
    }
    if IsAnchor(w.store.samples, id) {
      var j := FindAnchor(w.store.samples, id);
    }
  }
}
