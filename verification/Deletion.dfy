/** The confirmed deletion of src/freeweight/services/database_admin.py: eleven ordered DELETE statements,
    each re-evaluating its subqueries, over tables whose foreign keys cascade. */
module Deletion {
  import opened Results

  type Id = nat

  /** The key and the parent links of a stored row; a table's rows leave the links it lacks empty. */
  datatype Row = Row(key: Id, run: Option<Id>, runTest: Option<Id>, sample: Option<Id>, score: Option<Id>,
                     telemetry: Option<Id>)

  datatype Column = Key | RunLink | RunTestLink | SampleLink | ScoreLink | TelemetryLink

  function Value(r: Row, c: Column): Option<Id> {
    match c
    case Key => Some(r.key)
    case RunLink => r.run
    case RunTestLink => r.runTest
    case SampleLink => r.sample
    case ScoreLink => r.score
    case TelemetryLink => r.telemetry
  }

  predicate Hits(r: Row, c: Column, ids: set<Id>) { Value(r, c).Some? && Value(r, c).value in ids }

  // ---------------------------------------------------------------------------------------
  // WHERE column IN (ids), on one table
  // ---------------------------------------------------------------------------------------

  /** What DELETE leaves. */
  function Drop(rows: seq<Row>, c: Column, ids: set<Id>): seq<Row> {
    if rows == [] then []
    else
      var front, last := Drop(rows[..|rows| - 1], c, ids), rows[|rows| - 1];
      if Hits(last, c, ids) then front else front + [last]
  }

  /** SELECT id. */
  function Pick(rows: seq<Row>, c: Column, ids: set<Id>): set<Id> {
    if rows == [] then {}
    else
      var front, last := Pick(rows[..|rows| - 1], c, ids), rows[|rows| - 1];
      if Hits(last, c, ids) then front + {last.key} else front
  }

  /** SELECT count(*), and the rowcount of DELETE. */
  function Count(rows: seq<Row>, c: Column, ids: set<Id>): nat {
    if rows == [] then 0
    else
      var front, last := Count(rows[..|rows| - 1], c, ids), rows[|rows| - 1];
      if Hits(last, c, ids) then front + 1 else front
  }

  function Keys(rows: seq<Row>): set<Id> {
    if rows == [] then {} else Keys(rows[..|rows| - 1]) + {rows[|rows| - 1].key}
  }

  /** ON DELETE SET NULL of a sample link. */
  function Unlink(rows: seq<Row>, ids: set<Id>): seq<Row> {
    if rows == [] then []
    else
      var last := rows[|rows| - 1];
      Unlink(rows[..|rows| - 1], ids) + [if Hits(last, SampleLink, ids) then last.(sample := None) else last]
  }

  predicate Clear(rows: seq<Row>, c: Column, ids: set<Id>) {
    forall i :: 0 <= i < |rows| ==> !Hits(rows[i], c, ids)
  }

  /** No row is caught by both conditions. */
  predicate Apart(rows: seq<Row>, c: Column, ids: set<Id>, d: Column, others: set<Id>) {
    forall i :: 0 <= i < |rows| ==> !(Hits(rows[i], c, ids) && Hits(rows[i], d, others))
  }

  lemma {:induction false} DropCommutes(rows: seq<Row>, c: Column, ids: set<Id>, d: Column, others: set<Id>)
    ensures Drop(Drop(rows, c, ids), d, others) == Drop(Drop(rows, d, others), c, ids)
  {
    if rows != [] {
      DropCommutes(rows[..|rows| - 1], c, ids, d, others);
      DropSnoc(Drop(rows[..|rows| - 1], c, ids), rows[|rows| - 1], d, others);
      DropSnoc(Drop(rows[..|rows| - 1], d, others), rows[|rows| - 1], c, ids);
    }
  }

  lemma DropSnoc(rows: seq<Row>, r: Row, c: Column, ids: set<Id>)
    ensures Drop(rows + [r], c, ids) == if Hits(r, c, ids) then Drop(rows, c, ids) else Drop(rows, c, ids) + [r]
  {
    assert (rows + [r])[..|rows|] == rows;
  }

  lemma ClearSnoc(rows: seq<Row>, r: Row, c: Column, ids: set<Id>)
    ensures Clear(rows + [r], c, ids) <==> Clear(rows, c, ids) && !Hits(r, c, ids)
  {
    hide Hits;
    var all := rows + [r];
    assert all[|rows|] == r && forall i :: 0 <= i < |rows| ==> all[i] == rows[i];
  }

  lemma SameFront(a: seq<Row>, b: seq<Row>, r: Row)
    ensures a + [r] == b + [r] <==> a == b
  {
    if a + [r] == b + [r] {
      assert a == (a + [r])[..|a|] && b == (b + [r])[..|b|];
    }
  }

  lemma {:induction false} DropLeaves(rows: seq<Row>, c: Column, ids: set<Id>)
    ensures Clear(Drop(rows, c, ids), c, ids)
    ensures forall r :: r in Drop(rows, c, ids) <==> r in rows && !Hits(r, c, ids)
    ensures |Drop(rows, c, ids)| + Count(rows, c, ids) == |rows|
    ensures Drop(rows, c, ids) == rows <==> Clear(rows, c, ids)
  {
    hide Hits;
    if rows != [] {
      var front, last := rows[..|rows| - 1], rows[|rows| - 1];
      DropLeaves(front, c, ids);
      assert rows == front + [last];
      ClearSnoc(front, last, c, ids);
      ClearSnoc(Drop(front, c, ids), last, c, ids);
      SameFront(Drop(front, c, ids), front, last);
      hide Clear;
    }
  }

  lemma {:induction false} NothingHit(rows: seq<Row>, c: Column, ids: set<Id>)
    requires Clear(rows, c, ids)
    ensures Drop(rows, c, ids) == rows && Pick(rows, c, ids) == {} && Count(rows, c, ids) == 0
  {
    if rows != [] {
      NothingHit(rows[..|rows| - 1], c, ids);
    }
  }

  /** Dropping twice is dropping once. */
  lemma DropTwice(rows: seq<Row>, c: Column, ids: set<Id>)
    ensures Drop(Drop(rows, c, ids), c, ids) == Drop(rows, c, ids)
    ensures Pick(Drop(rows, c, ids), c, ids) == {}
  {
    DropLeaves(rows, c, ids);
    NothingHit(Drop(rows, c, ids), c, ids);
  }

  lemma {:induction false} DropNone(rows: seq<Row>, c: Column)
    ensures Drop(rows, c, {}) == rows
  {
    NothingHit(rows, c, {});
  }

  lemma CountSnoc(rows: seq<Row>, r: Row, c: Column, ids: set<Id>)
    ensures Count(rows + [r], c, ids) == Count(rows, c, ids) + if Hits(r, c, ids) then 1 else 0
  {
    assert (rows + [r])[..|rows|] == rows;
  }

  lemma ApartSnoc(rows: seq<Row>, r: Row, c: Column, ids: set<Id>, d: Column, others: set<Id>)
    ensures Apart(rows + [r], c, ids, d, others) <==>
            Apart(rows, c, ids, d, others) && !(Hits(r, c, ids) && Hits(r, d, others))
  {
    hide Hits;
    var all := rows + [r];
    assert all[|rows|] == r && forall i :: 0 <= i < |rows| ==> all[i] == rows[i];
  }

  /** A count taken after another DELETE falls short exactly when some row met both conditions. */
  lemma {:induction false} CountAfterDrop(rows: seq<Row>, c: Column, ids: set<Id>, d: Column, others: set<Id>)
    ensures Count(Drop(rows, c, ids), d, others) <= Count(rows, d, others)
    ensures Count(Drop(rows, c, ids), d, others) == Count(rows, d, others) <==> Apart(rows, c, ids, d, others)
  {
    if rows != [] {
      var front, last := rows[..|rows| - 1], rows[|rows| - 1];
      CountAfterDrop(front, c, ids, d, others);
      assert rows == front + [last];
      ApartSnoc(front, last, c, ids, d, others);
      CountSnoc(front, last, d, others);
      CountSnoc(Drop(front, c, ids), last, d, others);
      DropSnoc(front, last, c, ids);
      hide Count, Drop, Hits, Apart;
    }
  }

  /** A key not selected for deletion is still there afterwards. */
  lemma {:induction false} KeySurvives(rows: seq<Row>, c: Column, ids: set<Id>)
    ensures Keys(rows) <= Keys(Drop(rows, c, ids)) + Pick(rows, c, ids)
  {
    if rows != [] {
      var front, last := rows[..|rows| - 1], rows[|rows| - 1];
      KeySurvives(front, c, ids);
      var kept := Drop(front, c, ids);
      assert (kept + [last])[..|kept|] == kept;
    }
  }

  lemma {:induction false} PickOfKeys(rows: seq<Row>, ids: set<Id>)
    ensures Pick(rows, Key, ids) == Keys(rows) * ids
  {
    if rows != [] {
      PickOfKeys(rows[..|rows| - 1], ids);
    }
  }

  lemma {:induction false} UnlinkKeeps(rows: seq<Row>, ids: set<Id>)
    ensures |Unlink(rows, ids)| == |rows|
    ensures forall i :: 0 <= i < |rows| ==>
      Unlink(rows, ids)[i] == if Hits(rows[i], SampleLink, ids) then rows[i].(sample := None) else rows[i]
    ensures Clear(rows, SampleLink, ids) ==> Unlink(rows, ids) == rows
  {
    if rows != [] {
      UnlinkKeeps(rows[..|rows| - 1], ids);
    }
  }

  // ---------------------------------------------------------------------------------------
  // The schema
  // ---------------------------------------------------------------------------------------

  datatype Tables = Tables(
    judgeVerdicts: seq<Row>, criterionScores: seq<Row>, toolCalls: seq<Row>, samples: seq<Row>,
    metricValues: seq<Row>, telemetryGpuSamples: seq<Row>, telemetrySamples: seq<Row>, artifacts: seq<Row>,
    runEvents: seq<Row>, runTests: seq<Row>, runs: seq<Row>, calibrationSamples: seq<Row>)

  /** Every link of a table's rows names a stored parent; an empty link only where it is nullable. */
  predicate Linked(rows: seq<Row>, c: Column, parents: set<Id>, nullable: bool) {
    forall i :: 0 <= i < |rows| ==>
      match Value(rows[i], c)
      case Some(id) => id in parents
      case None => nullable
  }

  predicate Intact(db: Tables) {
    && Linked(db.judgeVerdicts, ScoreLink, Keys(db.criterionScores), false)
    && Linked(db.criterionScores, SampleLink, Keys(db.samples), false)
    && Linked(db.toolCalls, SampleLink, Keys(db.samples), false)
    && Linked(db.samples, RunTestLink, Keys(db.runTests), false)
    && Linked(db.metricValues, RunLink, Keys(db.runs), false)
    && Linked(db.metricValues, RunTestLink, Keys(db.runTests), true)
    && Linked(db.metricValues, SampleLink, Keys(db.samples), true)
    && Linked(db.telemetryGpuSamples, RunLink, Keys(db.runs), false)
    && Linked(db.telemetryGpuSamples, TelemetryLink, Keys(db.telemetrySamples), false)
    && Linked(db.telemetrySamples, RunLink, Keys(db.runs), false)
    && Linked(db.artifacts, RunLink, Keys(db.runs), false)
    && Linked(db.artifacts, RunTestLink, Keys(db.runTests), true)
    && Linked(db.artifacts, SampleLink, Keys(db.samples), true)
    && Linked(db.runEvents, RunLink, Keys(db.runs), false)
    && Linked(db.runTests, RunLink, Keys(db.runs), false)
    && Linked(db.calibrationSamples, SampleLink, Keys(db.samples), true)
  }

  // DELETE with the declared cascades, child tables first

  function DeleteScores(db: Tables, c: Column, ids: set<Id>): Tables {
    var gone := Pick(db.criterionScores, c, ids);
    db.(criterionScores := Drop(db.criterionScores, c, ids), judgeVerdicts := Drop(db.judgeVerdicts, ScoreLink, gone))
  }

  function DeleteSamples(db: Tables, c: Column, ids: set<Id>): Tables {
    var gone := Pick(db.samples, c, ids);
    DeleteScores(
      db.(samples := Drop(db.samples, c, ids),
          toolCalls := Drop(db.toolCalls, SampleLink, gone),
          metricValues := Drop(db.metricValues, SampleLink, gone),
          artifacts := Drop(db.artifacts, SampleLink, gone),
          calibrationSamples := Unlink(db.calibrationSamples, gone)),
      SampleLink, gone)
  }

  function DeleteTelemetry(db: Tables, c: Column, ids: set<Id>): Tables {
    var gone := Pick(db.telemetrySamples, c, ids);
    db.(telemetrySamples := Drop(db.telemetrySamples, c, ids),
        telemetryGpuSamples := Drop(db.telemetryGpuSamples, TelemetryLink, gone))
  }

  function DeleteRunTests(db: Tables, c: Column, ids: set<Id>): Tables {
    var gone := Pick(db.runTests, c, ids);
    DeleteSamples(
      db.(runTests := Drop(db.runTests, c, ids),
          metricValues := Drop(db.metricValues, RunTestLink, gone),
          artifacts := Drop(db.artifacts, RunTestLink, gone)),
      RunTestLink, gone)
  }

  function DeleteRuns(db: Tables, c: Column, ids: set<Id>): Tables {
    var gone := Pick(db.runs, c, ids);
    DeleteRunTests(
      DeleteTelemetry(
        db.(runs := Drop(db.runs, c, ids),
            metricValues := Drop(db.metricValues, RunLink, gone),
            telemetryGpuSamples := Drop(db.telemetryGpuSamples, RunLink, gone),
            artifacts := Drop(db.artifacts, RunLink, gone),
            runEvents := Drop(db.runEvents, RunLink, gone)),
        RunLink, gone),
      RunLink, gone)
  }

  // ---------------------------------------------------------------------------------------
  // The eleven statements
  // ---------------------------------------------------------------------------------------

  datatype Table =
    | JudgeVerdicts | CriterionScores | ToolCalls | Samples | MetricValues | TelemetryGpuSamples
    | TelemetrySamples | Artifacts | RunEvents | RunTests | Runs

  const PLAN: seq<Table> := [
    JudgeVerdicts, CriterionScores, ToolCalls, Samples, MetricValues, TelemetryGpuSamples,
    TelemetrySamples, Artifacts, RunEvents, RunTests, Runs]

  // the subqueries, evaluated against whatever is stored at the time

  function RunTestsOf(db: Tables, ids: set<Id>): set<Id> { Pick(db.runTests, RunLink, ids) }

  function SamplesOf(db: Tables, ids: set<Id>): set<Id> { Pick(db.samples, RunTestLink, RunTestsOf(db, ids)) }

  function ScoresOf(db: Tables, ids: set<Id>): set<Id> { Pick(db.criterionScores, SampleLink, SamplesOf(db, ids)) }

  /** How many rows of a table the statement's condition selects now. */
  function Selected(db: Tables, ids: set<Id>, t: Table): nat {
    match t
    case JudgeVerdicts => Count(db.judgeVerdicts, ScoreLink, ScoresOf(db, ids))
    case CriterionScores => Count(db.criterionScores, SampleLink, SamplesOf(db, ids))
    case ToolCalls => Count(db.toolCalls, SampleLink, SamplesOf(db, ids))
    case Samples => Count(db.samples, RunTestLink, RunTestsOf(db, ids))
    case MetricValues => Count(db.metricValues, RunLink, ids)
    case TelemetryGpuSamples => Count(db.telemetryGpuSamples, RunLink, ids)
    case TelemetrySamples => Count(db.telemetrySamples, RunLink, ids)
    case Artifacts => Count(db.artifacts, RunLink, ids)
    case RunEvents => Count(db.runEvents, RunLink, ids)
    case RunTests => Count(db.runTests, RunLink, ids)
    case Runs => Count(db.runs, Key, ids)
  }

  function Execute(db: Tables, ids: set<Id>, t: Table): Tables {
    match t
    case JudgeVerdicts => db.(judgeVerdicts := Drop(db.judgeVerdicts, ScoreLink, ScoresOf(db, ids)))
    case CriterionScores => DeleteScores(db, SampleLink, SamplesOf(db, ids))
    case ToolCalls => db.(toolCalls := Drop(db.toolCalls, SampleLink, SamplesOf(db, ids)))
    case Samples => DeleteSamples(db, RunTestLink, RunTestsOf(db, ids))
    case MetricValues => db.(metricValues := Drop(db.metricValues, RunLink, ids))
    case TelemetryGpuSamples => db.(telemetryGpuSamples := Drop(db.telemetryGpuSamples, RunLink, ids))
    case TelemetrySamples => DeleteTelemetry(db, RunLink, ids)
    case Artifacts => db.(artifacts := Drop(db.artifacts, RunLink, ids))
    case RunEvents => db.(runEvents := Drop(db.runEvents, RunLink, ids))
    case RunTests => DeleteRunTests(db, RunLink, ids)
    case Runs => DeleteRuns(db, Key, ids)
  }

  // ---------------------------------------------------------------------------------------
  // Where the tables stand after the first n statements
  // ---------------------------------------------------------------------------------------

  function DropIf(done: bool, rows: seq<Row>, c: Column, ids: set<Id>): seq<Row> {
    if done then Drop(rows, c, ids) else rows
  }

  /** After n statements, in terms of what the subqueries selected at the start. */
  function Stage(db: Tables, ids: set<Id>, n: nat): Tables {
    var tests, samples, scores := RunTestsOf(db, ids), SamplesOf(db, ids), ScoresOf(db, ids);
    var readings := Pick(db.telemetrySamples, RunLink, ids);
    Tables(
      DropIf(n >= 1, db.judgeVerdicts, ScoreLink, scores),
      DropIf(n >= 2, db.criterionScores, SampleLink, samples),
      DropIf(n >= 3, db.toolCalls, SampleLink, samples),
      DropIf(n >= 4, db.samples, RunTestLink, tests),
      DropIf(n >= 10, DropIf(n >= 5, DropIf(n >= 4, db.metricValues, SampleLink, samples), RunLink, ids), RunTestLink, tests),
      DropIf(n >= 7, DropIf(n >= 6, db.telemetryGpuSamples, RunLink, ids), TelemetryLink, readings),
      DropIf(n >= 7, db.telemetrySamples, RunLink, ids),
      DropIf(n >= 10, DropIf(n >= 8, DropIf(n >= 4, db.artifacts, SampleLink, samples), RunLink, ids), RunTestLink, tests),
      DropIf(n >= 9, db.runEvents, RunLink, ids),
      DropIf(n >= 10, db.runTests, RunLink, ids),
      DropIf(n >= 11, db.runs, Key, ids),
      if n >= 4 then Unlink(db.calibrationSamples, samples) else db.calibrationSamples)
  }

  /** Each statement's re-evaluated subqueries still select what they selected at the start. */
  lemma SubqueriesStand(db: Tables, ids: set<Id>, n: nat)
    ensures n < 10 ==> RunTestsOf(Stage(db, ids, n), ids) == RunTestsOf(db, ids)
    ensures n < 4 ==> SamplesOf(Stage(db, ids, n), ids) == SamplesOf(db, ids)
    ensures n < 2 ==> ScoresOf(Stage(db, ids, n), ids) == ScoresOf(db, ids)
  {
  }

  lemma ScoresStep(db: Tables, ids: set<Id>)
    ensures Execute(Stage(db, ids, 1), ids, CriterionScores) == Stage(db, ids, 2)
  {
    SubqueriesStand(db, ids, 1);
    hide Drop, Pick, Unlink;
    DropTwice(db.judgeVerdicts, ScoreLink, ScoresOf(db, ids));
  }

  /** The statements whose tables nothing else hangs off, or only telemetry. */
  lemma PlainStep(db: Tables, ids: set<Id>, n: nat)
    requires n < |PLAN| && !PLAN[n].CriterionScores? && !PLAN[n].Samples? && !PLAN[n].RunTests? && !PLAN[n].Runs?
    ensures Execute(Stage(db, ids, n), ids, PLAN[n]) == Stage(db, ids, n + 1)
  {
    SubqueriesStand(db, ids, n);
    hide Drop, Pick, Unlink;
  }

  lemma StageStep(db: Tables, ids: set<Id>, n: nat)
    requires n < |PLAN| && ids <= Keys(db.runs)
    ensures Execute(Stage(db, ids, n), ids, PLAN[n]) == Stage(db, ids, n + 1)
  {
    SubqueriesStand(db, ids, n);
    hide Drop, Pick, Unlink, Stage, Execute;
    match PLAN[n]
    case CriterionScores => ScoresStep(db, ids);
    case Samples => SamplesStep(db, ids);
    case RunTests => RunTestsStep(db, ids);
    case Runs => RunsStep(db, ids);
    case _ => PlainStep(db, ids, n);
  }

  /** By now the children the cascade of samples would take are gone, except measurements and artifacts. */
  lemma SamplesStep(db: Tables, ids: set<Id>)
    ensures Execute(Stage(db, ids, 3), ids, Samples) == Stage(db, ids, 4)
  {
    SubqueriesStand(db, ids, 3);
    hide Drop, Pick, Unlink;
    var samples := SamplesOf(db, ids);
    DropTwice(db.toolCalls, SampleLink, samples);
    DropTwice(db.criterionScores, SampleLink, samples);
    DropNone(Drop(db.judgeVerdicts, ScoreLink, ScoresOf(db, ids)), ScoreLink);
  }

  lemma EmptyScores(db: Tables)
    ensures DeleteScores(db, SampleLink, {}) == db
  {
    NothingHit(db.criterionScores, SampleLink, {});
    DropNone(db.judgeVerdicts, ScoreLink);
    hide Drop, Pick;
  }

  /** A cascade from run tests whose samples are already gone reaches only their direct children. */
  lemma EmptySamples(db: Tables, tests: set<Id>)
    requires Clear(db.samples, RunTestLink, tests)
    ensures DeleteSamples(db, RunTestLink, tests) == db
  {
    NothingHit(db.samples, RunTestLink, tests);
    DropNone(db.toolCalls, SampleLink);
    DropNone(db.metricValues, SampleLink);
    DropNone(db.artifacts, SampleLink);
    UnlinkKeeps(db.calibrationSamples, {});
    hide Drop, Pick, Clear, Unlink, DeleteScores;
    EmptyScores(db);
  }

  lemma RunTestsStep(db: Tables, ids: set<Id>)
    ensures Execute(Stage(db, ids, 9), ids, RunTests) == Stage(db, ids, 10)
  {
    SubqueriesStand(db, ids, 9);
    hide Drop, Pick, Unlink;
    var tests := RunTestsOf(db, ids);
    DropLeaves(db.samples, RunTestLink, tests);
    var s := Stage(db, ids, 9);
    EmptySamples(s.(runTests := Drop(s.runTests, RunLink, ids),
                    metricValues := Drop(s.metricValues, RunTestLink, tests),
                    artifacts := Drop(s.artifacts, RunTestLink, tests)), tests);
  }

  /** A cascade from runs none of whose telemetry is left takes none. */
  lemma EmptyTelemetry(db: Tables, ids: set<Id>)
    requires Clear(db.telemetrySamples, RunLink, ids)
    ensures DeleteTelemetry(db, RunLink, ids) == db
  {
    NothingHit(db.telemetrySamples, RunLink, ids);
    DropNone(db.telemetryGpuSamples, TelemetryLink);
    hide Drop, Pick, Clear;
  }

  lemma EmptyRunTests(db: Tables, ids: set<Id>)
    requires Clear(db.runTests, RunLink, ids)
    ensures DeleteRunTests(db, RunLink, ids) == db
  {
    NothingHit(db.runTests, RunLink, ids);
    DropNone(db.metricValues, RunTestLink);
    DropNone(db.artifacts, RunTestLink);
    assert Clear(db.samples, RunTestLink, {});
    hide Drop, Pick, Clear, DeleteSamples;
    EmptySamples(db, {});
  }

  /** Nothing of the selected runs is left but the runs themselves. */
  predicate OnlyRunsLeft(db: Tables, ids: set<Id>) {
    && Clear(db.metricValues, RunLink, ids) && Clear(db.telemetryGpuSamples, RunLink, ids)
    && Clear(db.artifacts, RunLink, ids) && Clear(db.runEvents, RunLink, ids)
    && Clear(db.telemetrySamples, RunLink, ids) && Clear(db.runTests, RunLink, ids)
  }

  lemma CascadeTakesTheRuns(db: Tables, ids: set<Id>)
    requires OnlyRunsLeft(db, ids) && Pick(db.runs, Key, ids) == ids
    ensures DeleteRuns(db, Key, ids) == db.(runs := Drop(db.runs, Key, ids))
  {
    NothingHit(db.metricValues, RunLink, ids);
    NothingHit(db.telemetryGpuSamples, RunLink, ids);
    NothingHit(db.artifacts, RunLink, ids);
    NothingHit(db.runEvents, RunLink, ids);
    hide Drop, Pick, Clear, DeleteTelemetry, DeleteRunTests;
    var left := db.(runs := Drop(db.runs, Key, ids));
    EmptyTelemetry(left, ids);
    EmptyRunTests(left, ids);
  }

  lemma GpuGone(rows: seq<Row>, ids: set<Id>, readings: set<Id>)
    ensures Clear(Drop(Drop(rows, RunLink, ids), TelemetryLink, readings), RunLink, ids)
  {
    DropCommutes(rows, RunLink, ids, TelemetryLink, readings);
    DropLeaves(Drop(rows, TelemetryLink, readings), RunLink, ids);
    hide Drop, Clear;
  }

  lemma TripleGone(rows: seq<Row>, samples: set<Id>, ids: set<Id>, tests: set<Id>)
    ensures Clear(Drop(Drop(Drop(rows, SampleLink, samples), RunLink, ids), RunTestLink, tests), RunLink, ids)
  {
    hide Drop, Clear;
    Already(rows, samples, ids, tests);
    DropLeaves(Drop(Drop(Drop(rows, SampleLink, samples), RunLink, ids), RunTestLink, tests), RunLink, ids);
  }

  lemma BeforeTheRuns(db: Tables, ids: set<Id>)
    ensures OnlyRunsLeft(Stage(db, ids, 10), ids)
    ensures Stage(db, ids, 10).runs == db.runs
    ensures Stage(db, ids, 11) == Stage(db, ids, 10).(runs := Drop(db.runs, Key, ids))
  {
    var tests, samples, readings := RunTestsOf(db, ids), SamplesOf(db, ids), Pick(db.telemetrySamples, RunLink, ids);
    TripleGone(db.metricValues, samples, ids, tests);
    TripleGone(db.artifacts, samples, ids, tests);
    GpuGone(db.telemetryGpuSamples, ids, readings);
    DropLeaves(db.runEvents, RunLink, ids);
    DropLeaves(db.telemetrySamples, RunLink, ids);
    DropLeaves(db.runTests, RunLink, ids);
    hide Drop, Pick, Clear, Unlink, RunTestsOf, SamplesOf, ScoresOf;
  }

  lemma RunsStep(db: Tables, ids: set<Id>)
    requires ids <= Keys(db.runs)
    ensures Execute(Stage(db, ids, 10), ids, Runs) == Stage(db, ids, 11)
  {
    hide Stage, OnlyRunsLeft, DeleteRuns, Pick, Keys, Drop;
    PickOfKeys(db.runs, ids);
    assert Keys(db.runs) * ids == ids;
    BeforeTheRuns(db, ids);
    CascadeTakesTheRuns(Stage(db, ids, 10), ids);
  }

  lemma Already(rows: seq<Row>, samples: set<Id>, ids: set<Id>, tests: set<Id>)
    ensures var left := Drop(Drop(Drop(rows, SampleLink, samples), RunLink, ids), RunTestLink, tests);
            Drop(left, RunLink, ids) == left
  {
    hide Drop;
    var left := Drop(rows, SampleLink, samples);
    DropCommutes(left, RunLink, ids, RunTestLink, tests);
    DropTwice(Drop(left, RunTestLink, tests), RunLink, ids);
  }

  // ---------------------------------------------------------------------------------------
  // What a deletion leaves
  // ---------------------------------------------------------------------------------------

  /** All eleven statements. */
  function Deleted(db: Tables, ids: set<Id>): Tables { Stage(db, ids, |PLAN|) }

  /** The statements leave exactly what the schema's own cascade from runs would have left. */
  lemma SameAsCascade(db: Tables, ids: set<Id>)
    requires ids <= Keys(db.runs)
    ensures Deleted(db, ids) == DeleteRuns(db, Key, ids)
  {
    PickOfKeys(db.runs, ids);
    assert Keys(db.runs) * ids == ids;
    hide Drop, Pick, Unlink, Keys;
    var tests, samples := RunTestsOf(db, ids), SamplesOf(db, ids);
    Reordered(db.metricValues, samples, ids, tests);
    Reordered(db.artifacts, samples, ids, tests);
  }

  lemma Reordered(rows: seq<Row>, samples: set<Id>, ids: set<Id>, tests: set<Id>)
    ensures Drop(Drop(Drop(rows, SampleLink, samples), RunLink, ids), RunTestLink, tests)
         == Drop(Drop(Drop(rows, RunLink, ids), RunTestLink, tests), SampleLink, samples)
  {
    hide Drop;
    DropCommutes(rows, SampleLink, samples, RunLink, ids);
    DropCommutes(Drop(rows, RunLink, ids), SampleLink, samples, RunTestLink, tests);
  }

  lemma {:induction false} StillLinked(rows: seq<Row>, c: Column, parents: seq<Row>, nullable: bool,
                                       d: Column, ids: set<Id>)
    requires Linked(rows, c, Keys(parents), nullable)
    ensures Linked(Drop(rows, c, Pick(parents, d, ids)), c, Keys(Drop(parents, d, ids)), nullable)
  {
    var gone := Pick(parents, d, ids);
    KeySurvives(parents, d, ids);
    DropLeaves(rows, c, gone);
    var left := Drop(rows, c, gone);
    forall i | 0 <= i < |left|
      ensures match Value(left[i], c) case Some(id) => id in Keys(Drop(parents, d, ids)) case None => nullable
    {
      assert left[i] in left;
      var k :| 0 <= k < |rows| && rows[k] == left[i];
      assert !Hits(left[i], c, gone);
    }
    hide Drop, Pick, Keys;
  }

  /** Fewer rows, same parents. */
  lemma FewerLinked(rows: seq<Row>, c: Column, parents: set<Id>, nullable: bool, d: Column, ids: set<Id>)
    requires Linked(rows, c, parents, nullable)
    ensures Linked(Drop(rows, d, ids), c, parents, nullable)
  {
    DropLeaves(rows, d, ids);
    var left := Drop(rows, d, ids);
    forall i | 0 <= i < |left|
      ensures match Value(left[i], c) case Some(id) => id in parents case None => nullable
    {
      assert left[i] in left;
      var k :| 0 <= k < |rows| && rows[k] == left[i];
    }
  }

  lemma UnlinkedLinked(rows: seq<Row>, parents: seq<Row>, d: Column, ids: set<Id>)
    requires Linked(rows, SampleLink, Keys(parents), true)
    ensures Linked(Unlink(rows, Pick(parents, d, ids)), SampleLink, Keys(Drop(parents, d, ids)), true)
  {
    UnlinkKeeps(rows, Pick(parents, d, ids));
    KeySurvives(parents, d, ids);
    hide Drop, Pick, Keys, Unlink;
  }

  /** A measurement or artifact keeps all three of its links. */
  lemma TripleLinked(db: Tables, ids: set<Id>, rows: seq<Row>)
    requires Linked(rows, RunLink, Keys(db.runs), false) && Linked(rows, RunTestLink, Keys(db.runTests), true)
    requires Linked(rows, SampleLink, Keys(db.samples), true)
    requires ids <= Keys(db.runs)
    ensures var tests, samples := RunTestsOf(db, ids), SamplesOf(db, ids);
            var left := Drop(Drop(Drop(rows, SampleLink, samples), RunLink, ids), RunTestLink, tests);
            && Linked(left, RunLink, Keys(Drop(db.runs, Key, ids)), false)
            && Linked(left, RunTestLink, Keys(Drop(db.runTests, RunLink, ids)), true)
            && Linked(left, SampleLink, Keys(Drop(db.samples, RunTestLink, tests)), true)
  {
    PickOfKeys(db.runs, ids);
    assert Keys(db.runs) * ids == ids;
    hide Drop, Pick, Keys, Linked;
    var tests, samples := RunTestsOf(db, ids), SamplesOf(db, ids);
    var once := Drop(rows, SampleLink, samples);
    var twice := Drop(once, RunLink, ids);
    StillLinked(rows, SampleLink, db.samples, true, RunTestLink, tests);
    FewerLinked(once, SampleLink, Keys(Drop(db.samples, RunTestLink, tests)), true, RunLink, ids);
    FewerLinked(twice, SampleLink, Keys(Drop(db.samples, RunTestLink, tests)), true, RunTestLink, tests);
    FewerLinked(rows, RunLink, Keys(db.runs), false, SampleLink, samples);
    StillLinked(once, RunLink, db.runs, false, Key, ids);
    FewerLinked(twice, RunLink, Keys(Drop(db.runs, Key, ids)), false, RunTestLink, tests);
    FewerLinked(rows, RunTestLink, Keys(db.runTests), true, SampleLink, samples);
    FewerLinked(once, RunTestLink, Keys(db.runTests), true, RunLink, ids);
    StillLinked(twice, RunTestLink, db.runTests, true, RunLink, ids);
  }

  /** No survivor has lost a parent. */
  lemma NoOrphan(db: Tables, ids: set<Id>)
    requires Intact(db) && ids <= Keys(db.runs)
    ensures Intact(Deleted(db, ids))
  {
    PickOfKeys(db.runs, ids);
    assert Keys(db.runs) * ids == ids;
    hide Drop, Pick, Keys, Linked, Unlink;
    var tests, samples := RunTestsOf(db, ids), SamplesOf(db, ids);
    StillLinked(db.judgeVerdicts, ScoreLink, db.criterionScores, false, SampleLink, samples);
    StillLinked(db.criterionScores, SampleLink, db.samples, false, RunTestLink, tests);
    StillLinked(db.toolCalls, SampleLink, db.samples, false, RunTestLink, tests);
    StillLinked(db.samples, RunTestLink, db.runTests, false, RunLink, ids);
    TripleLinked(db, ids, db.metricValues);
    TripleLinked(db, ids, db.artifacts);
    GpuLinked(db, ids);
    StillLinked(db.telemetrySamples, RunLink, db.runs, false, Key, ids);
    StillLinked(db.runEvents, RunLink, db.runs, false, Key, ids);
    StillLinked(db.runTests, RunLink, db.runs, false, Key, ids);
    UnlinkedLinked(db.calibrationSamples, db.samples, RunTestLink, tests);
  }

  lemma GpuLinked(db: Tables, ids: set<Id>)
    requires Intact(db) && ids <= Keys(db.runs)
    ensures Linked(Deleted(db, ids).telemetryGpuSamples, RunLink, Keys(Deleted(db, ids).runs), false)
    ensures Linked(Deleted(db, ids).telemetryGpuSamples, TelemetryLink, Keys(Deleted(db, ids).telemetrySamples), false)
  {
    PickOfKeys(db.runs, ids);
    assert Keys(db.runs) * ids == ids;
    hide Drop, Pick, Keys, Linked, Unlink;
    var gpu := db.telemetryGpuSamples;
    var readings := Pick(db.telemetrySamples, RunLink, ids);
    StillLinked(gpu, RunLink, db.runs, false, Key, ids);
    FewerLinked(Drop(gpu, RunLink, ids), RunLink, Keys(Drop(db.runs, Key, ids)), false, TelemetryLink, readings);
    FewerLinked(gpu, TelemetryLink, Keys(db.telemetrySamples), false, RunLink, ids);
    StillLinked(Drop(gpu, RunLink, ids), TelemetryLink, db.telemetrySamples, false, RunLink, ids);
  }

  /** The rows a run owns: by its own run column where the table has one, up the parents where not. */
  function Unowned(db: Tables, ids: set<Id>): Tables {
    Tables(
      Drop(db.judgeVerdicts, ScoreLink, ScoresOf(db, ids)),
      Drop(db.criterionScores, SampleLink, SamplesOf(db, ids)),
      Drop(db.toolCalls, SampleLink, SamplesOf(db, ids)),
      Drop(db.samples, RunTestLink, RunTestsOf(db, ids)),
      Drop(db.metricValues, RunLink, ids),
      Drop(db.telemetryGpuSamples, RunLink, ids),
      Drop(db.telemetrySamples, RunLink, ids),
      Drop(db.artifacts, RunLink, ids),
      Drop(db.runEvents, RunLink, ids),
      Drop(db.runTests, RunLink, ids),
      Drop(db.runs, Key, ids),
      Unlink(db.calibrationSamples, SamplesOf(db, ids)))
  }

  /** No row of another run hangs off a sample, test or reading of the selected ones. */
  predicate NoCrossLinks(db: Tables, ids: set<Id>) {
    && Clear(Drop(db.metricValues, RunLink, ids), SampleLink, SamplesOf(db, ids))
    && Clear(Drop(db.metricValues, RunLink, ids), RunTestLink, RunTestsOf(db, ids))
    && Clear(Drop(db.artifacts, RunLink, ids), SampleLink, SamplesOf(db, ids))
    && Clear(Drop(db.artifacts, RunLink, ids), RunTestLink, RunTestsOf(db, ids))
    && Clear(Drop(db.telemetryGpuSamples, RunLink, ids), TelemetryLink, Pick(db.telemetrySamples, RunLink, ids))
  }

  lemma TwoDrops(rows: seq<Row>, c: Column, ids: set<Id>, d: Column, others: set<Id>)
    ensures Drop(Drop(rows, c, ids), d, others) == rows <==> Clear(rows, c, ids) && Clear(rows, d, others)
  {
    DropLeaves(rows, c, ids);
    DropLeaves(Drop(rows, c, ids), d, others);
    DropShrinks(rows, c, ids);
    DropShrinks(Drop(rows, c, ids), d, others);
    hide Drop, Clear;
  }

  lemma {:induction false} DropShrinks(rows: seq<Row>, c: Column, ids: set<Id>)
    ensures |Drop(rows, c, ids)| <= |rows|
    ensures Drop(rows, c, ids) == rows <==> |Drop(rows, c, ids)| == |rows|
  {
    if rows != [] {
      DropShrinks(rows[..|rows| - 1], c, ids);
    }
  }

  /** Survivors are exactly the rows the selected runs do not own, if and only if no other run's row hangs
      off them: the cascade takes what does. */
  lemma SurvivorsExactly(db: Tables, ids: set<Id>)
    ensures Deleted(db, ids) == Unowned(db, ids) <==> NoCrossLinks(db, ids)
  {
    hide Drop, Pick, Unlink, Clear, Count;
    var tests, samples := RunTestsOf(db, ids), SamplesOf(db, ids);
    Reordered(db.metricValues, samples, ids, tests);
    Reordered(db.artifacts, samples, ids, tests);
    TwoDrops(Drop(db.metricValues, RunLink, ids), RunTestLink, tests, SampleLink, samples);
    TwoDrops(Drop(db.artifacts, RunLink, ids), RunTestLink, tests, SampleLink, samples);
    DropLeaves(Drop(db.telemetryGpuSamples, RunLink, ids), TelemetryLink, Pick(db.telemetrySamples, RunLink, ids));
  }

  function RowsOf(db: Tables, t: Table): seq<Row> {
    match t
    case JudgeVerdicts => db.judgeVerdicts
    case CriterionScores => db.criterionScores
    case ToolCalls => db.toolCalls
    case Samples => db.samples
    case MetricValues => db.metricValues
    case TelemetryGpuSamples => db.telemetryGpuSamples
    case TelemetrySamples => db.telemetrySamples
    case Artifacts => db.artifacts
    case RunEvents => db.runEvents
    case RunTests => db.runTests
    case Runs => db.runs
  }

  lemma UnownedCount(db: Tables, ids: set<Id>, t: Table)
    ensures |RowsOf(db, t)| == |RowsOf(Unowned(db, ids), t)| + Selected(db, ids, t)
  {
    match t
    case JudgeVerdicts => DropLeaves(db.judgeVerdicts, ScoreLink, ScoresOf(db, ids));
    case CriterionScores => DropLeaves(db.criterionScores, SampleLink, SamplesOf(db, ids));
    case ToolCalls => DropLeaves(db.toolCalls, SampleLink, SamplesOf(db, ids));
    case Samples => DropLeaves(db.samples, RunTestLink, RunTestsOf(db, ids));
    case Runs => DropLeaves(db.runs, Key, ids);
    case _ => DropLeaves(RowsOf(db, t), RunLink, ids);
  }

  /** Every table loses exactly its previewed count, if and only if no other run's row hangs off the
      selected runs. */
  lemma RemovesWhatWasPreviewed(db: Tables, ids: set<Id>)
    ensures (forall t :: |RowsOf(db, t)| == |RowsOf(Deleted(db, ids), t)| + Selected(db, ids, t))
       <==> NoCrossLinks(db, ids)
  {
    SurvivorsExactly(db, ids);
    forall t ensures |RowsOf(db, t)| == |RowsOf(Unowned(db, ids), t)| + Selected(db, ids, t) {
      UnownedCount(db, ids, t);
    }
    if forall t :: |RowsOf(db, t)| == |RowsOf(Deleted(db, ids), t)| + Selected(db, ids, t) {
      assert forall t :: |RowsOf(Deleted(db, ids), t)| == |RowsOf(Unowned(db, ids), t)|;
      SameSizes(db, ids);
    }
  }

  lemma SameSizes(db: Tables, ids: set<Id>)
    requires forall t :: |RowsOf(Deleted(db, ids), t)| == |RowsOf(Unowned(db, ids), t)|
    ensures Deleted(db, ids) == Unowned(db, ids)
  {
    hide Drop, Pick, Unlink;
    var tests, samples := RunTestsOf(db, ids), SamplesOf(db, ids);
    Reordered(db.metricValues, samples, ids, tests);
    Reordered(db.artifacts, samples, ids, tests);
    SameSize(Drop(db.metricValues, RunLink, ids), RunTestLink, tests, SampleLink, samples);
    SameSize(Drop(db.artifacts, RunLink, ids), RunTestLink, tests, SampleLink, samples);
    DropShrinks(Drop(db.telemetryGpuSamples, RunLink, ids), TelemetryLink, Pick(db.telemetrySamples, RunLink, ids));
    assert |RowsOf(Deleted(db, ids), MetricValues)| == |RowsOf(Unowned(db, ids), MetricValues)|;
    assert |RowsOf(Deleted(db, ids), Artifacts)| == |RowsOf(Unowned(db, ids), Artifacts)|;
    assert |RowsOf(Deleted(db, ids), TelemetryGpuSamples)| == |RowsOf(Unowned(db, ids), TelemetryGpuSamples)|;
  }

  lemma SameSize(rows: seq<Row>, c: Column, ids: set<Id>, d: Column, others: set<Id>)
    ensures |Drop(Drop(rows, c, ids), d, others)| == |rows| <==> Drop(Drop(rows, c, ids), d, others) == rows
  {
    DropShrinks(rows, c, ids);
    DropShrinks(Drop(rows, c, ids), d, others);
    hide Drop;
  }

  // ---------------------------------------------------------------------------------------
  // Previewed and reported counts
  // ---------------------------------------------------------------------------------------

  /** Counts by table; a table with none is omitted. */
  type Counts = map<Table, nat>

  function Previewed(db: Tables, ids: set<Id>): Counts {
    map t: Table | Selected(db, ids, t) > 0 :: Selected(db, ids, t)
  }

  function Position(t: Table): (n: nat)
    ensures n < |PLAN| && PLAN[n] == t
  {
    match t
    case JudgeVerdicts => 0
    case CriterionScores => 1
    case ToolCalls => 2
    case Samples => 3
    case MetricValues => 4
    case TelemetryGpuSamples => 5
    case TelemetrySamples => 6
    case Artifacts => 7
    case RunEvents => 8
    case RunTests => 9
    case Runs => 10
  }

  /** The rowcount of a table's own statement, when its turn comes. */
  function RowCount(db: Tables, ids: set<Id>, t: Table): nat { Selected(Stage(db, ids, Position(t)), ids, t) }

  function Reported(db: Tables, ids: set<Id>): Counts {
    map t: Table | RowCount(db, ids, t) > 0 :: RowCount(db, ids, t)
  }

  lemma RowCountAtTurn(db: Tables, ids: set<Id>, t: Table)
    ensures RowCount(db, ids, t) ==
      match t
      case MetricValues => Count(Drop(db.metricValues, SampleLink, SamplesOf(db, ids)), RunLink, ids)
      case Artifacts => Count(Drop(db.artifacts, SampleLink, SamplesOf(db, ids)), RunLink, ids)
      case _ => Selected(db, ids, t)
  {
    SubqueriesStand(db, ids, Position(t));
    hide Drop, Pick, Count;
  }

  /** None of the selected runs' measurements and artifacts is filed under a sample. */
  predicate NoneUnderSamples(db: Tables, ids: set<Id>) {
    && Apart(db.metricValues, SampleLink, SamplesOf(db, ids), RunLink, ids)
    && Apart(db.artifacts, SampleLink, SamplesOf(db, ids), RunLink, ids)
  }

  /** A table whose rows are counted before anything of them is gone, or of which nothing is filed under a sample. */
  predicate CountedWhole(db: Tables, ids: set<Id>, t: Table) {
    && (t == MetricValues ==> Apart(db.metricValues, SampleLink, SamplesOf(db, ids), RunLink, ids))
    && (t == Artifacts ==> Apart(db.artifacts, SampleLink, SamplesOf(db, ids), RunLink, ids))
  }

  lemma RowCountExactly(db: Tables, ids: set<Id>, t: Table)
    ensures RowCount(db, ids, t) <= Selected(db, ids, t)
    ensures RowCount(db, ids, t) == Selected(db, ids, t) <==> CountedWhole(db, ids, t)
  {
    hide RowCount, Drop, Count, Apart, SamplesOf;
    RowCountAtTurn(db, ids, t);
    CountAfterDrop(db.metricValues, SampleLink, SamplesOf(db, ids), RunLink, ids);
    CountAfterDrop(db.artifacts, SampleLink, SamplesOf(db, ids), RunLink, ids);
  }

  lemma AllCountedWhole(db: Tables, ids: set<Id>)
    ensures NoneUnderSamples(db, ids) <==> forall t :: CountedWhole(db, ids, t)
  {
    hide Apart, SamplesOf;
    assert CountedWhole(db, ids, MetricValues) && CountedWhole(db, ids, Artifacts) ==> NoneUnderSamples(db, ids);
  }

  /** The reported counts equal the previewed ones if and only if no measurement or artifact of the selected
      runs is filed under one of their samples: deleting the samples first cascades those away unreported. */
  lemma ReportMatchesPreview(db: Tables, ids: set<Id>)
    ensures Reported(db, ids) == Previewed(db, ids) <==> NoneUnderSamples(db, ids)
    ensures forall t :: RowCount(db, ids, t) <= Selected(db, ids, t)
  {
    hide RowCount, Selected, CountedWhole, NoneUnderSamples;
    forall t ensures RowCount(db, ids, t) <= Selected(db, ids, t)
             ensures RowCount(db, ids, t) == Selected(db, ids, t) <==> CountedWhole(db, ids, t)
    {
      RowCountExactly(db, ids, t);
    }
    AllCountedWhole(db, ids);
    var reported, previewed := Reported(db, ids), Previewed(db, ids);
    if reported == previewed {
      forall t ensures RowCount(db, ids, t) == Selected(db, ids, t) {
        assert t in reported <==> t in previewed;
        if t in reported {
          assert reported[t] == previewed[t];
        }
      }
    }
  }

  lemma DropOne(r: Row, c: Column, ids: set<Id>)
    ensures Drop([r], c, ids) == if Hits(r, c, ids) then [] else [r]
  {
    hide Hits;
    DropSnoc([], r, c, ids);
    assert [] + [r] == [r];
  }

  lemma PickOne(r: Row, c: Column, ids: set<Id>)
    ensures Pick([r], c, ids) == if Hits(r, c, ids) then {r.key} else {}
  {
    hide Hits;
    assert [r][..0] == [];
    assert Pick([r][..0], c, ids) == {};
  }

  lemma CountOne(r: Row, c: Column, ids: set<Id>)
    ensures Count([r], c, ids) == if Hits(r, c, ids) then 1 else 0
  {
    hide Hits;
    CountSnoc([], r, c, ids);
    assert [] + [r] == [r];
  }

  lemma KeyOfOne(r: Row)
    ensures Keys([r]) == {r.key}
  {
    assert [r][..0] == [];
    assert Keys([r][..0]) == {};
  }

  lemma NoRows(c: Column, ids: set<Id>)
    ensures Drop([], c, ids) == [] && Count([], c, ids) == 0
  {
  }

  lemma LinkOfOne(r: Row, c: Column, parents: set<Id>, nullable: bool)
    requires match Value(r, c) case Some(id) => id in parents case None => nullable
    ensures Linked([r], c, parents, nullable)
  {
  }

  lemma NoLinks(c: Column, parents: set<Id>, nullable: bool)
    ensures Linked([], c, parents, nullable) && Clear([], c, parents)
  {
  }

  /** One run with one measurement of its one sample. */
  function OneMeasured(): Tables {
    Tables([], [], [], [Row(3, None, Some(2), None, None, None)],
           [Row(4, Some(1), Some(2), Some(3), None, None)], [], [], [], [],
           [Row(2, Some(1), None, None, None, None)], [Row(1, None, None, None, None, None)], [])
  }

  lemma OneMeasuredIntact()
    ensures Intact(OneMeasured())
  {
    var db := OneMeasured();
    hide Linked, Keys;
    KeyOfOne(db.runs[0]);
    KeyOfOne(db.runTests[0]);
    KeyOfOne(db.samples[0]);
    LinkOfOne(db.runTests[0], RunLink, {1}, false);
    LinkOfOne(db.samples[0], RunTestLink, {2}, false);
    LinkOfOne(db.metricValues[0], RunLink, {1}, false);
    LinkOfOne(db.metricValues[0], RunTestLink, {2}, true);
    LinkOfOne(db.metricValues[0], SampleLink, {3}, true);
    forall c: Column, parents: set<Id>, nullable: bool ensures Linked([], c, parents, nullable) {
      NoLinks(c, parents, nullable);
    }
  }

  lemma OneMeasuredUncrossed()
    ensures NoCrossLinks(OneMeasured(), {1})
  {
    var db := OneMeasured();
    hide Drop, Clear, Pick;
    DropOne(db.metricValues[0], RunLink, {1});
    NoRows(RunLink, {1});
    forall c: Column, ids: set<Id> ensures Clear([], c, ids) {
      NoLinks(c, ids, false);
    }
  }

  lemma OneMeasuredSubqueries()
    ensures RunTestsOf(OneMeasured(), {1}) == {2} && SamplesOf(OneMeasured(), {1}) == {3}
  {
    var db := OneMeasured();
    hide Pick;
    PickOne(db.runTests[0], RunLink, {1});
    PickOne(db.samples[0], RunTestLink, {2});
  }

  lemma MeasurementCounts()
    ensures Selected(OneMeasured(), {1}, MetricValues) == 1 && RowCount(OneMeasured(), {1}, MetricValues) == 0
  {
    var db := OneMeasured();
    hide Drop, Count, RunTestsOf, SamplesOf, RowCount;
    OneMeasuredSubqueries();
    CountOne(db.metricValues[0], RunLink, {1});
    DropOne(db.metricValues[0], SampleLink, {3});
    NoRows(RunLink, {1});
    RowCountAtTurn(db, {1}, MetricValues);
  }

  lemma MeasurementDeleted()
    ensures Deleted(OneMeasured(), {1}).metricValues == []
  {
    var db := OneMeasured();
    hide Drop, RunTestsOf, SamplesOf, ScoresOf, Pick, Unlink;
    OneMeasuredSubqueries();
    DropOne(db.metricValues[0], SampleLink, {3});
    NoRows(RunLink, {1});
    NoRows(RunTestLink, {2});
  }

  /** Its measurement is previewed as one row, removed, and not reported. */
  lemma SampleMeasurementUnreported()
    ensures var db := OneMeasured();
            && Intact(db) && NoCrossLinks(db, {1})
            && MetricValues in Previewed(db, {1}) && Previewed(db, {1})[MetricValues] == 1
            && Deleted(db, {1}).metricValues == []
            && MetricValues !in Reported(db, {1})
  {
    hide OneMeasured, Intact, NoCrossLinks, Selected, RowCount, Deleted;
    OneMeasuredIntact();
    OneMeasuredUncrossed();
    MeasurementCounts();
    MeasurementDeleted();
  }

  // ---------------------------------------------------------------------------------------
  // Preview and confirmed deletion
  // ---------------------------------------------------------------------------------------

  datatype Selection = All | OfRun(selector: string) | OfSuite(selector: string) | OfModel(selector: string) | Before(selector: string)

  /** The digest of a selection and its counts, as the pair itself. */
  datatype Token = Token(selection: Selection, counts: Counts)

  datatype Preview = Preview(runIds: set<Id>, removed: Counts, token: Token)

  datatype Outcome = Refused | Done(preview: Preview, deleted: Counts)

  /** The token a preview of these runs carries. */
  function TokenFor(db: Tables, selection: Selection, ids: set<Id>): Token { Token(selection, Previewed(db, ids)) }

  /** A token accepted later, for other runs or another state of the tables, guarantees the same selection and, table
      by table, the same number of selected rows; and nothing more. */
  lemma AcceptedToken(db: Tables, selection: Selection, ids: set<Id>, db': Tables, selection': Selection, ids': set<Id>)
    ensures TokenFor(db', selection', ids') == TokenFor(db, selection, ids) <==>
            selection' == selection && forall t :: Selected(db', ids', t) == Selected(db, ids, t)
  {
    hide Selected;
    var before, after := Previewed(db, ids), Previewed(db', ids');
    if before == after {
      forall t ensures Selected(db', ids', t) == Selected(db, ids, t) {
        assert t in before <==> t in after;
        if t in before {
          assert before[t] == after[t];
        }
      }
    }
  }

  lemma {:induction false} CountGrows(rows: seq<Row>, more: seq<Row>, c: Column, ids: set<Id>)
    ensures Count(rows, c, ids) <= Count(rows + more, c, ids)
  {
    hide Hits;
    if more == [] {
      assert rows + more == rows;
    } else {
      var n := |more| - 1;
      CountGrows(rows, more[..n], c, ids);
      CountSnoc(rows + more[..n], more[n], c, ids);
      assert rows + more == (rows + more[..n]) + [more[n]];
    }
  }

  lemma {:induction false} CountWidens(rows: seq<Row>, c: Column, ids: set<Id>, ids': set<Id>)
    requires ids <= ids'
    ensures Count(rows, c, ids) <= Count(rows, c, ids')
    ensures (exists r :: r in rows && Hits(r, c, ids') && !Hits(r, c, ids)) ==> Count(rows, c, ids) < Count(rows, c, ids')
  {
    if rows != [] {
      var front, last := rows[..|rows| - 1], rows[|rows| - 1];
      CountWidens(front, c, ids, ids');
      assert rows == front + [last];
    }
  }

  lemma {:induction false} RowOfKey(rows: seq<Row>, id: Id) returns (r: Row)
    requires id in Keys(rows)
    ensures r in rows && r.key == id
  {
    var last := rows[|rows| - 1];
    if last.key == id {
      r := last;
    } else {
      r := RowOfKey(rows[..|rows| - 1], id);
      assert rows == rows[..|rows| - 1] + [last];
    }
  }

  /** Where no run is gone, a run that the selection resolves to only now invalidates the token. */
  lemma NewRunInvalidates(db: Tables, selection: Selection, ids: set<Id>, db': Tables, ids': set<Id>, more: seq<Row>)
    requires db'.runs == db.runs + more && ids < ids' && ids' <= Keys(db'.runs)
    ensures TokenFor(db', selection, ids') != TokenFor(db, selection, ids)
  {
    var id :| id in ids' && id !in ids;
    var r := RowOfKey(db'.runs, id);
    assert Hits(r, Key, ids') && !Hits(r, Key, ids);
    CountGrows(db.runs, more, Key, ids);
    CountWidens(db'.runs, Key, ids, ids');
    assert Selected(db, ids, Runs) < Selected(db', ids', Runs);
    hide Selected;
    AcceptedToken(db, selection, ids, db', selection, ids');
  }

  /** The tables with one finished run and nothing of it but the run itself. */
  function OneRun(id: Id): Tables { Tables([], [], [], [], [], [], [], [], [], [], [Row(id, None, None, None, None, None)], []) }

  /** One run replaced by another in between: the token issued for the first is accepted for the second. */
  lemma ReplacedRunKeepsToken(selection: Selection)
    ensures Intact(OneRun(1)) && Intact(OneRun(2))
    ensures TokenFor(OneRun(2), selection, {2}) == TokenFor(OneRun(1), selection, {1})
    ensures Deleted(OneRun(2), {2}).runs == []
  {
    OneRunSelected(1);
    OneRunSelected(2);
    hide Intact, Selected, Deleted, OneRun;
    AcceptedToken(OneRun(1), selection, {1}, OneRun(2), selection, {2});
  }

  lemma OneRunSelected(id: Id)
    ensures Intact(OneRun(id)) && Deleted(OneRun(id), {id}).runs == []
    ensures forall t :: Selected(OneRun(id), {id}, t) == if t == Runs then 1 else 0
  {
    var run := Row(id, None, None, None, None, None);
    CountOne(run, Key, {id});
    DropOne(run, Key, {id});
    hide Drop, Keys, Pick, Unlink;
  }

  class Database {
    var tables: Tables

    constructor (initial: Tables)
      ensures tables == initial
    {
      tables := initial;
    }

    method RemovalCounts(ids: set<Id>) returns (counts: Counts)
      ensures counts == Previewed(tables, ids)
    {
      hide Selected, Position;
      if ids == {} {
        NothingSelected(tables);
        return map[];
      }
      counts := map[];
      var i := 0;
      while i < |PLAN|
        invariant 0 <= i <= |PLAN|
        invariant forall t :: t in counts <==> Position(t) < i && Selected(tables, ids, t) > 0
        invariant forall t :: t in counts ==> counts[t] == Selected(tables, ids, t)
      {
        PositionIs(i);
        var total := Selected(tables, ids, PLAN[i]);
        if total != 0 {
          counts := counts[PLAN[i] := total];
        }
        i := i + 1;
      }
    }

    /** ids are the runs the selection resolves to. */
    method PreviewDeletion(selection: Selection, ids: set<Id>) returns (preview: Preview)
      ensures preview == Preview(ids, Previewed(tables, ids), Token(selection, Previewed(tables, ids)))
    {
      var removed := RemovalCounts(ids);
      preview := Preview(ids, removed, Token(selection, removed));
    }

    /** The statements in order, each counting what it removes itself. */
    method RunPlan(ids: set<Id>) returns (deleted: Counts)
      requires ids <= Keys(tables.runs)
      modifies this
      ensures tables == Deleted(old(tables), ids) && deleted == Reported(old(tables), ids)
    {
      hide *;
      ghost var start := tables;
      StageZero(start, ids);
      NoneCounted(start, ids);
      deleted := map[];
      var i := 0;
      while i < |PLAN|
        invariant 0 <= i <= |PLAN|
        invariant tables == Stage(start, ids, i)
        invariant CountedUpTo(start, ids, deleted, i)
      {
        StageStep(start, ids, i);
        CountAtTurn(start, ids, deleted, i);
        var count := Selected(tables, ids, PLAN[i]);
        tables := Execute(tables, ids, PLAN[i]);
        if count != 0 {
          deleted := deleted[PLAN[i] := count];
        }
        i := i + 1;
      }
      AllCounted(start, ids, deleted);
    }

    /** Nothing happens unless the token was issued for this selection with the counts of now. */
    method DeleteResults(selection: Selection, ids: set<Id>, token: Token) returns (outcome: Outcome)
      requires ids <= Keys(tables.runs)
      modifies this
      ensures outcome.Refused? <==> token != Token(selection, Previewed(old(tables), ids))
      ensures outcome.Refused? ==> tables == old(tables)
      ensures outcome.Done? ==> outcome.preview.removed == token.counts && outcome.preview.runIds == ids
      ensures outcome.Done? && ids == {} ==> tables == old(tables) && outcome.deleted == map[]
      ensures outcome.Done? && ids != {} ==> tables == Deleted(old(tables), ids)
      ensures outcome.Done? && ids != {} ==> outcome.deleted == Reported(old(tables), ids)
    {
      var preview := PreviewDeletion(selection, ids);
      if token != preview.token {
        return Refused;
      }
      if preview.runIds == {} {
        return Done(preview, map[]);
      }
      var deleted := RunPlan(ids);
      outcome := Done(preview, deleted);
    }
  }

  lemma PositionIs(i: nat)
    requires i < |PLAN|
    ensures forall t :: Position(t) == i <==> t == PLAN[i]
  {
  }

  /** The rowcounts of the first n statements, those that removed nothing left out. */
  ghost predicate CountedUpTo(db: Tables, ids: set<Id>, counts: Counts, n: nat) {
    && (forall t :: t in counts <==> Position(t) < n && RowCount(db, ids, t) > 0)
    && (forall t :: t in counts ==> counts[t] == RowCount(db, ids, t))
  }

  lemma RowCountIs(db: Tables, ids: set<Id>, i: nat)
    requires i < |PLAN|
    ensures RowCount(db, ids, PLAN[i]) == Selected(Stage(db, ids, i), ids, PLAN[i])
  {
    PositionIs(i);
    hide Position, Selected, Stage;
  }

  lemma NoneCounted(db: Tables, ids: set<Id>)
    ensures CountedUpTo(db, ids, map[], 0)
  {
    hide RowCount;
  }

  lemma CountAtTurn(db: Tables, ids: set<Id>, counts: Counts, i: nat)
    requires i < |PLAN| && CountedUpTo(db, ids, counts, i)
    ensures var count := Selected(Stage(db, ids, i), ids, PLAN[i]);
            CountedUpTo(db, ids, if count != 0 then counts[PLAN[i] := count] else counts, i + 1)
  {
    hide Position, Selected, Stage, RowCount;
    PositionIs(i);
    RowCountIs(db, ids, i);
  }

  lemma AllCounted(db: Tables, ids: set<Id>, counts: Counts)
    requires CountedUpTo(db, ids, counts, |PLAN|)
    ensures counts == Reported(db, ids) && Stage(db, ids, |PLAN|) == Deleted(db, ids)
  {
    hide RowCount, Stage, Position;
  }

  lemma StageZero(db: Tables, ids: set<Id>)
    ensures Stage(db, ids, 0) == db
  {
  }

  lemma NothingSelected(db: Tables)
    ensures forall t :: Selected(db, {}, t) == 0
  {
    forall t ensures Selected(db, {}, t) == 0 {
      NothingHit(db.runTests, RunLink, {});
      NothingHit(db.samples, RunTestLink, {});
      NothingHit(db.criterionScores, SampleLink, {});
      NothingHit(RowsOf(db, t), ScoreLink, {});
      NothingHit(RowsOf(db, t), SampleLink, {});
      NothingHit(RowsOf(db, t), RunTestLink, {});
      NothingHit(RowsOf(db, t), RunLink, {});
      NothingHit(RowsOf(db, t), Key, {});
    }
  }
}
