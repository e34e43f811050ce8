/** Which rows a deletion removes, counts and reports, read off the rows' own links: src/freeweight/services/database_admin.py. */
module DeletedRows {
  import opened Deletion
  import opened Results
  import opened Sums

  // ---------------------------------------------------------------------------------------
  // What hangs off the selected runs
  // ---------------------------------------------------------------------------------------

  predicate OfRuns(r: Row, ids: set<Id>) { r.run.Some? && r.run.value in ids }

  predicate OfTests(db: Tables, ids: set<Id>, r: Row) {
    r.runTest.Some? &&
    exists j :: 0 <= j < |db.runTests| && db.runTests[j].key == r.runTest.value && OfRuns(db.runTests[j], ids)
  }

  predicate OfSamples(db: Tables, ids: set<Id>, r: Row) {
    r.sample.Some? &&
    exists j :: 0 <= j < |db.samples| && db.samples[j].key == r.sample.value && OfTests(db, ids, db.samples[j])
  }

  predicate OfScores(db: Tables, ids: set<Id>, r: Row) {
    r.score.Some? &&
    exists j :: 0 <= j < |db.criterionScores| && db.criterionScores[j].key == r.score.value && OfSamples(db, ids, db.criterionScores[j])
  }

  predicate OfReadings(db: Tables, ids: set<Id>, r: Row) {
    r.telemetry.Some? &&
    exists j :: 0 <= j < |db.telemetrySamples| && db.telemetrySamples[j].key == r.telemetry.value && OfRuns(db.telemetrySamples[j], ids)
  }

  /** A row whose own chain of parents leads to a selected run. */
  predicate Owned(db: Tables, ids: set<Id>, t: Table, r: Row) {
    match t
    case JudgeVerdicts => OfScores(db, ids, r)
    case CriterionScores => OfSamples(db, ids, r)
    case ToolCalls => OfSamples(db, ids, r)
    case Samples => OfTests(db, ids, r)
    case Runs => r.key in ids
    case _ => OfRuns(r, ids)
  }

  /** A row that goes: one of a selected run, or one under a test, sample or reading of one. */
  predicate Doomed(db: Tables, ids: set<Id>, t: Table, r: Row) {
    match t
    case MetricValues => OfRuns(r, ids) || OfTests(db, ids, r) || OfSamples(db, ids, r)
    case Artifacts => OfRuns(r, ids) || OfTests(db, ids, r) || OfSamples(db, ids, r)
    case TelemetryGpuSamples => OfRuns(r, ids) || OfReadings(db, ids, r)
    case _ => Owned(db, ids, t, r)
  }

  /** A row its table's own statement finds when its turn comes: one under a sample has gone with the sample. */
  predicate Found(db: Tables, ids: set<Id>, t: Table, r: Row) {
    Owned(db, ids, t, r) && ((t == MetricValues || t == Artifacts) ==> !OfSamples(db, ids, r))
  }

  // ---------------------------------------------------------------------------------------
  // The subqueries
  // ---------------------------------------------------------------------------------------

  lemma {:induction false} Picked(rows: seq<Row>, c: Column, ids: set<Id>, id: Id)
    ensures id in Pick(rows, c, ids) <==> exists j :: 0 <= j < |rows| && rows[j].key == id && Hits(rows[j], c, ids)
  {
    hide Hits;
    if rows != [] {
      var n := |rows| - 1;
      Picked(rows[..n], c, ids, id);
      assert forall j :: 0 <= j < n ==> rows[..n][j] == rows[j];
      if j :| 0 <= j < |rows| && rows[j].key == id && Hits(rows[j], c, ids) {
        assert j == n || rows[..n][j] == rows[j];
      }
    }
  }

  lemma HitsRun(r: Row, ids: set<Id>)
    ensures Hits(r, RunLink, ids) <==> OfRuns(r, ids)
    ensures Hits(r, Key, ids) <==> r.key in ids
  {
  }

  lemma HitsTest(db: Tables, ids: set<Id>, r: Row)
    ensures Hits(r, RunTestLink, RunTestsOf(db, ids)) <==> OfTests(db, ids, r)
  {
    hide Pick, OfRuns;
    if r.runTest.Some? {
      Picked(db.runTests, RunLink, ids, r.runTest.value);
      forall j: nat | j < |db.runTests| ensures Hits(db.runTests[j], RunLink, ids) <==> OfRuns(db.runTests[j], ids) {
        HitsRun(db.runTests[j], ids);
      }
    }
  }

  lemma HitsSample(db: Tables, ids: set<Id>, r: Row)
    ensures Hits(r, SampleLink, SamplesOf(db, ids)) <==> OfSamples(db, ids, r)
  {
    hide Pick, OfTests, RunTestsOf;
    if r.sample.Some? {
      Picked(db.samples, RunTestLink, RunTestsOf(db, ids), r.sample.value);
      forall j: nat | j < |db.samples|
        ensures Hits(db.samples[j], RunTestLink, RunTestsOf(db, ids)) <==> OfTests(db, ids, db.samples[j])
      {
        HitsTest(db, ids, db.samples[j]);
      }
    }
  }

  lemma HitsScore(db: Tables, ids: set<Id>, r: Row)
    ensures Hits(r, ScoreLink, ScoresOf(db, ids)) <==> OfScores(db, ids, r)
  {
    hide Pick, OfSamples, SamplesOf;
    if r.score.Some? {
      Picked(db.criterionScores, SampleLink, SamplesOf(db, ids), r.score.value);
      forall j: nat | j < |db.criterionScores|
        ensures Hits(db.criterionScores[j], SampleLink, SamplesOf(db, ids)) <==> OfSamples(db, ids, db.criterionScores[j])
      {
        HitsSample(db, ids, db.criterionScores[j]);
      }
    }
  }

  lemma HitsReading(db: Tables, ids: set<Id>, r: Row)
    ensures Hits(r, TelemetryLink, Pick(db.telemetrySamples, RunLink, ids)) <==> OfReadings(db, ids, r)
  {
    hide Pick, OfRuns;
    if r.telemetry.Some? {
      Picked(db.telemetrySamples, RunLink, ids, r.telemetry.value);
      forall j: nat | j < |db.telemetrySamples| ensures Hits(db.telemetrySamples[j], RunLink, ids) <==>
          OfRuns(db.telemetrySamples[j], ids) {
        HitsRun(db.telemetrySamples[j], ids);
      }
    }
  }

  // ---------------------------------------------------------------------------------------
  // Survivors
  // ---------------------------------------------------------------------------------------

  function Without(rows: seq<Row>, rule: Row -> bool): seq<Row> {
    if rows == [] then []
    else
      var front, last := Without(rows[..|rows| - 1], rule), rows[|rows| - 1];
      if rule(last) then front else front + [last]
  }

  lemma {:induction false} OneDrop(rows: seq<Row>, c: Column, ids: set<Id>, rule: Row -> bool)
    requires forall r: Row :: rule(r) <==> Hits(r, c, ids)
    ensures Drop(rows, c, ids) == Without(rows, rule)
  {
    hide Hits;
    if rows != [] {
      OneDrop(rows[..|rows| - 1], c, ids, rule);
    }
  }

  lemma {:induction false} DropAgain(rows: seq<Row>, first: Row -> bool, c: Column, ids: set<Id>, rule: Row -> bool)
    requires forall r: Row :: rule(r) <==> first(r) || Hits(r, c, ids)
    ensures Drop(Without(rows, first), c, ids) == Without(rows, rule)
  {
    hide Hits;
    if rows != [] {
      DropAgain(rows[..|rows| - 1], first, c, ids, rule);
      DropSnoc(Without(rows[..|rows| - 1], first), rows[|rows| - 1], c, ids);
    }
  }

  /** These rows, in order, are those of the table that the rule spares. */
  ghost predicate Spared(left: seq<Row>, rows: seq<Row>, places: seq<nat>, rule: Row -> bool) {
    && |places| == |left|
    && (forall k :: 0 <= k < |places| ==> places[k] < |rows| && left[k] == rows[places[k]])
    && (forall j, k :: 0 <= j < k < |places| ==> places[j] < places[k])
    && (forall i: nat :: i < |rows| ==> (i in places <==> !rule(rows[i])))
  }

  lemma SparedMore(left: seq<Row>, rows: seq<Row>, places: seq<nat>, rule: Row -> bool, n: nat)
    requires n + 1 == |rows| && Spared(left, rows[..n], places, rule)
    ensures if rule(rows[n]) then Spared(left, rows, places, rule) else Spared(left + [rows[n]], rows, places + [n], rule)
  {
    assert forall i :: 0 <= i < n ==> rows[..n][i] == rows[i];
    forall i: nat | i < |rows| ensures i in places + [n] <==> i in places || i == n {
    }
    assert n !in places;
  }

  lemma {:induction false} WithoutSpares(rows: seq<Row>, rule: Row -> bool) returns (places: seq<nat>)
    ensures Spared(Without(rows, rule), rows, places, rule)
  {
    if rows == [] {
      places := [];
    } else {
      var n: nat := |rows| - 1;
      places := WithoutSpares(rows[..n], rule);
      SparedMore(Without(rows[..n], rule), rows, places, rule, n);
      hide Spared;
      if !rule(rows[n]) {
        places := places + [n];
      }
    }
  }

  function DoomedRule(db: Tables, ids: set<Id>, t: Table): Row -> bool { (r: Row) => Doomed(db, ids, t, r) }

  lemma TripleDropped(db: Tables, ids: set<Id>, rows: seq<Row>, rule: Row -> bool)
    requires forall r: Row :: rule(r) <==> OfRuns(r, ids) || OfTests(db, ids, r) || OfSamples(db, ids, r)
    ensures Drop(Drop(Drop(rows, SampleLink, SamplesOf(db, ids)), RunLink, ids), RunTestLink, RunTestsOf(db,
        ids)) == Without(rows, rule)
  {
    hide Drop, Without, Hits, OfRuns, OfTests, OfSamples, SamplesOf, RunTestsOf;
    var first := (r: Row) => OfSamples(db, ids, r);
    var second := (r: Row) => OfSamples(db, ids, r) || OfRuns(r, ids);
    forall r: Row
      ensures Hits(r, SampleLink, SamplesOf(db, ids)) <==> OfSamples(db, ids, r)
      ensures Hits(r, RunLink, ids) <==> OfRuns(r, ids)
      ensures Hits(r, RunTestLink, RunTestsOf(db, ids)) <==> OfTests(db, ids, r)
    {
      HitsSample(db, ids, r);
      HitsRun(r, ids);
      HitsTest(db, ids, r);
    }
    OneDrop(rows, SampleLink, SamplesOf(db, ids), first);
    DropAgain(rows, first, RunLink, ids, second);
    DropAgain(rows, second, RunTestLink, RunTestsOf(db, ids), rule);
  }

  lemma GpuDropped(db: Tables, ids: set<Id>, rows: seq<Row>, rule: Row -> bool)
    requires forall r: Row :: rule(r) <==> OfRuns(r, ids) || OfReadings(db, ids, r)
    ensures Drop(Drop(rows, RunLink, ids), TelemetryLink, Pick(db.telemetrySamples, RunLink, ids)) == Without(rows, rule)
  {
    hide Drop, Without, Hits, OfRuns, OfReadings, Pick;
    var first := (r: Row) => OfRuns(r, ids);
    forall r: Row
      ensures Hits(r, RunLink, ids) <==> OfRuns(r, ids)
      ensures Hits(r, TelemetryLink, Pick(db.telemetrySamples, RunLink, ids)) <==> OfReadings(db, ids, r)
    {
      HitsRun(r, ids);
      HitsReading(db, ids, r);
    }
    OneDrop(rows, RunLink, ids, first);
    DropAgain(rows, first, TelemetryLink, Pick(db.telemetrySamples, RunLink, ids), rule);
  }

  /** The condition of a table's own statement. */
  function Condition(t: Table): Column {
    match t
    case JudgeVerdicts => ScoreLink
    case CriterionScores => SampleLink
    case ToolCalls => SampleLink
    case Samples => RunTestLink
    case Runs => Key
    case _ => RunLink
  }

  function Targets(db: Tables, ids: set<Id>, t: Table): set<Id> {
    match t
    case JudgeVerdicts => ScoresOf(db, ids)
    case CriterionScores => SamplesOf(db, ids)
    case ToolCalls => SamplesOf(db, ids)
    case Samples => RunTestsOf(db, ids)
    case _ => ids
  }

  lemma ConditionMeans(db: Tables, ids: set<Id>, t: Table, r: Row)
    ensures Hits(r, Condition(t), Targets(db, ids, t)) <==> Owned(db, ids, t, r)
  {
    hide Hits, ScoresOf, SamplesOf, RunTestsOf, OfRuns, OfTests, OfSamples, OfScores;
    HitsRun(r, ids);
    HitsTest(db, ids, r);
    HitsSample(db, ids, r);
    HitsScore(db, ids, r);
  }

  lemma LeftByOne(db: Tables, ids: set<Id>, t: Table)
    requires t != MetricValues && t != Artifacts && t != TelemetryGpuSamples
    ensures RowsOf(Deleted(db, ids), t) == Drop(RowsOf(db, t), Condition(t), Targets(db, ids, t))
  {
    hide Drop, Pick, Unlink, ScoresOf, SamplesOf, RunTestsOf;
  }

  lemma LeftBySeveral(db: Tables, ids: set<Id>)
    ensures var tests, samples, left := RunTestsOf(db, ids), SamplesOf(db, ids), Deleted(db, ids);
            && left.metricValues == Drop(Drop(Drop(db.metricValues, SampleLink, samples), RunLink, ids), RunTestLink, tests)
            && left.artifacts == Drop(Drop(Drop(db.artifacts, SampleLink, samples), RunLink, ids), RunTestLink, tests)
            && left.telemetryGpuSamples ==
                 Drop(Drop(db.telemetryGpuSamples, RunLink, ids), TelemetryLink, Pick(db.telemetrySamples, RunLink, ids))
            && left.calibrationSamples == Unlink(db.calibrationSamples, samples)
  {
    hide Drop, Pick, Unlink, ScoresOf, SamplesOf, RunTestsOf;
  }

  lemma LeftIs(db: Tables, ids: set<Id>, t: Table, rule: Row -> bool)
    requires forall r: Row :: rule(r) <==> Doomed(db, ids, t, r)
    ensures RowsOf(Deleted(db, ids), t) == Without(RowsOf(db, t), rule)
  {
    hide Drop, Without, Hits, Pick, OfRuns, OfTests, OfSamples, OfScores, OfReadings, SamplesOf, RunTestsOf, ScoresOf, Deleted;
    LeftBySeveral(db, ids);
    match t
    case MetricValues => TripleDropped(db, ids, db.metricValues, rule);
    case Artifacts => TripleDropped(db, ids, db.artifacts, rule);
    case TelemetryGpuSamples => GpuDropped(db, ids, db.telemetryGpuSamples, rule);
    case _ =>
      LeftByOne(db, ids, t);
      forall r: Row ensures Hits(r, Condition(t), Targets(db, ids, t)) <==> Doomed(db, ids, t, r) {
        ConditionMeans(db, ids, t, r);
      }
      OneDrop(RowsOf(db, t), Condition(t), Targets(db, ids, t), rule);
  }

  /** Of every table exactly the rows that do not hang off a selected run are left, as they were and in their order. */
  lemma SurvivorsAre(db: Tables, ids: set<Id>, t: Table) returns (places: seq<nat>)
    ensures Spared(RowsOf(Deleted(db, ids), t), RowsOf(db, t), places, DoomedRule(db, ids, t))
  {
    hide Doomed, Deleted, RowsOf, Spared, Without;
    LeftIs(db, ids, t, DoomedRule(db, ids, t));
    places := WithoutSpares(RowsOf(db, t), DoomedRule(db, ids, t));
  }

  /** A calibration row is kept; it forgets its sample exactly when that sample goes. */
  lemma CalibrationIs(db: Tables, ids: set<Id>, i: nat)
    requires i < |db.calibrationSamples|
    ensures |Deleted(db, ids).calibrationSamples| == |db.calibrationSamples|
    ensures var was := db.calibrationSamples[i];
            Deleted(db, ids).calibrationSamples[i] == if OfSamples(db, ids, was) then was.(sample := None) else was
  {
    hide Deleted, Unlink, Hits, SamplesOf, OfSamples;
    LeftBySeveral(db, ids);
    UnlinkKeeps(db.calibrationSamples, SamplesOf(db, ids));
    HitsSample(db, ids, db.calibrationSamples[i]);
  }

  // ---------------------------------------------------------------------------------------
  // Counts
  // ---------------------------------------------------------------------------------------

  function OneIf(rule: Row -> bool): Row -> real { (r: Row) => if rule(r) then 1.0 else 0.0 }

  function OwnedRule(db: Tables, ids: set<Id>, t: Table): Row -> bool { (r: Row) => Owned(db, ids, t, r) }

  function FoundRule(db: Tables, ids: set<Id>, t: Table): Row -> bool { (r: Row) => Found(db, ids, t, r) }

  lemma {:induction false} CountIs(rows: seq<Row>, c: Column, ids: set<Id>, rule: Row -> bool)
    requires forall r: Row :: rule(r) <==> Hits(r, c, ids)
    ensures Count(rows, c, ids) as real == SumOf(rows, OneIf(rule))
  {
    hide Hits;
    if rows != [] {
      CountIs(rows[..|rows| - 1], c, ids, rule);
    }
  }

  lemma {:induction false} CountLeft(rows: seq<Row>, c: Column, ids: set<Id>, d: Column, gone: set<Id>, rule: Row -> bool)
    requires forall r: Row :: rule(r) <==> Hits(r, c, ids) && !Hits(r, d, gone)
    ensures Count(Drop(rows, d, gone), c, ids) as real == SumOf(rows, OneIf(rule))
  {
    hide Hits;
    if rows != [] {
      CountLeft(rows[..|rows| - 1], c, ids, d, gone, rule);
      CountSnoc(Drop(rows[..|rows| - 1], d, gone), rows[|rows| - 1], c, ids);
    }
  }

  lemma SelectedCounts(db: Tables, ids: set<Id>, t: Table)
    ensures Selected(db, ids, t) == Count(RowsOf(db, t), Condition(t), Targets(db, ids, t))
  {
    hide Count, ScoresOf, SamplesOf, RunTestsOf;
  }

  /** The preview counts, of every table, the rows a selected run owns. */
  lemma PreviewCounts(db: Tables, ids: set<Id>, t: Table)
    ensures Selected(db, ids, t) as real == SumOf(RowsOf(db, t), OneIf(OwnedRule(db, ids, t)))
    ensures t in Previewed(db, ids) <==> Selected(db, ids, t) > 0
    ensures t in Previewed(db, ids) ==> Previewed(db, ids)[t] == Selected(db, ids, t)
  {
    SelectedCounts(db, ids, t);
    hide Count, Hits, Condition, Targets, Owned, RowsOf, Selected, SumOf;
    forall r: Row ensures Hits(r, Condition(t), Targets(db, ids, t)) <==> Owned(db, ids, t, r) {
      ConditionMeans(db, ids, t, r);
    }
    CountIs(RowsOf(db, t), Condition(t), Targets(db, ids, t), OwnedRule(db, ids, t));
  }

  lemma LeftUnderNone(db: Tables, ids: set<Id>, t: Table, rows: seq<Row>)
    requires t == MetricValues || t == Artifacts
    ensures Count(Drop(rows, SampleLink, SamplesOf(db, ids)), RunLink, ids) as real == SumOf(rows, OneIf(FoundRule(db, ids, t)))
  {
    hide Count, Drop, Hits, OfRuns, OfSamples, SamplesOf, SumOf;
    forall r: Row ensures Found(db, ids, t, r) <==> Hits(r, RunLink, ids) && !Hits(r, SampleLink, SamplesOf(db, ids)) {
      HitsRun(r, ids);
      HitsSample(db, ids, r);
    }
    CountLeft(rows, RunLink, ids, SampleLink, SamplesOf(db, ids), FoundRule(db, ids, t));
  }

  /** The deletion reports, of every table, the owned rows still there at its turn: a measurement or an artifact filed under
      a sample is gone with the sample by then. */
  lemma ReportCounts(db: Tables, ids: set<Id>, t: Table)
    ensures RowCount(db, ids, t) as real == SumOf(RowsOf(db, t), OneIf(FoundRule(db, ids, t)))
    ensures t in Reported(db, ids) <==> RowCount(db, ids, t) > 0
    ensures t in Reported(db, ids) ==> Reported(db, ids)[t] == RowCount(db, ids, t)
  {
    hide Count, Drop, RowCount, Selected, OfRuns, OfTests, OfSamples, OfScores, SamplesOf, SumOf;
    RowCountAtTurn(db, ids, t);
    if t == MetricValues || t == Artifacts {
      LeftUnderNone(db, ids, t, RowsOf(db, t));
    } else {
      PreviewCounts(db, ids, t);
      SumCongruent(RowsOf(db, t), OneIf(OwnedRule(db, ids, t)), OneIf(FoundRule(db, ids, t)));
    }
  }

  // ---------------------------------------------------------------------------------------
  // The conditions
  // ---------------------------------------------------------------------------------------

  lemma ClearLeft(rows: seq<Row>, c: Column, ids: set<Id>, d: Column, gone: set<Id>)
    ensures Clear(Drop(rows, d, gone), c, ids) <==> forall i :: 0 <= i < |rows| && Hits(rows[i], c, ids) ==> Hits(rows[i], d, gone)
  {
    DropLeaves(rows, d, gone);
    hide Drop, Hits;
    var left := Drop(rows, d, gone);
    forall i: nat | i < |rows| && !Hits(rows[i], d, gone) ensures rows[i] in left {
      assert rows[i] in rows;
    }
    forall i: nat | i < |left| ensures left[i] in rows && !Hits(left[i], d, gone) {
      assert left[i] in left;
    }
  }

  /** A row under a test or sample of a selected run is that run's own, or another selected one's. */
  predicate OwnUnderTests(db: Tables, ids: set<Id>, rows: seq<Row>) {
    forall i :: 0 <= i < |rows| && (OfTests(db, ids, rows[i]) || OfSamples(db, ids, rows[i])) ==> OfRuns(rows[i], ids)
  }

  predicate OwnUnderReadings(db: Tables, ids: set<Id>, rows: seq<Row>) {
    forall i :: 0 <= i < |rows| && OfReadings(db, ids, rows[i]) ==> OfRuns(rows[i], ids)
  }

  lemma OwnUnderTestsIs(db: Tables, ids: set<Id>, rows: seq<Row>)
    ensures OwnUnderTests(db, ids, rows) <==>
            && Clear(Drop(rows, RunLink, ids), SampleLink, SamplesOf(db, ids))
            && Clear(Drop(rows, RunLink, ids), RunTestLink, RunTestsOf(db, ids))
  {
    hide Drop, Clear, Hits, OfRuns, OfTests, OfSamples, SamplesOf, RunTestsOf;
    ClearLeft(rows, SampleLink, SamplesOf(db, ids), RunLink, ids);
    ClearLeft(rows, RunTestLink, RunTestsOf(db, ids), RunLink, ids);
    forall i: nat | i < |rows|
      ensures Hits(rows[i], SampleLink, SamplesOf(db, ids)) <==> OfSamples(db, ids, rows[i])
      ensures Hits(rows[i], RunLink, ids) <==> OfRuns(rows[i], ids)
      ensures Hits(rows[i], RunTestLink, RunTestsOf(db, ids)) <==> OfTests(db, ids, rows[i])
    {
      HitsSample(db, ids, rows[i]);
      HitsRun(rows[i], ids);
      HitsTest(db, ids, rows[i]);
    }
  }

  /** Nothing is linked across runs exactly where every row under something of a selected run is owned by a selected run. */
  lemma CrossLinksMean(db: Tables, ids: set<Id>)
    ensures NoCrossLinks(db, ids) <==>
            && OwnUnderTests(db, ids, db.metricValues) && OwnUnderTests(db, ids, db.artifacts)
            && OwnUnderReadings(db, ids, db.telemetryGpuSamples)
  {
    hide Drop, Clear, Hits, OfRuns, OfReadings, OwnUnderTests, SamplesOf, RunTestsOf, Pick;
    OwnUnderTestsIs(db, ids, db.metricValues);
    OwnUnderTestsIs(db, ids, db.artifacts);
    var rows := db.telemetryGpuSamples;
    ClearLeft(rows, TelemetryLink, Pick(db.telemetrySamples, RunLink, ids), RunLink, ids);
    forall i: nat | i < |rows|
      ensures Hits(rows[i], RunLink, ids) <==> OfRuns(rows[i], ids)
      ensures Hits(rows[i], TelemetryLink, Pick(db.telemetrySamples, RunLink, ids)) <==> OfReadings(db, ids, rows[i])
    {
      HitsRun(rows[i], ids);
      HitsReading(db, ids, rows[i]);
    }
  }

  /** No row of a selected run is filed under a sample of one. */
  predicate NoneFiled(db: Tables, ids: set<Id>, rows: seq<Row>) {
    forall i :: 0 <= i < |rows| ==> !(OfRuns(rows[i], ids) && OfSamples(db, ids, rows[i]))
  }

  lemma NoneFiledIs(db: Tables, ids: set<Id>, rows: seq<Row>)
    ensures NoneFiled(db, ids, rows) <==> Apart(rows, SampleLink, SamplesOf(db, ids), RunLink, ids)
  {
    hide Hits, OfRuns, OfSamples, SamplesOf;
    forall i: nat | i < |rows|
      ensures Hits(rows[i], SampleLink, SamplesOf(db, ids)) <==> OfSamples(db, ids, rows[i])
      ensures Hits(rows[i], RunLink, ids) <==> OfRuns(rows[i], ids)
    {
      HitsSample(db, ids, rows[i]);
      HitsRun(rows[i], ids);
    }
  }

  lemma UnderSamplesMean(db: Tables, ids: set<Id>)
    ensures NoneUnderSamples(db, ids) <==> NoneFiled(db, ids, db.metricValues) && NoneFiled(db, ids, db.artifacts)
  {
    hide Apart, NoneFiled, SamplesOf;
    NoneFiledIs(db, ids, db.metricValues);
    NoneFiledIs(db, ids, db.artifacts);
  }
}
