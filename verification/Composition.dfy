/** How a run-level row of src/freeweight/domain/aggregation.py composes from its tests' rows. */
module Composition {
  import opened Aggregation
  import opened Measures
  import opened Metrics
  import opened Ordering
  import opened Results
  import opened Sums

  // ---------------------------------------------------------------------------------------
  // How a run-level row composes from its tests' rows
  // ---------------------------------------------------------------------------------------

  /** What each test contributed to its own row, in order. */
  function TestValues(m: MetricDefinition, groups: seq<SampleGroup>): seq<real> {
    if groups == [] then []
    else
      var last := groups[|groups| - 1];
      TestValues(m, groups[..|groups| - 1]) + Values(m, Resolve(m, last.samples), last.samples)
  }

  /** The tests' samples, all read from one place. */
  function ValuesFrom(m: MetricDefinition, origin: Origin, groups: seq<SampleGroup>): seq<real> {
    if groups == [] then []
    else
      var last := groups[|groups| - 1];
      ValuesFrom(m, origin, groups[..|groups| - 1]) + Values(m, origin, last.samples)
  }

  lemma {:induction false} ValuesConcat(m: MetricDefinition, origin: Origin, a: seq<SampleFacts>, b: seq<SampleFacts>)
    ensures Values(m, origin, a + b) == Values(m, origin, a) + Values(m, origin, b)
  {
    hide Contribution;
    if b == [] {
      assert a + b == a;
    } else {
      assert (a + b)[..|a + b| - 1] == a + b[..|b| - 1];
      ValuesConcat(m, origin, a, b[..|b| - 1]);
    }
  }

  lemma {:induction false} ValuesOfAll(m: MetricDefinition, origin: Origin, groups: seq<SampleGroup>)
    ensures Values(m, origin, AllSamples(groups)) == ValuesFrom(m, origin, groups)
  {
    hide Contribution;
    if groups != [] {
      ValuesOfAll(m, origin, groups[..|groups| - 1]);
      ValuesConcat(m, origin, AllSamples(groups[..|groups| - 1]), groups[|groups| - 1].samples);
    }
  }

  /** A test reads the metric where the run does, or has nothing to read. */
  predicate ReadsAlike(m: MetricDefinition, origin: Origin, g: SampleGroup) {
    Resolve(m, g.samples) == origin || Values(m, Resolve(m, g.samples), g.samples) == []
  }

  predicate AllReadAlike(m: MetricDefinition, origin: Origin, groups: seq<SampleGroup>) {
    forall i :: 0 <= i < |groups| ==> ReadsAlike(m, origin, groups[i])
  }

  lemma {:induction false} NoDetailNoValues(m: MetricDefinition, samples: seq<SampleFacts>)
    requires !AnyDetail(m, samples)
    ensures Values(m, FromDetail, samples) == []
  {
    hide DetailNumber;
    if samples != [] {
      NoDetailNoValues(m, samples[..|samples| - 1]);
      assert !(samples[|samples| - 1].completed && DetailNumber(samples[|samples| - 1], m.key).Some?);
    }
  }

  lemma {:induction false} DetailSpreads(m: MetricDefinition, groups: seq<SampleGroup>, i: nat)
    requires i < |groups| && AnyDetail(m, groups[i].samples)
    ensures AnyDetail(m, AllSamples(groups))
  {
    hide DetailNumber;
    var n := |groups| - 1;
    var front := AllSamples(groups[..n]);
    if i < n {
      DetailSpreads(m, groups[..n], i);
      var k :| 0 <= k < |front| && front[k].completed && DetailNumber(front[k], m.key).Some?;
      assert AllSamples(groups)[k] == front[k];
    } else {
      var k :| 0 <= k < |groups[n].samples| && groups[n].samples[k].completed && DetailNumber(groups[n].samples[k], m.key).Some?;
      assert AllSamples(groups)[|front| + k] == groups[n].samples[k];
    }
  }

  /** A test that would read elsewhere than the run finds nothing there. */
  lemma ElsewhereIsEmpty(m: MetricDefinition, groups: seq<SampleGroup>, i: nat)
    requires i < |groups| && Resolve(m, groups[i].samples) != Resolve(m, AllSamples(groups))
    ensures Values(m, Resolve(m, AllSamples(groups)), groups[i].samples) == []
  {
    hide AllSamples, AnyDetail;
    if AnyDetail(m, groups[i].samples) {
      DetailSpreads(m, groups, i);
    }
    NoDetailIsEmpty(m, groups[i].samples);
  }

  lemma NoDetailIsEmpty(m: MetricDefinition, samples: seq<SampleFacts>)
    ensures !AnyDetail(m, samples) ==> Values(m, FromDetail, samples) == []
  {
    if !AnyDetail(m, samples) {
      NoDetailNoValues(m, samples);
    }
  }

  lemma {:induction false} FewerFromOnePlace(m: MetricDefinition, origin: Origin, groups: seq<SampleGroup>)
    requires forall i :: 0 <= i < |groups| && Resolve(m, groups[i].samples) != origin ==>
      Values(m, origin, groups[i].samples) == []
    ensures |ValuesFrom(m, origin, groups)| <= |TestValues(m, groups)|
    ensures ValuesFrom(m, origin, groups) == TestValues(m, groups) <==> AllReadAlike(m, origin, groups)
    ensures |ValuesFrom(m, origin, groups)| == |TestValues(m, groups)| ==> AllReadAlike(m, origin, groups)
  {
    hide Resolve, Values;
    if groups != [] {
      var n := |groups| - 1;
      FewerFromOnePlace(m, origin, groups[..n]);
      assert AllReadAlike(m, origin, groups) <==> AllReadAlike(m, origin, groups[..n]) && ReadsAlike(m, origin, groups[n]) by {
        assert forall i :: 0 <= i < n ==> groups[..n][i] == groups[i];
      }
    }
  }

  /** The run's row is built from exactly what the tests' own rows are built from, if and only if every test reads
      the metric where the run does or has nothing to read. */
  lemma RunReadsTheTests(m: MetricDefinition, groups: seq<SampleGroup>)
    ensures var origin := Resolve(m, AllSamples(groups));
            && (Values(m, origin, AllSamples(groups)) == TestValues(m, groups) <==> AllReadAlike(m, origin, groups))
            && (|Values(m, origin, AllSamples(groups))| == |TestValues(m, groups)| <==> AllReadAlike(m, origin, groups))
  {
    var origin := Resolve(m, AllSamples(groups));
    ValuesOfAll(m, origin, groups);
    forall i | 0 <= i < |groups| && Resolve(m, groups[i].samples) != origin
      ensures Values(m, origin, groups[i].samples) == []
    {
      ElsewhereIsEmpty(m, groups, i);
    }
    FewerFromOnePlace(m, origin, groups);
    hide *;
  }

  /** A key declared to read from one place is read there by every test. */
  lemma FixedSourceReadsAlike(m: MetricDefinition, groups: seq<SampleGroup>)
    requires m.source != Auto || Registered(m.key)
    ensures AllReadAlike(m, Resolve(m, AllSamples(groups)), groups)
  {
    hide Registered, Values, AnyDetail, AllSamples;
  }

  // the folds over the tests' rows

  predicate Combinable(m: MetricDefinition) { !PerSet(m.key) && !m.aggregation.Unknown? }

  /** A test's own row. */
  function TestRow(m: MetricDefinition, g: SampleGroup): AggregatedMetric
    requires Combinable(m)
  {
    RowFor(m, g).value
  }

  function OwnRows(m: MetricDefinition, groups: seq<SampleGroup>): (rows: seq<AggregatedMetric>)
    requires Combinable(m)
    ensures |rows| == |groups|
  {
    if groups == [] then [] else OwnRows(m, groups[..|groups| - 1]) + [TestRow(m, groups[|groups| - 1])]
  }

  function CountSum(rows: seq<AggregatedMetric>): nat {
    if rows == [] then 0 else CountSum(rows[..|rows| - 1]) + rows[|rows| - 1].sampleCount
  }

  function ExcludedSum(rows: seq<AggregatedMetric>): nat {
    if rows == [] then 0 else ExcludedSum(rows[..|rows| - 1]) + rows[|rows| - 1].excludedCount
  }

  /** The rows' values, summed. */
  function ValueSum(rows: seq<AggregatedMetric>): real {
    if rows == [] then 0.0
    else
      var row := rows[|rows| - 1];
      ValueSum(rows[..|rows| - 1]) + if row.value.Some? then row.value.value else 0.0
  }

  /** A row's value, as often as it has samples. */
  function Weight(row: AggregatedMetric): real {
    if row.value.Some? then row.value.value * row.sampleCount as real else 0.0
  }

  /** The rows' values, weighted by their counts and summed. */
  function WeightedSum(rows: seq<AggregatedMetric>): real {
    if rows == [] then 0.0 else WeightedSum(rows[..|rows| - 1]) + Weight(rows[|rows| - 1])
  }

  function Lower(a: Option<real>, b: Option<real>): Option<real> {
    if a.None? then b else if b.None? || a.value <= b.value then a else b
  }

  function Higher(a: Option<real>, b: Option<real>): Option<real> {
    if a.None? then b else if b.None? || a.value >= b.value then a else b
  }

  function LeastValue(rows: seq<AggregatedMetric>): Option<real> {
    if rows == [] then None else Lower(LeastValue(rows[..|rows| - 1]), rows[|rows| - 1].value)
  }

  function GreatestValue(rows: seq<AggregatedMetric>): Option<real> {
    if rows == [] then None else Higher(GreatestValue(rows[..|rows| - 1]), rows[|rows| - 1].value)
  }

  lemma OwnRowsStep(m: MetricDefinition, groups: seq<SampleGroup>)
    requires Combinable(m) && groups != []
    ensures var rows, n := OwnRows(m, groups), |groups| - 1;
            rows[..n] == OwnRows(m, groups[..n]) && rows[n] == TestRow(m, groups[n])
  {
    hide TestRow;
  }

  function Number(result: MetricResult): Option<real> { if result.Value? then Some(result.value) else None }

  /** A row in terms of the values behind it. */
  lemma RowOfValues(m: MetricDefinition, g: SampleGroup)
    requires Combinable(m)
    ensures RowFor(m, g).Ok?
    ensures var row, values := TestRow(m, g), Values(m, Resolve(m, g.samples), g.samples);
            && row.sampleCount == |values| && row.excludedCount == |g.samples| - |values|
            && row.key == m.key && row.dispersion == DispersionOf(values)
            && (values == [] ==> row.value == None)
            && (values != [] ==> Combine(values, m.aggregation).Ok?)
            && (values != [] ==> row.value == Number(Combine(values, m.aggregation).value))
  {
    hide Values, Resolve, PerSet, AtPercentile, MeanOf, Total, Least, Greatest, DispersionOf;
  }

  function LeastOf(values: seq<real>): Option<real> { if values == [] then None else Some(Least(values)) }

  function GreatestOf(values: seq<real>): Option<real> { if values == [] then None else Some(Greatest(values)) }

  lemma {:induction false} LeastConcat(a: seq<real>, b: seq<real>)
    ensures LeastOf(a + b) == Lower(LeastOf(a), LeastOf(b))
    ensures GreatestOf(a + b) == Higher(GreatestOf(a), GreatestOf(b))
  {
    if b == [] {
      assert a + b == a;
    } else {
      assert (a + b)[..|a + b| - 1] == a + b[..|b| - 1];
      LeastConcat(a, b[..|b| - 1]);
    }
  }

  lemma MeanTimesCount(values: seq<real>, mean: real, n: nat)
    requires values != [] && mean == MeanOf(values) && n == |values|
    ensures mean * n as real == Total(values)
  {
    MeanTimesSize(values);
  }

  lemma {:induction false} CountsOfTests(m: MetricDefinition, groups: seq<SampleGroup>)
    requires Combinable(m)
    ensures CountSum(OwnRows(m, groups)) == |TestValues(m, groups)|
    ensures CountSum(OwnRows(m, groups)) + ExcludedSum(OwnRows(m, groups)) == |AllSamples(groups)|
  {
    hide OwnRows, RowFor, Values, Resolve, Combine;
    if groups != [] {
      CountsOfTests(m, groups[..|groups| - 1]);
      RowOfValues(m, groups[|groups| - 1]);
      OwnRowsStep(m, groups);
    }
  }

  lemma {:induction false} SumsOfTests(m: MetricDefinition, groups: seq<SampleGroup>)
    requires Combinable(m)
    ensures m.aggregation.Sum? ==> ValueSum(OwnRows(m, groups)) == Total(TestValues(m, groups))
    ensures m.aggregation.Count? ==> ValueSum(OwnRows(m, groups)) == |TestValues(m, groups)| as real
  {
    hide OwnRows, RowFor, Values, Resolve, MeanOf, AtPercentile, Least, Greatest;
    if groups != [] {
      var last := groups[|groups| - 1];
      SumsOfTests(m, groups[..|groups| - 1]);
      RowOfValues(m, last);
      OwnRowsStep(m, groups);
      SumConcat(TestValues(m, groups[..|groups| - 1]), Values(m, Resolve(m, last.samples), last.samples), Identity);
      assert Total([]) == 0.0;
      hide Total;
    }
  }

  lemma WeightedStep(rows: seq<AggregatedMetric>)
    ensures rows == [] ==> WeightedSum(rows) == 0.0
    ensures rows != [] ==> WeightedSum(rows) == WeightedSum(rows[..|rows| - 1]) + Weight(rows[|rows| - 1])
  {
  }

  lemma NothingWeighted(m: MetricDefinition)
    requires Combinable(m)
    ensures OwnRows(m, []) == [] && TestValues(m, []) == [] && Total([]) == 0.0
  {
  }

  lemma TestValuesStep(m: MetricDefinition, groups: seq<SampleGroup>)
    requires groups != []
    ensures var last := groups[|groups| - 1];
            TestValues(m, groups) == TestValues(m, groups[..|groups| - 1]) + Values(m, Resolve(m, last.samples), last.samples)
  {
    hide Values, Resolve;
  }

  lemma TotalConcat(a: seq<real>, b: seq<real>)
    ensures Total(a + b) == Total(a) + Total(b)
  {
    SumConcat(a, b, Identity);
  }

  lemma RowWeight(m: MetricDefinition, g: SampleGroup, values: seq<real>)
    requires Combinable(m) && (m.aggregation.Mean? || m.aggregation.Ratio?)
    requires values == Values(m, Resolve(m, g.samples), g.samples)
    ensures Weight(TestRow(m, g)) == Total(values)
  {
    assert Total([]) == 0.0;
    hide RowFor, Values, Resolve, AtPercentile, Least, Greatest, MeanOf, Total, DispersionOf, PerSet;
    RowOfValues(m, g);
    if values != [] {
      MeanTimesCount(values, TestRow(m, g).value.value, TestRow(m, g).sampleCount);
    }
  }

  lemma {:induction false} MeansOfTests(m: MetricDefinition, groups: seq<SampleGroup>)
    requires Combinable(m) && (m.aggregation.Mean? || m.aggregation.Ratio?)
    ensures WeightedSum(OwnRows(m, groups)) == Total(TestValues(m, groups))
  {
    hide OwnRows, RowFor, Values, Resolve, AtPercentile, Least, Greatest, MeanOf, Total, DispersionOf, WeightedSum, TestValues, PerSet;
    WeightedStep(OwnRows(m, groups));
    if groups == [] {
      NothingWeighted(m);
    } else {
      var n := |groups| - 1;
      MeansOfTests(m, groups[..n]);
      OwnRowsStep(m, groups);
      TestValuesStep(m, groups);
      var values := Values(m, Resolve(m, groups[n].samples), groups[n].samples);
      TotalConcat(TestValues(m, groups[..n]), values);
      RowWeight(m, groups[n], values);
    }
  }

  lemma {:induction false} ExtremesOfTests(m: MetricDefinition, groups: seq<SampleGroup>)
    requires Combinable(m)
    ensures m.aggregation.Min? ==> LeastValue(OwnRows(m, groups)) == LeastOf(TestValues(m, groups))
    ensures m.aggregation.Max? ==> GreatestValue(OwnRows(m, groups)) == GreatestOf(TestValues(m, groups))
  {
    hide OwnRows, RowFor, Values, Resolve, AtPercentile, MeanOf, Total, Least, Greatest;
    if groups != [] {
      var last := groups[|groups| - 1];
      ExtremesOfTests(m, groups[..|groups| - 1]);
      RowOfValues(m, last);
      OwnRowsStep(m, groups);
      LeastConcat(TestValues(m, groups[..|groups| - 1]), Values(m, Resolve(m, last.samples), last.samples));
    }
  }

  /** The run row's count is the sum of its tests' counts, if and only if every test reads the metric where the run
      does or has nothing to read; the excluded counts then add up too. */
  lemma CountsAddUp(m: MetricDefinition, groups: seq<SampleGroup>)
    requires Combinable(m) && groups != [] && OneClass(groups)
    ensures RunRow(m, groups).Ok?
    ensures var row, alike := RunRow(m, groups).value, AllReadAlike(m, Resolve(m, AllSamples(groups)), groups);
            && (row.sampleCount == CountSum(OwnRows(m, groups)) <==> alike)
            && (row.excludedCount == ExcludedSum(OwnRows(m, groups)) <==> alike)
  {
    var merged := SampleGroup(None, groups[0].class', [m], AllSamples(groups));
    RowOfValues(m, merged);
    CountsOfTests(m, groups);
    RunReadsTheTests(m, groups);
    hide Values, Resolve, Combine, AllSamples, TestValues, AllReadAlike, OneClass, CountSum, ExcludedSum;
    assert RunRow(m, groups) == RowFor(m, merged);
  }

  /** Where every test reads the metric where the run does, the run's row is that of the tests' values together. */
  lemma RunRowOfTests(m: MetricDefinition, groups: seq<SampleGroup>)
    requires Combinable(m) && groups != [] && OneClass(groups)
    requires AllReadAlike(m, Resolve(m, AllSamples(groups)), groups)
    ensures RunRow(m, groups).Ok?
    ensures var row, values := RunRow(m, groups).value, TestValues(m, groups);
            && row.sampleCount == |values| && row.dispersion == DispersionOf(values)
            && (values == [] ==> row.value == None)
            && (values != [] ==> Combine(values, m.aggregation).Ok?)
            && (values != [] ==> row.value == Number(Combine(values, m.aggregation).value))
  {
    var merged := SampleGroup(None, groups[0].class', [m], AllSamples(groups));
    RowOfValues(m, merged);
    RunReadsTheTests(m, groups);
    hide Values, Resolve, AllSamples, TestValues, AllReadAlike, OneClass, Combine;
    assert RunRow(m, groups) == RowFor(m, merged);
  }

  /** Then sums and counts add. */
  lemma SumsCompose(m: MetricDefinition, groups: seq<SampleGroup>)
    requires Combinable(m) && groups != [] && OneClass(groups) && (m.aggregation.Sum? || m.aggregation.Count?)
    requires AllReadAlike(m, Resolve(m, AllSamples(groups)), groups)
    ensures RunRow(m, groups).Ok?
    ensures var row := RunRow(m, groups).value;
            row.value == if row.sampleCount == 0 then None else Some(ValueSum(OwnRows(m, groups)))
  {
    hide RunRow, RowFor, Values, Resolve, AllSamples, TestValues, AllReadAlike, OneClass, ValueSum, Total, MeanOf,
         AtPercentile, DispersionOf, PerSet, OwnRows, Least, Greatest;
    RunRowOfTests(m, groups);
    SumsOfTests(m, groups);
  }

  /** The run's mean is its tests' means weighted by their counts. */
  lemma MeansCompose(m: MetricDefinition, groups: seq<SampleGroup>)
    requires Combinable(m) && groups != [] && OneClass(groups) && (m.aggregation.Mean? || m.aggregation.Ratio?)
    requires AllReadAlike(m, Resolve(m, AllSamples(groups)), groups)
    ensures RunRow(m, groups).Ok?
    ensures var row := RunRow(m, groups).value;
            && (row.value.Some? <==> row.sampleCount > 0)
            && (row.value.Some? ==> row.value.value * row.sampleCount as real == WeightedSum(OwnRows(m, groups)))
  {
    hide RunRow, RowFor, Values, Resolve, AllSamples, TestValues, AllReadAlike, OneClass, WeightedSum, Total, MeanOf,
        AtPercentile, PerSet;
    RunRowOfTests(m, groups);
    MeansOfTests(m, groups);
    var row, values := RunRow(m, groups).value, TestValues(m, groups);
    if values != [] {
      assert row.value.value == MeanOf(values);
      MeanTimesCount(values, row.value.value, row.sampleCount);
    }
  }

  /** A row's squared deviations from a point, as far as its own figures tell them: those from its own mean, and the
      squared distance of that mean from the point, once for each sample. */
  function RowSpread(row: AggregatedMetric, point: real): real {
    var within := if row.dispersion.variance.Some? then Times((row.sampleCount - 1) as real, row.dispersion.variance.value) else 0.0;
    var between := if row.value.Some? then Times(row.sampleCount as real, Sq(row.value.value - point)) else 0.0;
    within + between
  }

  function SpreadSum(rows: seq<AggregatedMetric>, point: real): real {
    if rows == [] then 0.0 else SpreadSum(rows[..|rows| - 1], point) + RowSpread(rows[|rows| - 1], point)
  }

  lemma VarianceTimes(values: seq<real>)
    requires |values| >= 2
    ensures Times((|values| - 1) as real, Variance(values)) == SumOf(values, SquaredDeviation(MeanOf(values)))
  {
    hide SumOf, MeanOf;
    var n := (|values| - 1) as real;
    assert Variance(values) * n == SumOf(values, SquaredDeviation(MeanOf(values)));
  }

  /** What one row of a mean says of its values' deviations. */
  lemma RowSpreadOfValues(row: AggregatedMetric, values: seq<real>, point: real)
    requires row.sampleCount == |values| && row.dispersion == DispersionOf(values)
    requires row.value == if values == [] then None else Some(MeanOf(values))
    ensures RowSpread(row, point) == SumOf(values, SquaredDeviation(point))
  {
    if values != [] {
      DeviationShift(values, point);
    }
    if |values| == 1 {
      NoSpread(values);
    } else if |values| > 1 {
      VarianceTimes(values);
    }
    hide MeanOf, Variance, SquaredDeviation, Times, Sq;
  }

  lemma NoSpread(values: seq<real>)
    requires |values| == 1
    ensures SumOf(values, SquaredDeviation(MeanOf(values))) == 0.0
  {
    TotalOfOne(values[0]);
    assert values == [values[0]];
    NoDeviation(values, MeanOf(values));
  }

  lemma {:induction false} SpreadOfTests(m: MetricDefinition, groups: seq<SampleGroup>, point: real)
    requires Combinable(m) && (m.aggregation.Mean? || m.aggregation.Ratio?)
    ensures SpreadSum(OwnRows(m, groups), point) == SumOf(TestValues(m, groups), SquaredDeviation(point))
  {
    hide OwnRows, RowFor, Values, Resolve, AtPercentile, Least, Greatest, DispersionOf, MeanOf, Total, RowSpread, Variance;
    if groups != [] {
      var n := |groups| - 1;
      var values := Values(m, Resolve(m, groups[n].samples), groups[n].samples);
      SpreadOfTests(m, groups[..n], point);
      RowOfValues(m, groups[n]);
      OwnRowsStep(m, groups);
      RowSpreadOfValues(TestRow(m, groups[n]), values, point);
      SumConcat(TestValues(m, groups[..n]), values, SquaredDeviation(point));
    }
  }

  /** The spread of the run: its variance comes from its tests' variances and from how far their means lie from its
      own, each weighted by its count. */
  lemma SpreadsCompose(m: MetricDefinition, groups: seq<SampleGroup>)
    requires Combinable(m) && groups != [] && OneClass(groups) && (m.aggregation.Mean? || m.aggregation.Ratio?)
    requires AllReadAlike(m, Resolve(m, AllSamples(groups)), groups)
    ensures RunRow(m, groups).Ok?
    ensures var row := RunRow(m, groups).value;
            && (row.dispersion.variance.Some? <==> row.sampleCount >= 2)
            && (row.dispersion.variance.Some? ==> row.value.Some?)
            && (row.dispersion.variance.Some? ==>
                Times((row.sampleCount - 1) as real, row.dispersion.variance.value) ==
                SpreadSum(OwnRows(m, groups), row.value.value))
  {
    hide RunRow, RowFor, Values, Resolve, AllSamples, TestValues, AllReadAlike, OneClass, MeanOf, AtPercentile, PerSet,
         Variance, Times, SpreadSum, OwnRows, SumOf, Total;
    RunRowOfTests(m, groups);
    var row, values := RunRow(m, groups).value, TestValues(m, groups);
    if |values| >= 2 {
      assert row.value == Some(MeanOf(values));
      VarianceTimes(values);
      SpreadOfTests(m, groups, row.value.value);
    }
  }

  /** Minima and maxima fold. */
  lemma ExtremesCompose(m: MetricDefinition, groups: seq<SampleGroup>)
    requires Combinable(m) && groups != [] && OneClass(groups)
    requires AllReadAlike(m, Resolve(m, AllSamples(groups)), groups)
    ensures RunRow(m, groups).Ok?
    ensures m.aggregation.Min? ==> RunRow(m, groups).value.value == LeastValue(OwnRows(m, groups))
    ensures m.aggregation.Max? ==> RunRow(m, groups).value.value == GreatestValue(OwnRows(m, groups))
  {
    hide RunRow, RowFor, Values, Resolve, AllSamples, TestValues, AllReadAlike, OneClass, LeastValue, GreatestValue, Least,
         Greatest, MeanOf, Total, AtPercentile, DispersionOf, PerSet, OwnRows;
    RunRowOfTests(m, groups);
    ExtremesOfTests(m, groups);
  }

  lemma MixedOrigins(m: MetricDefinition, plain: SampleFacts, detailed: SampleFacts)
    requires m.source == Auto && !Registered(m.key) && detailed.completed
    requires DetailNumber(detailed, m.key).Some? && DetailNumber(plain, m.key).None?
    ensures Resolve(m, [detailed]) == Resolve(m, [detailed] + [plain]) == FromDetail && Resolve(m, [plain]) == FromScore
  {
    DetailFound(m, plain, detailed);
    hide AnyDetail, Registered, DetailNumber;
  }

  lemma MixedValues(m: MetricDefinition, plain: SampleFacts, detailed: SampleFacts, score: real, x: real)
    requires plain.completed && detailed.completed && plain.score == Some(score)
    requires DetailNumber(detailed, m.key) == Some(x) && DetailNumber(plain, m.key) == None
    ensures Values(m, FromDetail, [detailed]) == Values(m, FromDetail, [detailed] + [plain]) == [x]
    ensures Values(m, FromScore, [plain]) == [score]
  {
    hide Values, DetailNumber;
    OneSample(m, FromDetail, detailed);
    OneSample(m, FromScore, plain);
    OneSample(m, FromDetail, plain);
    ValuesConcat(m, FromDetail, [detailed], [plain]);
    assert [x] + [] == [x];
  }

  /** One test whose samples carry the number in their detail, one whose samples are only scored: each reports a
      value of its own, and the run's row leaves the second test's out. */
  lemma MixedSourcesDropATest(m: MetricDefinition, plain: SampleFacts, score: real, x: real)
    requires m.source == Auto && !Registered(m.key)
    requires plain.completed && plain.score == Some(score) && plain.detail == map[]
    ensures var detailed := plain.(detail := map[m.key := Fraction(x)]);
            var a, b := SampleGroup(Some(1), Warm, [m], [detailed]), SampleGroup(Some(2), Warm, [m], [plain]);
            && Values(m, Resolve(m, a.samples), a.samples) == [x]
            && Values(m, Resolve(m, b.samples), b.samples) == [score]
            && Values(m, Resolve(m, AllSamples([a, b])), AllSamples([a, b])) == [x]
  {
    var detailed := plain.(detail := map[m.key := Fraction(x)]);
    var a, b := SampleGroup(Some(1), Warm, [m], [detailed]), SampleGroup(Some(2), Warm, [m], [plain]);
    assert DetailNumber(detailed, m.key) == Some(x) && DetailNumber(plain, m.key) == None;
    hide DetailNumber, Registered;
    MixedOrigins(m, plain, detailed);
    SamplesOfTwo(a, b);
    hide Resolve, Values, AllSamples;
    MixedValues(m, plain, detailed, score, x);
  }

  lemma DetailFound(m: MetricDefinition, plain: SampleFacts, detailed: SampleFacts)
    requires detailed.completed && DetailNumber(detailed, m.key).Some? && DetailNumber(plain, m.key).None?
    ensures AnyDetail(m, [detailed]) && AnyDetail(m, [detailed] + [plain]) && !AnyDetail(m, [plain])
  {
    hide DetailNumber;
    assert [detailed][0] == detailed && ([detailed] + [plain])[0] == detailed;
  }

  lemma OneSample(m: MetricDefinition, origin: Origin, facts: SampleFacts)
    ensures Values(m, origin, [facts]) ==
      if Contribution(m, origin, facts).Some? then [Contribution(m, origin, facts).value] else []
  {
    hide Contribution;
    assert [facts][..0] == [];
  }

  lemma SamplesOfTwo(a: SampleGroup, b: SampleGroup)
    ensures AllSamples([a, b]) == a.samples + b.samples
  {
    assert [a, b][..1] == [a] && [a][..0] == [];
    assert AllSamples([a]) == [] + a.samples == a.samples;
  }

  // ---------------------------------------------------------------------------------------
  // All of it together
  // ---------------------------------------------------------------------------------------

  type Rows = seq<AggregatedMetric>

  /** How the run's row of the key comes from its tests' rows, all of them read off the list. */
  predicate Composes(aggregation: Aggregation, run: AggregatedMetric, tests: Rows) {
    && (aggregation.Sum? || aggregation.Count? ==> run.value == if run.sampleCount == 0 then None else Some(ValueSum(tests)))
    && (aggregation.Min? ==> run.value == LeastValue(tests))
    && (aggregation.Max? ==> run.value == GreatestValue(tests))
    && (aggregation.Mean? || aggregation.Ratio? ==> MeanComposes(run, tests))
  }

  predicate MeanComposes(run: AggregatedMetric, tests: Rows) {
    && (run.value.Some? <==> run.sampleCount > 0)
    && (run.dispersion.variance.Some? <==> run.sampleCount >= 2)
    && (run.value.Some? ==> run.value.value * run.sampleCount as real == WeightedSum(tests))
    && (run.value.Some? && run.dispersion.variance.Some? ==>
        Times((run.sampleCount - 1) as real, run.dispersion.variance.value) == SpreadSum(tests, run.value.value))
  }

  lemma RunRowComposes(m: MetricDefinition, groups: seq<SampleGroup>)
    requires Combinable(m) && groups != [] && OneClass(groups)
    requires AllReadAlike(m, Resolve(m, AllSamples(groups)), groups)
    ensures RunRow(m, groups).Ok? && Composes(m.aggregation, RunRow(m, groups).value, OwnRows(m, groups))
  {
    hide RunRow, OwnRows, AllReadAlike, OneClass, ValueSum, LeastValue, GreatestValue, WeightedSum, SpreadSum, Times,
         Resolve, AllSamples;
    CountsAddUp(m, groups);
    if m.aggregation.Sum? || m.aggregation.Count? {
      SumsCompose(m, groups);
    } else if m.aggregation.Mean? || m.aggregation.Ratio? {
      MeansCompose(m, groups);
      SpreadsCompose(m, groups);
    } else {
      ExtremesCompose(m, groups);
    }
  }
}
