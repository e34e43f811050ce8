/** Per-test and per-run aggregate rows of src/freeweight/domain/aggregation.py. */
module Aggregation {
  import opened Measures
  import opened Metrics
  import Ordering
  import Percentiles
  import opened Results
  import opened Roots
  import Strings
  import opened Sums

  datatype MeasurementClass = Cold | Warm | CacheReused | NotApplicable

  datatype Aggregation =
    | Mean | Ratio | Median | P50 | P95 | P99 | Min | Max | Sum | Count | Raw
    | Unknown(name: string)

  /** Where a metric's numbers come from; any other declared source reads the score. */
  datatype Source = Auto | Detail | Score

  datatype MetricDefinition = MetricDefinition(key: string, unit: string, aggregation: Aggregation,
                                               higherIsBetter: bool, source: Source)

  /** A value of a sample's stored detail. */
  datatype DetailValue = Whole(n: int) | Fraction(x: real) | Flag(b: bool) | Other

  /** reported holds what the registered per-sample formulas give for this sample, by metric key; a formula
      that gives no number has no entry. */
  datatype SampleFacts = SampleFacts(completed: bool, score: Option<real>, inputTokens: Option<real>,
                                     outputTokens: Option<real>, reported: map<string, real>,
                                     detail: map<string, DetailValue>)

  datatype SampleGroup = SampleGroup(runTest: Option<nat>, class': MeasurementClass, metrics: seq<MetricDefinition>,
                                     samples: seq<SampleFacts>)

  /** The squares of the sample standard deviation and of the coefficient of variation. */
  datatype Dispersion = Dispersion(variance: Option<real>, variation: Option<real>)

  datatype AggregatedMetric = AggregatedMetric(
    key: string, runTest: Option<nat>, value: Option<real>, reason: Option<Reason>, unit: string,
    aggregation: Aggregation, higherIsBetter: bool, sampleCount: nat, excludedCount: nat,
    dispersion: Dispersion, class': MeasurementClass)

  const SAMPLE_METRICS: set<string> := {
    "prompt_tokens", "output_tokens", "thinking_tokens", "tool_tokens", "output_chars", "output_words",
    "output_bytes", "prompt_eval_ms", "decode_ms", "load_ms", "total_ms", "ttft_ms", "prompt_tokens_per_second",
    "decode_tokens_per_second", "inter_chunk_ms_mean", "inter_chunk_ms_p50", "inter_chunk_ms_p95", "inter_token_ms_mean"}

  const AGGREGATE_METRIC_KEYS: set<string> := {
    "output_tokens_per_success", "total_tokens_per_success", "quality_per_1k_output_tokens",
    "successes_per_million_output_tokens", "effective_context_tokens"}

  predicate Registered(key: string) { key in SAMPLE_METRICS }

  predicate PerSet(key: string) { key in AGGREGATE_METRIC_KEYS }

  // ---------------------------------------------------------------------------------------
  // A metric's contributing values
  // ---------------------------------------------------------------------------------------

  /** The number recorded under a key; a flag is not a number. */
  function DetailNumber(facts: SampleFacts, key: string): Option<real> {
    if key !in facts.detail then None
    else
      match facts.detail[key]
      case Whole(n) => Some(n as real)
      case Fraction(x) => Some(x)
      case _ => None
  }

  datatype Origin = FromFormula | FromDetail | FromScore

  predicate AnyDetail(m: MetricDefinition, samples: seq<SampleFacts>) {
    exists i :: 0 <= i < |samples| && samples[i].completed && DetailNumber(samples[i], m.key).Some?
  }

  /** The group decides where the metric is read from, not the single sample. */
  function Resolve(m: MetricDefinition, samples: seq<SampleFacts>): Origin {
    if m.source == Auto && Registered(m.key) then FromFormula
    else if m.source == Detail || (m.source == Auto && AnyDetail(m, samples)) then FromDetail
    else FromScore
  }

  function Contribution(m: MetricDefinition, origin: Origin, facts: SampleFacts): Option<real> {
    if !facts.completed then None
    else
      match origin
      case FromFormula => if m.key in facts.reported then Some(facts.reported[m.key]) else None
      case FromDetail => DetailNumber(facts, m.key)
      case FromScore => facts.score
  }

  function Values(m: MetricDefinition, origin: Origin, samples: seq<SampleFacts>): (values: seq<real>)
    ensures |values| <= |samples|
  {
    if samples == [] then []
    else
      var front := Values(m, origin, samples[..|samples| - 1]);
      match Contribution(m, origin, samples[|samples| - 1])
      case Some(x) => front + [x]
      case None => front
  }

  method ValuesFor(m: MetricDefinition, samples: seq<SampleFacts>) returns (values: seq<real>, excluded: nat)
    ensures values == Values(m, Resolve(m, samples), samples)
    ensures |values| + excluded == |samples|
  {
    hide Contribution, Resolve;
    var origin := Resolve(m, samples);
    values, excluded := [], 0;
    var i := 0;
    while i < |samples|
      invariant 0 <= i <= |samples|
      invariant values == Values(m, origin, samples[..i]) && |values| + excluded == i
    {
      assert samples[..i + 1][..i] == samples[..i];
      var number := Contribution(m, origin, samples[i]);
      if number.None? {
        excluded := excluded + 1;
      } else {
        values := values + [number.value];
      }
      i := i + 1;
    }
    assert samples[..|samples|] == samples;
  }

  // ---------------------------------------------------------------------------------------
  // Combining
  // ---------------------------------------------------------------------------------------

  function AtPercentile(values: seq<real>, fraction: real): MetricResult
    requires values != [] && 0.0 <= fraction <= 1.0
  {
    Value(Percentiles.Percentile(values, fraction).value)
  }

  function Combine(values: seq<real>, aggregation: Aggregation): Result<MetricResult>
    requires values != []
  {
    match aggregation
    case Unknown(_) => ValueError
    case Raw => Ok(Unavailable(Reason.Raw))
    case Mean => Ok(Value(MeanOf(values)))
    case Ratio => Ok(Value(MeanOf(values)))
    case Median => Ok(AtPercentile(values, 0.5))
    case P50 => Ok(AtPercentile(values, 0.5))
    case P95 => Ok(AtPercentile(values, 0.95))
    case P99 => Ok(AtPercentile(values, 0.99))
    case Min => Ok(Value(Least(values)))
    case Max => Ok(Value(Greatest(values)))
    case Sum => Ok(Value(Total(values)))
    case Count => Ok(Value(|values| as real))
  }

  // ---------------------------------------------------------------------------------------
  // Metrics of a whole set
  // ---------------------------------------------------------------------------------------

  function Completed(samples: seq<SampleFacts>): (kept: seq<SampleFacts>)
    ensures |kept| <= |samples|
    ensures forall i :: 0 <= i < |kept| ==> kept[i].completed
  {
    if samples == [] then []
    else
      var front, last := Completed(samples[..|samples| - 1]), samples[|samples| - 1];
      if last.completed then front + [last] else front
  }

  function Successes(samples: seq<SampleFacts>): nat {
    if samples == [] then 0
    else
      var last := samples[|samples| - 1];
      Successes(samples[..|samples| - 1]) + if last.completed && last.score.Some? && last.score.value > 0.0 then 1 else 0
  }

  function Scores(samples: seq<SampleFacts>): seq<real> {
    if samples == [] then []
    else
      var front, last := Scores(samples[..|samples| - 1]), samples[|samples| - 1];
      if last.score.Some? then front + [last.score.value] else front
  }

  /** The two counts a provider may report. */
  datatype TokenField = InputTokens | OutputTokens

  function TokensOf(facts: SampleFacts, field: TokenField): Option<real> {
    if field.InputTokens? then facts.inputTokens else facts.outputTokens
  }

  /** The counts that were reported. */
  function Counts(samples: seq<SampleFacts>, field: TokenField): (counts: seq<real>)
    ensures |counts| <= |samples|
  {
    if samples == [] then []
    else
      var front, last := Counts(samples[..|samples| - 1], field), TokensOf(samples[|samples| - 1], field);
      if last.Some? then front + [last.value] else front
  }

  /** What was reported, summed; nothing when nothing was. */
  function TotalOf(samples: seq<SampleFacts>, field: TokenField): Option<real> {
    var counts := Counts(samples, field);
    if counts == [] then None else Some(Total(counts))
  }

  function OutputTokensPerSuccess(output: Option<real>, successes: nat): MetricResult {
    if output.None? then Unavailable(NotReported)
    else if successes <= 0 then Unavailable(NoSuccesses)
    else Value(output.value / successes as real)
  }

  function TotalTokensPerSuccess(input: Option<real>, output: Option<real>, successes: nat): MetricResult {
    if input.None? || output.None? then Unavailable(NotReported)
    else if successes <= 0 then Unavailable(NoSuccesses)
    else Value((input.value + output.value) / successes as real)
  }

  function QualityPer1k(meanScore: Option<real>, output: Option<real>): MetricResult {
    if meanScore.None? || output.None? then Unavailable(NotReported)
    else if output.value <= 0.0 then Unavailable(NoOutputTokens)
    else Value(meanScore.value / (output.value / 1000.0))
  }

  function SuccessesPerMillion(successes: nat, output: Option<real>): MetricResult {
    if output.None? then Unavailable(NotReported)
    else if output.value <= 0.0 then Unavailable(NoOutputTokens)
    else Value(successes as real / (output.value / 1000000.0))
  }

  datatype SetResult = SetResult(result: MetricResult, sampleCount: nat, excludedCount: nat)

  function AggregateOnly(m: MetricDefinition, samples: seq<SampleFacts>): Result<SetResult> {
    var completed := Completed(samples);
    var excluded := |samples| - |completed|;
    if m.key == "effective_context_tokens" then EffectiveContext(completed, excluded)
    else
      var successes, output := Successes(completed), TotalOf(completed, OutputTokens);
      var scores := Scores(completed);
      var result :=
        if m.key == "output_tokens_per_success" then OutputTokensPerSuccess(output, successes)
        else if m.key == "total_tokens_per_success" then TotalTokensPerSuccess(TotalOf(completed, InputTokens), output, successes)
        else if m.key == "quality_per_1k_output_tokens" then
          QualityPer1k(if scores == [] then None else Some(MeanOf(scores)), output)
        else SuccessesPerMillion(successes, output);
      Ok(SetResult(result, |completed|, excluded))
  }

  predicate AllReported(samples: seq<SampleFacts>, field: TokenField) {
    forall i :: 0 <= i < |samples| && samples[i].completed ==> TokensOf(samples[i], field).Some?
  }

  lemma {:induction false} CountsOfCompleted(samples: seq<SampleFacts>, field: TokenField)
    ensures |Counts(Completed(samples), field)| <= |Completed(samples)| <= |samples|
    ensures |Counts(Completed(samples), field)| == |Completed(samples)| <==> AllReported(samples, field)
  {
    hide TokensOf;
    if samples != [] {
      var n := |samples| - 1;
      CountsOfCompleted(samples[..n], field);
      assert AllReported(samples, field) <==>
             AllReported(samples[..n], field) && (samples[n].completed ==> TokensOf(samples[n], field).Some?) by {
        assert forall i :: 0 <= i < n ==> samples[..n][i] == samples[i];
      }
      if samples[n].completed {
        assert Completed(samples)[..|Completed(samples)| - 1] == Completed(samples[..n]);
      }
    }
  }

  /** A per-set row's excluded count never exceeds the number of samples absent from a total it is taken over, and is
      that number if and only if every completed sample reported the count totalled. */
  lemma {:induction false} ExcludedAreAbsent(m: MetricDefinition, samples: seq<SampleFacts>, field: TokenField)
    requires PerSet(m.key) && m.key != "effective_context_tokens"
    ensures AggregateOnly(m, samples).Ok?
    ensures var excluded, absent := AggregateOnly(m, samples).value.excludedCount, |samples| - |Counts(Completed(samples), field)|;
            excluded <= absent && (excluded == absent <==> AllReported(samples, field))
  {
    CountsOfCompleted(samples, field);
    hide Completed, Counts, AllReported, PerSet;
  }

  /** Two completed samples, one of which reported no output count: it is absent from the total and not excluded. */
  lemma UnreportedIsNotExcluded(m: MetricDefinition, reported: SampleFacts, silent: SampleFacts, tokens: real)
    requires PerSet(m.key) && m.key != "effective_context_tokens"
    requires reported.completed && reported.outputTokens == Some(tokens)
    requires silent.completed && silent.outputTokens == None
    ensures TotalOf(Completed([reported, silent]), OutputTokens) == Some(tokens)
    ensures AggregateOnly(m, [reported, silent]).Ok?
    ensures AggregateOnly(m, [reported, silent]).value.sampleCount == 2
    ensures AggregateOnly(m, [reported, silent]).value.excludedCount == 0
  {
    var one, two := [reported], [reported, silent];
    assert one[..0] == [] && two[..1] == one;
    assert Completed(one) == one;
    assert Completed(two) == two;
    assert Counts(one, OutputTokens) == [tokens];
    assert Counts(two, OutputTokens) == [tokens];
    TotalOfOne(tokens);
    hide PerSet, Completed, Counts;
  }

  lemma TotalOfOne(x: real)
    ensures Total([x]) == x
  {
    assert [x][..0] == [];
    assert SumOf([x], Ordering.Identity) == SumOf([x][..0], Ordering.Identity) + Ordering.Identity(x);
  }

  // Effective context

  const DEFAULT_THRESHOLD := 0.8

  /** A context length. */
  datatype Context = Context(tokens: int)

  /** The length a sample measured, when it recorded one and was scored. */
  function Length(facts: SampleFacts): Option<Context> {
    if facts.score.Some? && "context_tokens" in facts.detail && facts.detail["context_tokens"].Whole?
    then Some(Context(facts.detail["context_tokens"].n)) else None
  }

  /** The scores at each length, the threshold last declared, and how many samples measured a length. */
  datatype Contexts = Contexts(scores: map<Context, seq<real>>, threshold: real, used: nat)

  function Gather(completed: seq<SampleFacts>): (g: Contexts)
    ensures g.used <= |completed|
    ensures forall l :: l in g.scores ==> g.scores[l] != []
    ensures (forall l :: l !in g.scores) <==> g.used == 0
  {
    if completed == [] then Contexts(map[], DEFAULT_THRESHOLD, 0)
    else
      var front, last := Gather(completed[..|completed| - 1]), completed[|completed| - 1];
      if Length(last).None? then front
      else
        var l := Length(last).value;
        var threshold := if DetailNumber(last, "effective_context_threshold").Some?
                         then DetailNumber(last, "effective_context_threshold").value else front.threshold;
        var before := if l in front.scores then front.scores[l] else [];
        assert l in front.scores[l := before + [last.score.value]];
        Contexts(front.scores[l := before + [last.score.value]], threshold, front.used + 1)
  }

  predicate IsShortest(lengths: set<Context>, l: Context) {
    l in lengths && forall k :: k in lengths ==> l.tokens <= k.tokens
  }

  predicate IsLongest(lengths: set<Context>, l: Context) {
    l in lengths && forall k :: k in lengths ==> k.tokens <= l.tokens
  }

  function EffectiveContext(completed: seq<SampleFacts>, excluded: nat): Result<SetResult> {
    var g := Gather(completed);
    if !(0.0 <= g.threshold <= 1.0) then ValueError
    else Ok(SetResult(EffectiveOf(g.scores, g.threshold), g.used, excluded + (|completed| - g.used)))
  }

  lemma ExtremesExist(lengths: set<Context>)
    requires lengths != {}
    ensures exists l :: IsShortest(lengths, l)
    ensures exists l :: IsLongest(lengths, l)
  {
    var x :| x in lengths;
    if lengths == {x} {
      assert IsShortest(lengths, x) && IsLongest(lengths, x);
    } else {
      var rest := lengths - {x};
      ExtremesExist(rest);
      var l :| IsShortest(rest, l);
      assert IsShortest(lengths, if x.tokens < l.tokens then x else l);
      var h :| IsLongest(rest, h);
      assert IsLongest(lengths, if x.tokens > h.tokens then x else h);
    }
  }

  function Shortest(lengths: set<Context>): (l: Context)
    requires lengths != {}
    ensures IsShortest(lengths, l)
  {
    ExtremesExist(lengths);
    var l :| IsShortest(lengths, l);
    l
  }

  function Longest(lengths: set<Context>): (l: Context)
    requires lengths != {}
    ensures IsLongest(lengths, l)
  {
    ExtremesExist(lengths);
    var l :| IsLongest(lengths, l);
    l
  }

  function Clearing(scores: map<Context, seq<real>>, bar: real): set<Context>
    requires forall l :: l in scores ==> scores[l] != []
  {
    set l | l in scores && MeanOf(scores[l]) >= bar
  }

  function EffectiveOf(scores: map<Context, seq<real>>, threshold: real): MetricResult
    requires forall l :: l in scores ==> scores[l] != []
  {
    if scores == map[] then Unavailable(NoContextObservations)
    else
      var baseline := MeanOf(scores[Shortest(scores.Keys)]);
      if baseline <= 0.0 then Unavailable(NoContextBaseline)
      else
        var passing := Clearing(scores, baseline * threshold);
        if passing == {} then Unavailable(NoContextBaseline) else Value(Longest(passing).tokens as real)
  }

  /** The figure is this length: its accuracy clears the bar and no longer length's does. */
  predicate Means(scores: map<Context, seq<real>>, l: Context, bar: real, figure: real)
    requires forall k :: k in scores ==> scores[k] != []
  {
    && l in scores
    && figure == l.tokens as real
    && MeanOf(scores[l]) >= bar
    && forall k :: k in scores && k.tokens > l.tokens ==> MeanOf(scores[k]) < bar
  }

  predicate LastToClear(scores: map<Context, seq<real>>, bar: real, figure: real)
    requires forall k :: k in scores ==> scores[k] != []
  {
    exists l :: l in scores && Means(scores, l, bar, figure)
  }

  lemma BarBelow(baseline: real, threshold: real)
    requires 0.0 <= threshold <= 1.0
    ensures baseline > 0.0 ==> baseline * threshold <= baseline
  {
    if baseline > 0.0 {
      NonNegativeProduct(baseline, 1.0 - threshold);
    }
  }

  /** Beside a baseline that is not positive, the figure is missing only where no length clears the bar. */
  lemma EffectiveIs(scores: map<Context, seq<real>>, threshold: real)
    requires (forall l :: l in scores ==> scores[l] != []) && scores != map[]
    ensures var baseline := MeanOf(scores[Shortest(scores.Keys)]);
            EffectiveOf(scores, threshold) ==
            if baseline <= 0.0 || Clearing(scores, baseline * threshold) == {} then Unavailable(NoContextBaseline)
            else Value(Longest(Clearing(scores, baseline * threshold)).tokens as real)
  {
    hide MeanOf;
  }

  /** Where some length clears the bar, the longest that does is the last to. */
  lemma LongestClears(scores: map<Context, seq<real>>, bar: real, one: Context)
    requires forall l :: l in scores ==> scores[l] != []
    requires one in scores && MeanOf(scores[one]) >= bar
    ensures Clearing(scores, bar) != {} && LastToClear(scores, bar, Longest(Clearing(scores, bar)).tokens as real)
  {
    hide MeanOf;
    assert one in Clearing(scores, bar);
    var l := Longest(Clearing(scores, bar));
    assert l in Clearing(scores, bar);
    forall k | k in scores && k.tokens > l.tokens ensures MeanOf(scores[k]) < bar {
      assert k !in Clearing(scores, bar);
    }
    assert Means(scores, l, bar, l.tokens as real);
  }

  /** The shortest length always clears its own threshold: no baseline is the only refusal beside no length, and
      otherwise the figure is the longest tested length whose accuracy keeps the declared share of the shortest's. */
  lemma EffectiveFromScores(scores: map<Context, seq<real>>, threshold: real, baseline: real, bar: real)
    requires forall l :: l in scores ==> scores[l] != []
    requires 0.0 <= threshold <= 1.0 && scores != map[]
    requires baseline == MeanOf(scores[Shortest(scores.Keys)]) && bar == baseline * threshold
    ensures var result := EffectiveOf(scores, threshold);
            && (result.Value? <==> baseline > 0.0)
            && (result.Unavailable? ==> result.reason == NoContextBaseline)
            && (result.Value? ==> LastToClear(scores, bar, result.value))
  {
    hide MeanOf, Means, LastToClear, EffectiveOf;
    BarBelow(baseline, threshold);
    EffectiveIs(scores, threshold);
    if baseline > 0.0 {
      LongestClears(scores, bar, Shortest(scores.Keys));
    }
  }

  // ---------------------------------------------------------------------------------------
  // Rows
  // ---------------------------------------------------------------------------------------

  /** How the values spread: not at all known for fewer than two, and relative to the mean only where that is positive. */
  function DispersionOf(values: seq<real>): Dispersion {
    if |values| < 2 then Dispersion(None, None)
    else
      var mean, variance := MeanOf(values), Variance(values);
      Dispersion(Some(variance), if mean > 0.0 then Some(Relative(variance, mean)) else None)
  }

  function Relative(variance: real, mean: real): real
    requires mean > 0.0
  {
    variance / mean / mean
  }

  /** A spread is known from two values on, is never negative and zero only where all values are the same; relative to
      the mean it is known only for a positive one. */
  lemma DispersionMeans(values: seq<real>)
    ensures var spread := DispersionOf(values);
            && (spread.variance.Some? <==> |values| >= 2)
            && (spread.variation.Some? <==> |values| >= 2 && MeanOf(values) > 0.0)
            && (spread.variance.Some? ==> spread.variance.value >= 0.0)
            && (spread.variance == Some(0.0) <==> |values| >= 2 && forall i :: 0 <= i < |values| ==> values[i] == values[0])
            && (spread.variation.Some? ==> spread.variation.value * MeanOf(values) * MeanOf(values) == spread.variance.value)
  {
    hide MeanOf, Variance;
    if |values| >= 2 {
      VarianceMeans(values);
      if MeanOf(values) > 0.0 {
        RelativeScales(Variance(values), MeanOf(values), Relative(Variance(values), MeanOf(values)));
      }
    }
  }

  /** _dispersion: the standard deviation and the coefficient of variation a row is reported with. */
  function Reported(values: seq<real>, root: real -> real): (Option<real>, Option<real>) {
    if |values| < 2 then (None, None)
    else
      var mean, deviation := MeanOf(values), root(Variance(values));
      (Some(deviation), if mean > 0.0 then Some(deviation / mean) else None)
  }

  function Rooted(square: Option<real>, root: real -> real): Option<real> {
    if square.None? then None else Some(root(square.value))
  }

  /** They are the roots of what a row is modelled with. */
  lemma ReportedIsRooted(values: seq<real>, root: real -> real)
    requires IsSquareRoot(root)
    ensures Reported(values, root) == (Rooted(DispersionOf(values).variance, root), Rooted(DispersionOf(values).variation, root))
  {
    hide MeanOf, Variance, Relative, IsSquareRoot;
    if |values| >= 2 && MeanOf(values) > 0.0 {
      VarianceMeans(values);
      RootOfRelative(Variance(values), MeanOf(values), root);
    }
  }

  lemma RootOfRelative(variance: real, mean: real, root: real -> real)
    requires IsSquareRoot(root) && variance >= 0.0 && mean > 0.0
    ensures root(Relative(variance, mean)) == root(variance) / mean
  {
    var whole, part := root(variance), root(Relative(variance, mean));
    RelativeScales(variance, mean, Relative(variance, mean));
    RelativeSign(variance, mean);
    NonNegativeProduct(part, mean);
    SquareOfProduct(part, mean);
    hide Relative, Sq;
    SquareOrder(part * mean, whole);
    SquareOrder(whole, part * mean);
    DividedBack(part, mean, whole);
  }

  lemma RelativeSign(variance: real, mean: real)
    requires variance >= 0.0 && mean > 0.0
    ensures Relative(variance, mean) >= 0.0
  {
  }

  lemma SquareOfProduct(x: real, y: real)
    ensures Sq(x * y) == Sq(x) * y * y
  {
  }

  lemma DividedBack(x: real, y: real, z: real)
    requires y != 0.0 && x * y == z
    ensures x == z / y
  {
  }

  lemma RelativeScales(variance: real, mean: real, relative: real)
    requires mean > 0.0 && relative == Relative(variance, mean)
    ensures relative * mean * mean == variance
  {
    var once := variance / mean;
    assert once / mean == relative;
  }

  function Row(m: MetricDefinition, result: MetricResult, runTest: Option<nat>, class': MeasurementClass,
               sampleCount: nat, excludedCount: nat, values: seq<real>): AggregatedMetric
  {
    AggregatedMetric(m.key, runTest, if result.Value? then Some(result.value) else None,
                     if result.Unavailable? then Some(result.reason) else None,
                     m.unit, m.aggregation, m.higherIsBetter, sampleCount, excludedCount, DispersionOf(values), class')
  }

  /** One declared metric of one group; a ValueError where an aggregation or a threshold is not one. */
  function RowFor(m: MetricDefinition, g: SampleGroup): Result<AggregatedMetric> {
    if PerSet(m.key) then
      var only := AggregateOnly(m, g.samples);
      if only.ValueError? then ValueError
      else Ok(Row(m, only.value.result, g.runTest, g.class', only.value.sampleCount, only.value.excludedCount, []))
    else
      var values := Values(m, Resolve(m, g.samples), g.samples);
      var result := if values == [] then Ok(Unavailable(NoSamples)) else Combine(values, m.aggregation);
      if result.ValueError? then ValueError
      else Ok(Row(m, result.value, g.runTest, g.class', |values|, |g.samples| - |values|, values))
  }

  function RowsFor(metrics: seq<MetricDefinition>, g: SampleGroup): Result<seq<AggregatedMetric>> {
    if metrics == [] then Ok([])
    else
      var front, last := RowsFor(metrics[..|metrics| - 1], g), RowFor(metrics[|metrics| - 1], g);
      if front.ValueError? || last.ValueError? then ValueError else Ok(front.value + [last.value])
  }

  method AggregateTest(g: SampleGroup) returns (rows: Result<seq<AggregatedMetric>>)
    ensures rows == RowsFor(g.metrics, g)
  {
    hide RowFor;
    rows := Ok([]);
    var i := 0;
    while i < |g.metrics|
      invariant 0 <= i <= |g.metrics|
      invariant rows == RowsFor(g.metrics[..i], g)
    {
      assert g.metrics[..i + 1][..i] == g.metrics[..i];
      if rows.Ok? {
        var row := OneRow(g.metrics[i], g);
        rows := if row.ValueError? then ValueError else Ok(rows.value + [row.value]);
      }
      i := i + 1;
    }
    assert g.metrics[..|g.metrics|] == g.metrics;
  }

  method OneRow(m: MetricDefinition, g: SampleGroup) returns (row: Result<AggregatedMetric>)
    ensures row == RowFor(m, g)
  {
    hide AggregateOnly, Values, Resolve, Combine, PerSet;
    if PerSet(m.key) {
      var only := AggregateOnly(m, g.samples);
      return if only.ValueError? then ValueError
             else Ok(Row(m, only.value.result, g.runTest, g.class', only.value.sampleCount, only.value.excludedCount, []));
    }
    var values, excluded := ValuesFor(m, g.samples);
    var result := if values == [] then Ok(Unavailable(NoSamples)) else Combine(values, m.aggregation);
    row := if result.ValueError? then ValueError else Ok(Row(m, result.value, g.runTest, g.class', |values|, excluded, values));
  }

  /** Every row accounts for each sample once and carries exactly one of a value and a reason. */
  lemma RowAccounts(m: MetricDefinition, g: SampleGroup)
    requires RowFor(m, g).Ok?
    ensures var row := RowFor(m, g).value;
            row.sampleCount + row.excludedCount == |g.samples| && (row.value.Some? <==> row.reason.None?)
  {
    hide Values, Combine, Completed, Gather, EffectiveOf;
  }

  // ---------------------------------------------------------------------------------------
  // A whole run
  // ---------------------------------------------------------------------------------------

  /** The groups that declare a key, once for each time they declare it. */
  function Contributors(groups: seq<SampleGroup>, key: string): seq<SampleGroup> {
    if groups == [] then []
    else
      var last := groups[|groups| - 1];
      Contributors(groups[..|groups| - 1], key) + Declared(last.metrics, last, key)
  }

  function Declared(metrics: seq<MetricDefinition>, g: SampleGroup, key: string): seq<SampleGroup> {
    if metrics == [] then []
    else
      var front := Declared(metrics[..|metrics| - 1], g, key);
      if metrics[|metrics| - 1].key == key then front + [g] else front
  }

  /** The definition first declared for a key. */
  function Definition(groups: seq<SampleGroup>, key: string): Option<MetricDefinition> {
    if groups == [] then None
    else
      var front := Definition(groups[..|groups| - 1], key);
      if front.Some? then front else FirstOf(groups[|groups| - 1].metrics, key)
  }

  function FirstOf(metrics: seq<MetricDefinition>, key: string): Option<MetricDefinition> {
    if metrics == [] then None
    else
      var front := FirstOf(metrics[..|metrics| - 1], key);
      if front.Some? then front
      else if metrics[|metrics| - 1].key == key then Some(metrics[|metrics| - 1]) else None
  }

  function AllSamples(groups: seq<SampleGroup>): seq<SampleFacts> {
    if groups == [] then [] else AllSamples(groups[..|groups| - 1]) + groups[|groups| - 1].samples
  }

  predicate OneClass(groups: seq<SampleGroup>) {
    forall i :: 0 <= i < |groups| ==> groups[i].class' == groups[0].class'
  }

  /** The run-level row of one key. */
  function RunRow(m: MetricDefinition, contributors: seq<SampleGroup>): Result<AggregatedMetric>
    requires contributors != []
  {
    var samples := AllSamples(contributors);
    if !OneClass(contributors) then
      var completed := |Completed(samples)|;
      Ok(Row(m, Unavailable(MixedClasses), None, NotApplicable, completed, |samples| - completed, []))
    else RowFor(m, SampleGroup(None, contributors[0].class', [m], samples))
  }

  /** A run-level row accounts for every sample of its contributors, carries exactly one of a value and a reason,
      and has a value only if they share one measurement class. */
  lemma RunRowAccounts(m: MetricDefinition, contributors: seq<SampleGroup>)
    requires contributors != [] && RunRow(m, contributors).Ok?
    ensures var row := RunRow(m, contributors).value;
            && row.sampleCount + row.excludedCount == |AllSamples(contributors)|
            && (row.value.Some? <==> row.reason.None?)
            && row.runTest == None
            && (row.value.Some? ==> OneClass(contributors) && row.class' == contributors[0].class')
            && (!OneClass(contributors) ==> row.reason == Some(MixedClasses))
  {
    hide RowFor, Completed, OneClass;
    if OneClass(contributors) {
      var merged := SampleGroup(None, contributors[0].class', [m], AllSamples(contributors));
      RowAccounts(m, merged);
      RowIsNamed(m, merged);
    }
  }

  lemma RowIsNamed(m: MetricDefinition, g: SampleGroup)
    requires RowFor(m, g).Ok?
    ensures RowFor(m, g).value.runTest == g.runTest && RowFor(m, g).value.class' == g.class' && RowFor(m, g).value.key == m.key
  {
    hide Values, Combine, AggregateOnly, Resolve, PerSet;
  }

  // ---------------------------------------------------------------------------------------
  // The whole list of rows
  // ---------------------------------------------------------------------------------------

  function TestRows(groups: seq<SampleGroup>): Result<seq<AggregatedMetric>> {
    if groups == [] then Ok([])
    else
      var last := groups[|groups| - 1];
      var front, rows := TestRows(groups[..|groups| - 1]), RowsFor(last.metrics, last);
      if front.ValueError? || rows.ValueError? then ValueError else Ok(front.value + rows.value)
  }

  function Keys(groups: seq<SampleGroup>): set<string> {
    if groups == [] then {} else Keys(groups[..|groups| - 1]) + KeysOf(groups[|groups| - 1].metrics)
  }

  function KeysOf(metrics: seq<MetricDefinition>): set<string> {
    if metrics == [] then {} else KeysOf(metrics[..|metrics| - 1]) + {metrics[|metrics| - 1].key}
  }

  /** A declared key has contributors and a definition of that key. */
  lemma {:induction false} KeyIsDeclared(groups: seq<SampleGroup>, key: string)
    requires key in Keys(groups)
    ensures Contributors(groups, key) != []
    ensures Definition(groups, key).Some? && Definition(groups, key).value.key == key
  {
    var last := groups[|groups| - 1];
    FirstIsOfKey(last.metrics, last, key);
    if key in Keys(groups[..|groups| - 1]) {
      KeyIsDeclared(groups[..|groups| - 1], key);
    } else {
      DefinitionNamed(groups[..|groups| - 1], key);
    }
  }

  lemma {:induction false} FirstIsOfKey(metrics: seq<MetricDefinition>, g: SampleGroup, key: string)
    ensures FirstOf(metrics, key).Some? ==> FirstOf(metrics, key).value.key == key
    ensures key in KeysOf(metrics) <==> FirstOf(metrics, key).Some?
    ensures key in KeysOf(metrics) ==> Declared(metrics, g, key) != []
  {
    if metrics != [] {
      FirstIsOfKey(metrics[..|metrics| - 1], g, key);
    }
  }

  lemma {:induction false} DefinitionNamed(groups: seq<SampleGroup>, key: string)
    ensures Definition(groups, key).Some? ==> Definition(groups, key).value.key == key
  {
    if groups != [] {
      DefinitionNamed(groups[..|groups| - 1], key);
      FirstIsOfKey(groups[|groups| - 1].metrics, groups[|groups| - 1], key);
    }
  }

  function RunRowOf(groups: seq<SampleGroup>, key: string): Result<AggregatedMetric>
    requires key in Keys(groups)
  {
    KeyIsDeclared(groups, key);
    RunRow(Definition(groups, key).value, Contributors(groups, key))
  }

  function RunRows(groups: seq<SampleGroup>, keys: seq<string>): Result<seq<AggregatedMetric>>
    requires forall i :: 0 <= i < |keys| ==> keys[i] in Keys(groups)
  {
    if keys == [] then Ok([])
    else
      var front, row := RunRows(groups, keys[..|keys| - 1]), RunRowOf(groups, keys[|keys| - 1]);
      if front.ValueError? || row.ValueError? then ValueError else Ok(front.value + [row.value])
  }

  /** Every test's rows, then one row per key, the keys in order. */
  ghost function AllRows(groups: seq<SampleGroup>): Result<seq<AggregatedMetric>> {
    var keys := Strings.SortedKeys(Keys(groups));
    assert forall i :: 0 <= i < |keys| ==> keys[i] in keys;
    Joined(TestRows(groups), RunRows(groups, keys))
  }

  method AggregateRun(groups: seq<SampleGroup>) returns (rows: Result<seq<AggregatedMetric>>)
    ensures rows == AllRows(groups)
  {
    hide TestRows, Keys, Joined, RunRows, Indexes;
    var tests := AllTestRows(groups);
    var byKey, definitions := Index(groups);
    var keys := Strings.Sorted(byKey.Keys);
    forall k | 0 <= k < |keys| ensures keys[k] in Keys(groups) {
      assert keys[k] in keys;
    }
    rows := AllRunRows(groups, keys, byKey, definitions, tests);
  }

  method AllRunRows(ghost groups: seq<SampleGroup>, keys: seq<string>, byKey: map<string, seq<SampleGroup>>,
                    definitions: map<string, MetricDefinition>, tests: Result<seq<AggregatedMetric>>)
    returns (rows: Result<seq<AggregatedMetric>>)
    requires byKey.Keys == Keys(groups) && Indexes(groups, byKey, definitions) && AllDeclared(groups, keys)
    ensures rows == Joined(tests, RunRows(groups, keys))
  {
    hide RunRowOf, RunRows, Keys, Joined, One, Indexes;
    rows := tests;
    NoRunRows(groups);
    JoinedNothing(tests);
    assert keys[..0] == [];
    var i := 0;
    while i < |keys|
      invariant 0 <= i <= |keys|
      invariant rows == Joined(tests, RunRows(groups, keys[..i]))
    {
      RunRowAppended(groups, keys, i, tests);
      var row := OneRunRow(groups, keys[i], byKey, definitions);
      rows := Joined(rows, One(row));
      i := i + 1;
    }
    assert keys[..|keys|] == keys;
  }

  method AllTestRows(groups: seq<SampleGroup>) returns (rows: Result<seq<AggregatedMetric>>)
    ensures rows == TestRows(groups)
  {
    hide RowsFor;
    rows := Ok([]);
    var i := 0;
    while i < |groups|
      invariant 0 <= i <= |groups|
      invariant rows == TestRows(groups[..i])
    {
      assert groups[..i + 1][..i] == groups[..i];
      var own := AggregateTest(groups[i]);
      rows := Joined(rows, own);
      i := i + 1;
    }
    assert groups[..|groups|] == groups;
  }

  /** Both lists one after the other, unless either raised. */
  function Joined(a: Result<seq<AggregatedMetric>>, b: Result<seq<AggregatedMetric>>): Result<seq<AggregatedMetric>> {
    if a.ValueError? || b.ValueError? then ValueError else Ok(a.value + b.value)
  }

  lemma JoinedNothing(a: Result<seq<AggregatedMetric>>)
    ensures Joined(a, Ok([])) == a
  {
    if a.Ok? {
      assert a.value + [] == a.value;
    }
  }

  lemma JoinedAssociates(a: Result<seq<AggregatedMetric>>, b: Result<seq<AggregatedMetric>>, c: Result<seq<AggregatedMetric>>)
    ensures Joined(Joined(a, b), c) == Joined(a, Joined(b, c))
  {
    if a.Ok? && b.Ok? && c.Ok? {
      assert a.value + b.value + c.value == a.value + (b.value + c.value);
    }
  }

  predicate AllDeclared(groups: seq<SampleGroup>, keys: seq<string>) {
    forall i :: 0 <= i < |keys| ==> keys[i] in Keys(groups)
  }

  function One(row: Result<AggregatedMetric>): Result<seq<AggregatedMetric>> {
    if row.ValueError? then ValueError else Ok([row.value])
  }

  lemma RunRowAppended(groups: seq<SampleGroup>, keys: seq<string>, i: nat, tests: Result<seq<AggregatedMetric>>)
    requires AllDeclared(groups, keys) && i < |keys|
    ensures Joined(tests, RunRows(groups, keys[..i + 1])) ==
            Joined(Joined(tests, RunRows(groups, keys[..i])), One(RunRowOf(groups, keys[i])))
  {
    RunRowsStep(groups, keys, i);
    hide Joined, RunRows, RunRowOf, Keys;
    JoinedAssociates(tests, RunRows(groups, keys[..i]), One(RunRowOf(groups, keys[i])));
  }

  lemma NoRunRows(groups: seq<SampleGroup>)
    ensures RunRows(groups, []) == Ok([])
  {
  }

  lemma RunRowsStep(groups: seq<SampleGroup>, keys: seq<string>, i: nat)
    requires AllDeclared(groups, keys) && i < |keys|
    ensures var row := RunRowOf(groups, keys[i]);
            RunRows(groups, keys[..i + 1]) ==
            Joined(RunRows(groups, keys[..i]), if row.ValueError? then ValueError else Ok([row.value]))
  {
    hide RunRowOf, Keys;
    assert keys[..i + 1][..i] == keys[..i];
  }

  /** Every key's contributors and first definition. */
  ghost predicate Indexes(groups: seq<SampleGroup>, byKey: map<string, seq<SampleGroup>>, definitions: map<string, MetricDefinition>) {
    forall k :: k in byKey ==>
      k in definitions && byKey[k] == Contributors(groups, k) && Some(definitions[k]) == Definition(groups, k)
  }

  method OneRunRow(ghost groups: seq<SampleGroup>, key: string, byKey: map<string, seq<SampleGroup>>,
                   definitions: map<string, MetricDefinition>)
    returns (row: Result<AggregatedMetric>)
    requires key in Keys(groups) && key in byKey && Indexes(groups, byKey, definitions)
    ensures row == RunRowOf(groups, key)
  {
    KeyIsDeclared(groups, key);
    hide RowFor, Completed, Keys, Contributors, Definition;
    row := RunRow(definitions[key], byKey[key]);
  }

  /** by_key and definitions, filled declaration by declaration. */
  method Index(groups: seq<SampleGroup>)
    returns (byKey: map<string, seq<SampleGroup>>, definitions: map<string, MetricDefinition>)
    ensures byKey.Keys == Keys(groups) && Indexes(groups, byKey, definitions)
  {
    byKey, definitions := map[], map[];
    var i := 0;
    while i < |groups|
      invariant 0 <= i <= |groups|
      invariant byKey.Keys == definitions.Keys == Keys(groups[..i])
      invariant forall k :: Listed(byKey, k) == Contributors(groups[..i], k)
      invariant forall k :: Defined(definitions, k) == Definition(groups[..i], k)
    {
      assert groups[..i + 1][..i] == groups[..i];
      byKey := ListGroup(groups[..i], groups[i], byKey);
      definitions := DefineGroup(groups[..i], groups[i], definitions);
      i := i + 1;
    }
    assert groups[..|groups|] == groups;
    forall k | k in byKey
      ensures k in definitions && byKey[k] == Contributors(groups, k) && Some(definitions[k]) == Definition(groups, k)
    {
      assert Listed(byKey, k) == byKey[k] && Defined(definitions, k) == Some(definitions[k]);
    }
  }

  function Listed(byKey: map<string, seq<SampleGroup>>, k: string): seq<SampleGroup> {
    if k in byKey then byKey[k] else []
  }

  function Defined(definitions: map<string, MetricDefinition>, k: string): Option<MetricDefinition> {
    if k in definitions then Some(definitions[k]) else None
  }

  lemma OneMoreGroup(groups: seq<SampleGroup>, g: SampleGroup)
    ensures Keys(groups + [g]) == Keys(groups) + KeysOf(g.metrics)
    ensures forall k :: Contributors(groups + [g], k) == Contributors(groups, k) + Declared(g.metrics, g, k)
    ensures forall k :: Definition(groups + [g], k) == Earlier(Definition(groups, k), FirstOf(g.metrics, k))
  {
    hide KeysOf, Declared, FirstOf;
    assert (groups + [g])[..|groups|] == groups;
  }

  lemma OneMoreMetric(metrics: seq<MetricDefinition>, g: SampleGroup, j: nat)
    requires j < |metrics|
    ensures KeysOf(metrics[..j + 1]) == KeysOf(metrics[..j]) + {metrics[j].key}
    ensures forall k :: Declared(metrics[..j + 1], g, k) == Declared(metrics[..j], g, k) + if metrics[j].key == k then [g] else []
    ensures forall k :: FirstOf(metrics[..j + 1], k) == Earlier(FirstOf(metrics[..j], k), FirstOf([metrics[j]], k))
  {
    assert metrics[..j + 1][..j] == metrics[..j];
    assert [metrics[j]][..0] == [];
  }

  lemma ListedGrows(byKey: map<string, seq<SampleGroup>>, key: string, g: SampleGroup, k: string)
    ensures Listed(byKey[key := Listed(byKey, key) + [g]], k) == Listed(byKey, k) + if key == k then [g] else []
  {
  }

  lemma AppendOne<T>(a: seq<T>, b: seq<T>, c: seq<T>)
    ensures a + b + c == a + (b + c)
  {
  }

  method ListGroup(ghost groups: seq<SampleGroup>, g: SampleGroup, byKey: map<string, seq<SampleGroup>>)
    returns (byKey': map<string, seq<SampleGroup>>)
    requires byKey.Keys == Keys(groups) && forall k :: Listed(byKey, k) == Contributors(groups, k)
    ensures byKey'.Keys == Keys(groups + [g]) && forall k :: Listed(byKey', k) == Contributors(groups + [g], k)
  {
    OneMoreGroup(groups, g);
    hide Keys, KeysOf, Contributors, Declared, Definition, FirstOf;
    byKey' := byKey;
    var j := 0;
    NoMetric(g);
    assert g.metrics[..0] == [];
    while j < |g.metrics|
      invariant 0 <= j <= |g.metrics|
      invariant byKey'.Keys == Keys(groups) + KeysOf(g.metrics[..j])
      invariant forall k :: Listed(byKey', k) == Contributors(groups, k) + Declared(g.metrics[..j], g, k)
    {
      OneMoreMetric(g.metrics, g, j);
      var key := g.metrics[j].key;
      ghost var before := byKey';
      byKey' := byKey'[key := Listed(byKey', key) + [g]];
      forall k ensures Listed(byKey', k) == Contributors(groups, k) + Declared(g.metrics[..j + 1], g, k) {
        ListedGrows(before, key, g, k);
        AppendOne(Contributors(groups, k), Declared(g.metrics[..j], g, k), if key == k then [g] else []);
      }
      j := j + 1;
    }
    assert g.metrics[..|g.metrics|] == g.metrics;
  }

  lemma FirstOfOne(m: MetricDefinition)
    ensures forall k :: FirstOf([m], k) == if m.key == k then Some(m) else None
  {
    assert [m][..0] == [];
  }

  lemma NoMetric(g: SampleGroup)
    ensures KeysOf([]) == {} && forall k :: Declared([], g, k) == [] && FirstOf([], k) == None
  {
  }

  method DefineGroup(ghost groups: seq<SampleGroup>, g: SampleGroup, definitions: map<string, MetricDefinition>)
    returns (definitions': map<string, MetricDefinition>)
    requires definitions.Keys == Keys(groups) && forall k :: Defined(definitions, k) == Definition(groups, k)
    ensures definitions'.Keys == Keys(groups + [g]) && forall k :: Defined(definitions', k) == Definition(groups + [g], k)
  {
    OneMoreGroup(groups, g);
    hide Keys, KeysOf, Contributors, Declared, Definition, FirstOf;
    definitions' := definitions;
    var j := 0;
    NoMetric(g);
    assert g.metrics[..0] == [];
    while j < |g.metrics|
      invariant 0 <= j <= |g.metrics|
      invariant definitions'.Keys == Keys(groups) + KeysOf(g.metrics[..j])
      invariant forall k :: Defined(definitions', k) == Earlier(Definition(groups, k), FirstOf(g.metrics[..j], k))
    {
      OneMoreMetric(g.metrics, g, j);
      FirstOfOne(g.metrics[j]);
      if g.metrics[j].key !in definitions' {
        definitions' := definitions'[g.metrics[j].key := g.metrics[j]];
      }
      j := j + 1;
    }
    assert g.metrics[..|g.metrics|] == g.metrics;
  }

  function Earlier(a: Option<MetricDefinition>, b: Option<MetricDefinition>): Option<MetricDefinition> {
    if a.Some? then a else b
  }
}
