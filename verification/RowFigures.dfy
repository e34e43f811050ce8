/** What stands in an aggregate row, in terms of the samples: src/freeweight/domain/aggregation.py. */
module RowFigures {
  import opened Aggregation
  import opened EffectiveContexts
  import opened Measures
  import opened Metrics
  import opened Ordering
  import opened Percentiles
  import opened Results
  import opened Roots
  import opened Sums

  // ---------------------------------------------------------------------------------------
  // The values of a metric
  // ---------------------------------------------------------------------------------------

  /** The number a completed sample's detail holds under a key. */
  predicate Records(f: SampleFacts, key: string, x: real) {
    f.completed && key in f.detail && IsNumber(f.detail[key], x)
  }

  predicate RecordsAny(f: SampleFacts, key: string) {
    f.completed && key in f.detail && (f.detail[key].Whole? || f.detail[key].Fraction?)
  }

  /** The number a sample gives for a metric. Reading automatically, a registered key is read from its formula and any
      other from the details of the group if one of them holds such a number; the score serves where neither does. */
  predicate Gives(m: MetricDefinition, samples: seq<SampleFacts>, i: nat, x: real)
    requires i < |samples|
  {
    var f := samples[i];
    match m.source
    case Detail => Records(f, m.key, x)
    case Score => f.completed && f.score == Some(x)
    case Auto =>
      if m.key in SAMPLE_METRICS then f.completed && m.key in f.reported && f.reported[m.key] == x
      else if exists j :: 0 <= j < |samples| && RecordsAny(samples[j], m.key) then Records(f, m.key, x)
      else f.completed && f.score == Some(x)
  }

  lemma NumberIs(f: SampleFacts, key: string, x: real)
    ensures f.completed ==> (DetailNumber(f, key) == Some(x) <==> Records(f, key, x))
    ensures f.completed && DetailNumber(f, key).Some? <==> RecordsAny(f, key)
  {
  }

  lemma DetailsAre(m: MetricDefinition, samples: seq<SampleFacts>)
    ensures AnyDetail(m, samples) <==> exists j :: 0 <= j < |samples| && RecordsAny(samples[j], m.key)
  {
    hide DetailNumber, RecordsAny;
    forall j: nat | j < |samples| ensures samples[j].completed && DetailNumber(samples[j], m.key).Some? <==>
        RecordsAny(samples[j], m.key) {
      NumberIs(samples[j], m.key, 0.0);
    }
  }

  lemma ContributionIs(m: MetricDefinition, samples: seq<SampleFacts>, i: nat, x: real)
    requires i < |samples|
    ensures Contribution(m, Resolve(m, samples), samples[i]) == Some(x) <==> Gives(m, samples, i, x)
  {
    hide DetailNumber, AnyDetail, RecordsAny, IsNumber;
    DetailsAre(m, samples);
    NumberIs(samples[i], m.key, x);
  }

  predicate Rising(places: seq<nat>, n: nat) {
    && (forall k :: 0 <= k < |places| ==> places[k] < n)
    && (forall j, k :: 0 <= j < k < |places| ==> places[j] < places[k])
  }

  /** The values are those the samples at these places contribute. */
  predicate At(m: MetricDefinition, origin: Origin, samples: seq<SampleFacts>, places: seq<nat>, values: seq<real>)
    requires Rising(places, |samples|)
  {
    |places| == |values| && forall k :: 0 <= k < |places| ==> Contribution(m, origin, samples[places[k]]) == Some(values[k])
  }

  predicate NoneElsewhere(m: MetricDefinition, origin: Origin, samples: seq<SampleFacts>, places: seq<nat>) {
    forall i: nat :: i < |samples| && Contribution(m, origin, samples[i]).Some? ==> i in places
  }

  lemma ValuesStep(m: MetricDefinition, origin: Origin, samples: seq<SampleFacts>, x: Option<real>)
    requires samples != [] && x == Contribution(m, origin, samples[|samples| - 1])
    ensures var front := Values(m, origin, samples[..|samples| - 1]);
            Values(m, origin, samples) == if x.Some? then front + [x.value] else front
  {
    hide Contribution;
  }

  lemma RisingMore(front: seq<nat>, n: nat)
    requires Rising(front, n)
    ensures Rising(front, n + 1) && Rising(front + [n], n + 1)
  {
  }

  lemma AtOneMore(m: MetricDefinition, origin: Origin, samples: seq<SampleFacts>, n: nat, front: seq<nat>, values: seq<real>)
    requires n + 1 == |samples| && Rising(front, n) && At(m, origin, samples[..n], front, values)
    ensures Rising(front, n + 1) && At(m, origin, samples, front, values)
    ensures var x := Contribution(m, origin, samples[n]);
            x.Some? ==> Rising(front + [n], n + 1) && At(m, origin, samples, front + [n], values + [x.value])
  {
    RisingMore(front, n);
    assert forall k :: 0 <= k < |front| ==> front[k] < n;
    hide Contribution, Rising;
    assert forall k :: 0 <= k < |front| ==> samples[..n][front[k]] == samples[front[k]];
  }

  lemma NoneMore(m: MetricDefinition, origin: Origin, samples: seq<SampleFacts>, n: nat, front: seq<nat>,
      places: seq<nat>, x: Option<real>)
    requires n + 1 == |samples| && x == Contribution(m, origin, samples[n])
    requires NoneElsewhere(m, origin, samples[..n], front)
    requires places == if x.Some? then front + [n] else front
    ensures NoneElsewhere(m, origin, samples, places)
  {
    hide Contribution;
    forall i: nat | i < |samples| && Contribution(m, origin, samples[i]).Some? ensures i in places {
      if i < n {
        assert samples[..n][i] == samples[i];
        assert i in front;
      }
    }
  }

  lemma {:induction false} ContributorsExist(m: MetricDefinition, origin: Origin, samples: seq<SampleFacts>) returns (places: seq<nat>)
    ensures Rising(places, |samples|) && At(m, origin, samples, places, Values(m, origin, samples))
    ensures NoneElsewhere(m, origin, samples, places)
  {
    hide Contribution;
    if samples == [] {
      places := [];
    } else {
      hide *;
      var n: nat := |samples| - 1;
      var front := ContributorsExist(m, origin, samples[..n]);
      var x := Contribution(m, origin, samples[n]);
      places := if x.Some? then front + [n] else front;
      ValuesStep(m, origin, samples, x);
      AtOneMore(m, origin, samples, n, front, Values(m, origin, samples[..n]));
      NoneMore(m, origin, samples, n, front, places, x);
    }
  }

  /** A metric's values are the numbers of the samples that give one, one each and in the samples' order. */
  lemma ValuesAre(m: MetricDefinition, samples: seq<SampleFacts>) returns (places: seq<nat>)
    ensures Rising(places, |samples|)
    ensures var values := Values(m, Resolve(m, samples), samples);
            |values| == |places| && forall k :: 0 <= k < |places| ==> Gives(m, samples, places[k], values[k])
    ensures forall i: nat, x :: i < |samples| && Gives(m, samples, i, x) ==> i in places
  {
    hide Values, Resolve, Contribution, Gives;
    var origin := Resolve(m, samples);
    places := ContributorsExist(m, origin, samples);
    forall i: nat, x: real | i < |samples| ensures Contribution(m, origin, samples[i]) == Some(x) <==> Gives(m, samples, i, x) {
      ContributionIs(m, samples, i, x);
    }
  }

  // ---------------------------------------------------------------------------------------
  // Combining
  // ---------------------------------------------------------------------------------------

  /** x is one of the values and bounds them all. */
  predicate IsLeast(values: seq<real>, x: real) {
    x in values && forall i :: 0 <= i < |values| ==> x <= values[i]
  }

  predicate IsGreatest(values: seq<real>, x: real) {
    x in values && forall i :: 0 <= i < |values| ==> x >= values[i]
  }

  /** x leaves at least this many of the values at or below it, and this many at or above it. */
  predicate Splits(values: seq<real>, x: real, below: int, above: int) {
    SumOf(values, AtMost(x)) >= below as real && SumOf(values, AtLeast(x)) >= above as real
  }

  /** x stands the given share of the way through the values in order, in proportion between the two it falls between. */
  ghost predicate StandsAt(values: seq<real>, fraction: real, x: real) {
    && 0.0 <= fraction <= 1.0 && Percentile(values, fraction) == Ok(x)
    && (|values| == 1 ==> x == values[0])
    && (forall ordered, position: real, k ::
          Falls(values, ordered, fraction, position, k) ==> x == ordered[k] + (position - k as real) * (ordered[k + 1] - ordered[k]))
  }

  /** In order, the position that share of the way through the values falls from their k-th to the next. */
  ghost predicate Falls(values: seq<real>, ordered: seq<real>, fraction: real, position: real, k: nat) {
    && Ascending(ordered) && multiset(ordered) == multiset(values) && k + 1 < |ordered|
    && position == fraction * (|ordered| - 1) as real && k as real <= position <= (k + 1) as real
  }

  lemma PercentileStands(values: seq<real>, fraction: real, x: real)
    requires 0.0 <= fraction <= 1.0 && Percentile(values, fraction) == Ok(x)
    ensures StandsAt(values, fraction, x)
  {
    hide Percentile, Ascending;
    PercentileOfFew(values, fraction);
    forall ordered, position: real, k: nat | Falls(values, ordered, fraction, position, k)
      ensures x == ordered[k] + (position - k as real) * (ordered[k + 1] - ordered[k])
    {
      LinearBetween(values, ordered, fraction, position, k);
    }
  }

  /** What a declared aggregation makes of values. */
  ghost predicate Aggregates(aggregation: Aggregation, values: seq<real>, x: real) {
    match aggregation
    case Mean => x * |values| as real == SumOf(values, Identity)
    case Ratio => x * |values| as real == SumOf(values, Identity)
    case Median => StandsAt(values, 0.5, x)
    case P50 => StandsAt(values, 0.5, x)
    case P95 => StandsAt(values, 0.95, x)
    case P99 => StandsAt(values, 0.99, x)
    case Min => IsLeast(values, x)
    case Max => IsGreatest(values, x)
    case Sum => x == SumOf(values, Identity)
    case Count => x == |values| as real
    case _ => false
  }

  lemma LeastGives(values: seq<real>)
    requires values != []
    ensures Combine(values, Min).Ok? && Combine(values, Min).value.Value? && IsLeast(values, Combine(values, Min).value.value)
    ensures Combine(values, Max).Ok? && Combine(values, Max).value.Value? && IsGreatest(values, Combine(values, Max).value.value)
  {
    LeastGreatest(values);
    hide Least, Greatest;
    assert forall i :: 0 <= i < |values| ==> values[i] in values;
  }

  lemma PercentileThere(values: seq<real>, fraction: real)
    requires values != [] && 0.0 <= fraction <= 1.0
    ensures AtPercentile(values, fraction).Value?
    ensures StandsAt(values, fraction, AtPercentile(values, fraction).value)
  {
    PercentileOfFew(values, fraction);
    hide Percentile, StandsAt;
    PercentileStands(values, fraction, AtPercentile(values, fraction).value);
  }

  lemma MeanGives(values: seq<real>, aggregation: Aggregation)
    requires values != [] && aggregation in {Mean, Ratio, Sum, Count}
    ensures var r := Combine(values, aggregation); r.Ok? && r.value.Value? && Aggregates(aggregation, values, r.value.value)
  {
    MeanTimesSize(values);
    hide SumOf, MeanOf;
  }

  lemma PercentileGives(values: seq<real>, aggregation: Aggregation)
    requires values != [] && aggregation in {Median, P50, P95, P99}
    ensures var r := Combine(values, aggregation); r.Ok? && r.value.Value? && Aggregates(aggregation, values, r.value.value)
  {
    hide StandsAt, AtPercentile;
    var fraction := if aggregation.P95? then 0.95 else if aggregation.P99? then 0.99 else 0.5;
    PercentileThere(values, fraction);
  }

  lemma RawOrUnknown(values: seq<real>, aggregation: Aggregation)
    requires values != []
    ensures aggregation.Unknown? ==> Combine(values, aggregation).ValueError?
    ensures aggregation.Raw? ==> Combine(values, aggregation) == Ok(Unavailable(Reason.Raw))
  {
  }

  /** An aggregation nobody defined is refused, a raw metric has no value of its own, and every other aggregation gives
      what its name says. */
  lemma CombineMeans(values: seq<real>, aggregation: Aggregation)
    requires values != []
    ensures Combine(values, aggregation).ValueError? <==> aggregation.Unknown?
    ensures aggregation.Raw? ==> Combine(values, aggregation) == Ok(Unavailable(Reason.Raw))
    ensures !aggregation.Unknown? && !aggregation.Raw? ==>
              && Combine(values, aggregation).Ok? && Combine(values, aggregation).value.Value?
              && Aggregates(aggregation, values, Combine(values, aggregation).value.value)
  {
    RawOrUnknown(values, aggregation);
    LeastGives(values);
    hide Combine, IsLeast, IsGreatest, StandsAt;
    if aggregation in {Mean, Ratio, Sum, Count} {
      MeanGives(values, aggregation);
    } else if aggregation in {Median, P50, P95, P99} {
      PercentileGives(values, aggregation);
    }
  }

  /** The median leaves half of the values on either side of it; the 95th percentile at least 95 in a hundred at or below
      it and 5 in a hundred at or above it, and likewise the 99th, counted from the first value on. */
  lemma CombinedSplits(values: seq<real>, aggregation: Aggregation, position: real)
    requires values != []
    ensures (aggregation.Median? || aggregation.P50?) ==>
              var x := Combine(values, aggregation).value.value;
              2.0 * SumOf(values, AtMost(x)) >= |values| as real && 2.0 * SumOf(values, AtLeast(x)) >= |values| as real
    ensures aggregation.P95? && position == 0.95 * (|values| - 1) as real ==>
              Splits(values, Combine(values, aggregation).value.value, position.Floor + 1, |values| + (-position).Floor)
    ensures aggregation.P99? && position == 0.99 * (|values| - 1) as real ==>
              Splits(values, Combine(values, aggregation).value.value, position.Floor + 1, |values| + (-position).Floor)
  {
    hide SumOf, Percentile;
    MedianCounts(values);
    if aggregation.P95? && position == 0.95 * (|values| - 1) as real {
      PercentileCounts(values, 0.95, position);
    }
    if aggregation.P99? && position == 0.99 * (|values| - 1) as real {
      PercentileCounts(values, 0.99, position);
    }
  }

  // ---------------------------------------------------------------------------------------
  // Figures of a whole set
  // ---------------------------------------------------------------------------------------

  /** One for each completed sample, each success, each completed sample with a score, with an input or an output count. */
  function OneCompleted(): SampleFacts -> real { (f: SampleFacts) => if f.completed then 1.0 else 0.0 }

  function OneSuccess(): SampleFacts -> real {
    (f: SampleFacts) => if f.completed && f.score.Some? && f.score.value > 0.0 then 1.0 else 0.0
  }

  function OneScore(): SampleFacts -> real { (f: SampleFacts) => if f.completed && f.score.Some? then 1.0 else 0.0 }

  function OneInput(): SampleFacts -> real { (f: SampleFacts) => if f.completed && f.inputTokens.Some? then 1.0 else 0.0 }

  function OneOutput(): SampleFacts -> real { (f: SampleFacts) => if f.completed && f.outputTokens.Some? then 1.0 else 0.0 }

  /** A completed sample's score, input count and output count, where it has one. */
  function ScoreIn(): SampleFacts -> real { (f: SampleFacts) => if f.completed && f.score.Some? then f.score.value else 0.0 }

  function InputIn(): SampleFacts -> real {
    (f: SampleFacts) => if f.completed && f.inputTokens.Some? then f.inputTokens.value else 0.0
  }

  function OutputIn(): SampleFacts -> real {
    (f: SampleFacts) => if f.completed && f.outputTokens.Some? then f.outputTokens.value else 0.0
  }

  lemma {:induction false} CompletedCount(samples: seq<SampleFacts>)
    ensures |Completed(samples)| as real == SumOf(samples, OneCompleted())
  {
    if samples != [] {
      CompletedCount(samples[..|samples| - 1]);
      CompletedStep(samples);
    }
  }

  lemma {:induction false} SuccessCount(samples: seq<SampleFacts>)
    ensures Successes(Completed(samples)) as real == SumOf(samples, OneSuccess())
  {
    if samples != [] {
      var front, f := samples[..|samples| - 1], samples[|samples| - 1];
      SuccessCount(front);
      CompletedStep(samples);
      assert (Completed(front) + [f])[..|Completed(front)|] == Completed(front);
    }
  }

  lemma {:induction false} ScoreTotals(samples: seq<SampleFacts>)
    ensures |Scores(Completed(samples))| as real == SumOf(samples, OneScore())
    ensures Total(Scores(Completed(samples))) == SumOf(samples, ScoreIn())
  {
    if samples != [] {
      var front, f := samples[..|samples| - 1], samples[|samples| - 1];
      ScoreTotals(front);
      CompletedStep(samples);
      assert (Completed(front) + [f])[..|Completed(front)|] == Completed(front);
      if f.score.Some? {
        TotalSnoc(Scores(Completed(front)), f.score.value);
      }
    }
  }

  lemma CountsMore(kept: seq<SampleFacts>, f: SampleFacts, field: TokenField)
    ensures Counts(kept + [f], field) ==
            if TokensOf(f, field).Some? then Counts(kept, field) + [TokensOf(f, field).value] else Counts(kept, field)
  {
    assert (kept + [f])[..|kept|] == kept;
  }

  lemma NothingCounted(field: TokenField, h: SampleFacts -> real)
    ensures |Counts(Completed([]), field)| == 0 && Total(Counts(Completed([]), field)) == 0.0 == SumOf([], h)
  {
  }

  lemma {:induction false} CountTotals(samples: seq<SampleFacts>, field: TokenField, one: SampleFacts -> real,
      tokens: SampleFacts -> real)
    requires forall f: SampleFacts :: one(f) == if f.completed && TokensOf(f, field).Some? then 1.0 else 0.0
    requires forall f: SampleFacts :: tokens(f) == if f.completed && TokensOf(f, field).Some? then TokensOf(f, field).value else 0.0
    ensures |Counts(Completed(samples), field)| as real == SumOf(samples, one)
    ensures Total(Counts(Completed(samples), field)) == SumOf(samples, tokens)
  {
    hide Counts, Completed, SumOf, Total, TokensOf;
    if samples == [] {
      NothingCounted(field, one);
      NothingCounted(field, tokens);
    } else {
      var front, f := samples[..|samples| - 1], samples[|samples| - 1];
      CountTotals(front, field, one, tokens);
      CompletedStep(samples);
      SumStep(samples, one);
      SumStep(samples, tokens);
      if f.completed {
        CountsMore(Completed(front), f, field);
        if TokensOf(f, field).Some? {
          TotalSnoc(Counts(Completed(front), field), TokensOf(f, field).value);
        }
      }
    }
  }

  /** A quotient of what is known, refused without a positive divisor. */
  predicate Quotient(result: MetricResult, known: bool, refusal: Reason, amount: real, divisor: real) {
    if !known then result == Unavailable(NotReported)
    else if divisor <= 0.0 then result == Unavailable(refusal)
    else result.Value? && result.value * divisor == amount
  }

  lemma TotalsAre(samples: seq<SampleFacts>)
    ensures var total := TotalOf(Completed(samples), InputTokens);
            (total.Some? <==> SumOf(samples, OneInput()) > 0.0) && (total.Some? ==> total.value == SumOf(samples, InputIn()))
    ensures var total := TotalOf(Completed(samples), OutputTokens);
            (total.Some? <==> SumOf(samples, OneOutput()) > 0.0) && (total.Some? ==> total.value == SumOf(samples, OutputIn()))
  {
    CountTotals(samples, InputTokens, OneInput(), InputIn());
    CountTotals(samples, OutputTokens, OneOutput(), OutputIn());
    hide Counts, Completed, SumOf, OneInput, OneOutput, InputIn, OutputIn, Total;
  }

  lemma Divided(x: real, y: real, scale: real)
    requires y > 0.0 && scale > 0.0
    ensures x / y * y == x
    ensures y / scale > 0.0 && x / (y / scale) * y == scale * x
  {
    var q := y / scale;
    assert q * scale == y;
    if q <= 0.0 {
      NonNegativeProduct(-q, scale);
    }
    var r := x / q;
    assert r * q == x;
    assert r * y == r * q * scale;
  }

  lemma NotKnown(refusal: Reason, amount: real, divisor: real)
    ensures Quotient(Unavailable(NotReported), false, refusal, amount, divisor)
  {
  }

  lemma PerSuccess(input: Option<real>, output: Option<real>, successes: nat)
    ensures output.Some? ==> Quotient(OutputTokensPerSuccess(output, successes), true, NoSuccesses, output.value, successes as real)
    ensures output.None? ==> OutputTokensPerSuccess(output, successes) == Unavailable(NotReported)
    ensures input.Some? && output.Some? ==>
              Quotient(TotalTokensPerSuccess(input, output, successes), true, NoSuccesses, input.value + output.value,
                  successes as real)
    ensures input.None? || output.None? ==> TotalTokensPerSuccess(input, output, successes) == Unavailable(NotReported)
  {
    if successes > 0 && output.Some? {
      Divided(output.value, successes as real, 1.0);
      if input.Some? {
        Divided(input.value + output.value, successes as real, 1.0);
      }
    }
  }

  lemma PerToken(mean: Option<real>, output: Option<real>, successes: nat)
    ensures mean.Some? && output.Some? ==> Quotient(QualityPer1k(mean, output), true, NoOutputTokens, 1000.0 * mean.value, output.value)
    ensures mean.None? || output.None? ==> QualityPer1k(mean, output) == Unavailable(NotReported)
    ensures output.Some? ==>
              Quotient(SuccessesPerMillion(successes, output), true, NoOutputTokens, 1000000.0 * successes as real, output.value)
    ensures output.None? ==> SuccessesPerMillion(successes, output) == Unavailable(NotReported)
  {
    if output.Some? && output.value > 0.0 {
      Divided(successes as real, output.value, 1000000.0);
      if mean.Some? {
        Divided(mean.value, output.value, 1000.0);
      }
    }
  }

  function MeanIn(samples: seq<SampleFacts>): Option<real> {
    var scores := Scores(Completed(samples));
    if scores == [] then None else Some(MeanOf(scores))
  }

  lemma MeanInScores(samples: seq<SampleFacts>, scores: seq<real>)
    requires scores == Scores(Completed(samples))
    ensures MeanIn(samples) == if scores == [] then None else Some(MeanOf(scores))
  {
    hide Scores, Completed, MeanOf;
  }

  lemma SameProduct(mean: real, n: real, one: real, total: real)
    requires mean * n == total && n == one
    ensures mean * one == total
  {
  }

  lemma MeanInIs(samples: seq<SampleFacts>)
    ensures MeanIn(samples).Some? <==> SumOf(samples, OneScore()) > 0.0
    ensures MeanIn(samples).Some? ==> MeanIn(samples).value * SumOf(samples, OneScore()) == SumOf(samples, ScoreIn())
  {
    hide *;
    var scores := Scores(Completed(samples));
    ScoreTotals(samples);
    MeanInScores(samples, scores);
    if scores != [] {
      MeanTimesSize(scores);
      SameProduct(MeanOf(scores), |scores| as real, SumOf(samples, OneScore()), Total(scores));
    }
  }

  lemma FigureOfSet(m: MetricDefinition, samples: seq<SampleFacts>)
    requires PerSet(m.key) && m.key != "effective_context_tokens"
    ensures AggregateOnly(m, samples).Ok?
    ensures var r, kept := AggregateOnly(m, samples).value, Completed(samples);
            var input, output, successes := TotalOf(kept, InputTokens), TotalOf(kept, OutputTokens), Successes(kept);
            && r.sampleCount == |kept| && r.excludedCount == |samples| - |kept|
            && (m.key == "output_tokens_per_success" ==> r.result == OutputTokensPerSuccess(output, successes))
            && (m.key == "total_tokens_per_success" ==> r.result == TotalTokensPerSuccess(input, output, successes))
            && (m.key == "quality_per_1k_output_tokens" ==> r.result == QualityPer1k(MeanIn(samples), output))
            && (m.key == "successes_per_million_output_tokens" ==> r.result == SuccessesPerMillion(successes, output))
  {
    hide Completed, TotalOf, Successes, Scores, MeanOf, OutputTokensPerSuccess, TotalTokensPerSuccess, QualityPer1k,
        SuccessesPerMillion;
  }

  /** A set's figures for a success, over its completed samples: their output tokens, or all their tokens. */
  predicate PerSuccessFigure(key: string, samples: seq<SampleFacts>, result: MetricResult) {
    var successes, output, reported := SumOf(samples, OneSuccess()), SumOf(samples, OutputIn()), SumOf(samples, OneOutput()) > 0.0;
    && (key == "output_tokens_per_success" ==> Quotient(result, reported, NoSuccesses, output, successes))
    && (key == "total_tokens_per_success" ==>
          Quotient(result, reported && SumOf(samples, OneInput()) > 0.0, NoSuccesses, SumOf(samples, InputIn()) + output, successes))
  }

  /** And those for an output token: a thousand times the mean score, or a million times the successes. */
  predicate PerTokenFigure(key: string, samples: seq<SampleFacts>, mean: real, result: MetricResult) {
    var successes, output, reported := SumOf(samples, OneSuccess()), SumOf(samples, OutputIn()), SumOf(samples, OneOutput()) > 0.0;
    && (key == "quality_per_1k_output_tokens" ==>
          Quotient(result, reported && SumOf(samples, OneScore()) > 0.0, NoOutputTokens, 1000.0 * mean, output))
    && (key == "successes_per_million_output_tokens" ==> Quotient(result, reported, NoOutputTokens, 1000000.0 * successes, output))
  }

  lemma FiguresPerSuccess(m: MetricDefinition, samples: seq<SampleFacts>)
    requires PerSet(m.key) && m.key != "effective_context_tokens"
    ensures AggregateOnly(m, samples).Ok? && PerSuccessFigure(m.key, samples, AggregateOnly(m, samples).value.result)
  {
    FigureOfSet(m, samples);
    hide AggregateOnly, Completed, TotalOf, Successes, MeanIn, Quotient, SumOf, OneSuccess, OneInput, OneOutput, InputIn, OutputIn,
         OutputTokensPerSuccess, TotalTokensPerSuccess, QualityPer1k, SuccessesPerMillion;
    var kept := Completed(samples);
    SuccessCount(samples);
    TotalsAre(samples);
    PerSuccess(TotalOf(kept, InputTokens), TotalOf(kept, OutputTokens), Successes(kept));
    NotKnown(NoSuccesses, SumOf(samples, OutputIn()), SumOf(samples, OneSuccess()));
    NotKnown(NoSuccesses, SumOf(samples, InputIn()) + SumOf(samples, OutputIn()), SumOf(samples, OneSuccess()));
  }

  lemma FiguresPerToken(m: MetricDefinition, samples: seq<SampleFacts>, mean: real)
    requires PerSet(m.key) && m.key != "effective_context_tokens"
    requires MeanIn(samples).Some? ==> mean == MeanIn(samples).value
    ensures AggregateOnly(m, samples).Ok? && PerTokenFigure(m.key, samples, mean, AggregateOnly(m, samples).value.result)
  {
    FigureOfSet(m, samples);
    hide AggregateOnly, Completed, TotalOf, Successes, MeanIn, Quotient, SumOf, OneSuccess, OneScore, OneOutput, ScoreIn, OutputIn,
         OutputTokensPerSuccess, TotalTokensPerSuccess, QualityPer1k, SuccessesPerMillion;
    var kept := Completed(samples);
    SuccessCount(samples);
    TotalsAre(samples);
    MeanInIs(samples);
    PerToken(MeanIn(samples), TotalOf(kept, OutputTokens), Successes(kept));
    NotKnown(NoOutputTokens, 1000.0 * mean, SumOf(samples, OutputIn()));
    NotKnown(NoOutputTokens, 1000000.0 * SumOf(samples, OneSuccess()), SumOf(samples, OutputIn()));
  }

  /** A set's figure is never refused as an error, and counts the completed samples; mean is that of their scores. */
  lemma SetFigureMeans(m: MetricDefinition, samples: seq<SampleFacts>) returns (mean: real)
    requires PerSet(m.key) && m.key != "effective_context_tokens"
    ensures SumOf(samples, OneScore()) > 0.0 ==> mean * SumOf(samples, OneScore()) == SumOf(samples, ScoreIn())
    ensures AggregateOnly(m, samples).Ok?
    ensures var r := AggregateOnly(m, samples).value;
            && r.sampleCount as real == SumOf(samples, OneCompleted()) && r.sampleCount + r.excludedCount == |samples|
            && PerSuccessFigure(m.key, samples, r.result) && PerTokenFigure(m.key, samples, mean, r.result)
  {
    hide *;
    var average := MeanIn(samples);
    mean := if average.Some? then average.value else 0.0;
    MeanInIs(samples);
    CompletedCount(samples);
    FigureOfSet(m, samples);
    FiguresPerSuccess(m, samples);
    FiguresPerToken(m, samples, mean);
  }
}
