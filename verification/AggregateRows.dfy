/** Which rows a test and a run report, and what each is made of: src/freeweight/domain/aggregation.py. */
module AggregateRows {
  import opened Aggregation
  import opened EffectiveContexts
  import opened Measures
  import opened Metrics
  import opened Results
  import opened RowFigures
  import Strings
  import opened Sums
  import SummaryFigures

  // ---------------------------------------------------------------------------------------
  // One row
  // ---------------------------------------------------------------------------------------

  /** The row says what it is a row of. */
  predicate Describes(row: AggregatedMetric, m: MetricDefinition, runTest: Option<nat>, class': MeasurementClass) {
    && row.key == m.key && row.unit == m.unit && row.aggregation == m.aggregation && row.higherIsBetter == m.higherIsBetter
    && row.runTest == runTest && row.class' == class'
  }

  /** Its value, or the reason it has none, over so many samples of all. */
  predicate Reports(row: AggregatedMetric, result: MetricResult, count: int, all: int) {
    && row.value == (if result.Value? then Some(result.value) else None)
    && row.reason == (if result.Value? then None else Some(result.reason))
    && row.sampleCount == count && row.sampleCount + row.excludedCount == all
  }

  /** The spread of two values or more: the squared distances from the mean over one less than their number, and that
      over the squared mean where the mean is positive. */
  predicate SpreadIs(spread: Dispersion, values: seq<real>) {
    if |values| < 2 then spread == Dispersion(None, None)
    else
      var mean := MeanOf(values);
      && spread.variance.Some? && spread.variance.value * (|values| - 1) as real == SumOf(values, SummaryFigures.Squares(mean))
      && (spread.variation.Some? <==> mean > 0.0)
      && (mean > 0.0 ==> spread.variation.value * mean * mean == spread.variance.value)
  }

  lemma SpreadOf(values: seq<real>)
    ensures SpreadIs(DispersionOf(values), values)
  {
    DispersionMeans(values);
    if |values| >= 2 {
      SummaryFigures.VarianceIs(values);
    }
    hide MeanOf, Variance, SumOf, SummaryFigures.Squares, Relative;
  }

  /** The figures taken over a whole set. */
  lemma SetKeys(key: string)
    ensures PerSet(key) <==>
            || key == "effective_context_tokens" || key == "output_tokens_per_success" || key == "total_tokens_per_success"
            || key == "quality_per_1k_output_tokens" || key == "successes_per_million_output_tokens"
  {
  }

  /** A figure of a whole set stands as it is, without a spread. */
  lemma SetRow(m: MetricDefinition, g: SampleGroup)
    requires PerSet(m.key)
    ensures var only, row := AggregateOnly(m, g.samples), RowFor(m, g);
            && (row.ValueError? <==> only.ValueError?)
            && (row.Ok? ==>
                  && Describes(row.value, m, g.runTest, g.class') && SpreadIs(row.value.dispersion, [])
                  && Reports(row.value, only.value.result, only.value.sampleCount, only.value.sampleCount + only.value.excludedCount))
  {
    hide AggregateOnly;
  }

  /** Any other metric's row combines its values and tells how many samples gave one. */
  lemma ValueRow(m: MetricDefinition, g: SampleGroup)
    requires !PerSet(m.key)
    ensures var values, row := Values(m, Resolve(m, g.samples), g.samples), RowFor(m, g);
            && (row.ValueError? <==> values != [] && m.aggregation.Unknown?)
            && (row.Ok? ==> Describes(row.value, m, g.runTest, g.class') && SpreadIs(row.value.dispersion, values))
            && (row.Ok? ==>
                  Reports(row.value, if values == [] then Unavailable(NoSamples) else Combine(values, m.aggregation).value,
                          |values|, |g.samples|))
  {
    var values := Values(m, Resolve(m, g.samples), g.samples);
    SpreadOf(values);
    if values != [] {
      CombineMeans(values, m.aggregation);
    }
    hide PerSet, Values, Resolve, Combine, DispersionOf, SpreadIs;
  }

  // ---------------------------------------------------------------------------------------
  // A test's rows
  // ---------------------------------------------------------------------------------------

  /** One row for each declared metric, in order, unless one of them is refused. */
  lemma {:induction false} TestRowsAre(metrics: seq<MetricDefinition>, g: SampleGroup)
    ensures RowsFor(metrics, g).ValueError? <==> exists k :: 0 <= k < |metrics| && RowFor(metrics[k], g).ValueError?
    ensures var rows := RowsFor(metrics, g);
            rows.Ok? ==> |rows.value| == |metrics| && forall k :: 0 <= k < |metrics| ==> Ok(rows.value[k]) == RowFor(metrics[k], g)
  {
    hide RowFor;
    if metrics != [] {
      var n := |metrics| - 1;
      TestRowsAre(metrics[..n], g);
      assert forall k :: 0 <= k < n ==> metrics[..n][k] == metrics[k];
      assert RowFor(metrics[n], g).ValueError? ==> RowsFor(metrics, g).ValueError?;
    }
  }

  /** How many rows the tests before it have. */
  function Before(groups: seq<SampleGroup>, i: nat): nat
    requires i <= |groups|
  {
    if i == 0 then 0 else Before(groups, i - 1) + |groups[i - 1].metrics|
  }

  lemma {:induction false} BeforePrefix(groups: seq<SampleGroup>, i: nat, n: nat)
    requires i <= n <= |groups|
    ensures Before(groups[..n], i) == Before(groups, i)
    ensures Before(groups, i) <= Before(groups, n)
    decreases n
  {
    if i < n {
      BeforePrefix(groups, i, n - 1);
      BeforeAlike(groups[..n], groups, i);
    } else {
      BeforeAlike(groups[..n], groups, i);
    }
  }

  lemma {:induction false} BeforeAlike(a: seq<SampleGroup>, b: seq<SampleGroup>, i: nat)
    requires i <= |a| && a <= b
    ensures Before(a, i) == Before(b, i)
  {
    if i > 0 {
      BeforeAlike(a, b, i - 1);
      assert a[i - 1] == b[i - 1];
    }
  }

  /** The k-th row of the i-th test. */
  lemma {:induction false} EveryTestRow(groups: seq<SampleGroup>, i: nat, k: nat)
    requires TestRows(groups).Ok? && i < |groups| && k < |groups[i].metrics|
    ensures Before(groups, i) + k < |TestRows(groups).value| == Before(groups, |groups|)
    ensures Ok(TestRows(groups).value[Before(groups, i) + k]) == RowFor(groups[i].metrics[k], groups[i])
  {
    hide RowFor, RowsFor;
    var n := |groups| - 1;
    TestRowsAre(groups[n].metrics, groups[n]);
    TestRowCount(groups);
    TestRowCount(groups[..n]);
    BeforePrefix(groups, i, n);
    BeforeAlike(groups[..n], groups, n);
    if i < n {
      EveryTestRow(groups[..n], i, k);
    }
  }

  lemma {:induction false} TestRowCount(groups: seq<SampleGroup>)
    ensures TestRows(groups).Ok? ==> |TestRows(groups).value| == Before(groups, |groups|)
  {
    hide RowFor, RowsFor;
    if groups != [] {
      var n := |groups| - 1;
      TestRowCount(groups[..n]);
      TestRowsAre(groups[n].metrics, groups[n]);
      BeforeAlike(groups[..n], groups, n);
    }
  }

  // ---------------------------------------------------------------------------------------
  // A run's rows
  // ---------------------------------------------------------------------------------------

  /** How often a test declares a key. */
  function OneOfKey(key: string): MetricDefinition -> real { (m: MetricDefinition) => if m.key == key then 1.0 else 0.0 }

  /** What a test's samples add up to, once for each declaration of the key. */
  function PerDeclaration(key: string, h: SampleFacts -> real): SampleGroup -> real {
    (g: SampleGroup) => SumOf(g.metrics, OneOfKey(key)) * SumOf(g.samples, h)
  }

  lemma SamplesSnoc(groups: seq<SampleGroup>, g: SampleGroup)
    ensures AllSamples(groups + [g]) == AllSamples(groups) + g.samples
  {
    assert (groups + [g])[..|groups|] == groups;
  }

  lemma {:induction false} SamplesConcat(a: seq<SampleGroup>, b: seq<SampleGroup>)
    ensures AllSamples(a + b) == AllSamples(a) + AllSamples(b)
  {
    if b == [] {
      assert a + b == a;
    } else {
      hide AllSamples;
      var front, last := b[..|b| - 1], b[|b| - 1];
      assert b == front + [last] && a + b == (a + front) + [last];
      SamplesConcat(a, front);
      SamplesSnoc(a + front, last);
      SamplesSnoc(front, last);
      AppendOne(AllSamples(a), AllSamples(front), last.samples);
    }
  }

  lemma OneMore(times: real, sum: real)
    ensures (times + 1.0) * sum == times * sum + sum
    ensures (times + 0.0) * sum == times * sum
  {
  }

  lemma DeclaredStep(metrics: seq<MetricDefinition>, g: SampleGroup, key: string)
    requires metrics != []
    ensures var front, last := Declared(metrics[..|metrics| - 1], g, key), metrics[|metrics| - 1];
            Declared(metrics, g, key) == if last.key == key then front + [g] else front
    ensures var n := |metrics| - 1;
            SumOf(metrics, OneOfKey(key)) == SumOf(metrics[..n], OneOfKey(key)) + if metrics[n].key == key then 1.0 else 0.0
  {
  }

  lemma NothingDeclared(g: SampleGroup, key: string, h: SampleFacts -> real)
    ensures SumOf(AllSamples(Declared([], g, key)), h) == 0.0 == SumOf([], OneOfKey(key))
  {
  }

  lemma {:induction false} DeclaredSamples(metrics: seq<MetricDefinition>, g: SampleGroup, key: string, h: SampleFacts -> real)
    ensures SumOf(AllSamples(Declared(metrics, g, key)), h) == SumOf(metrics, OneOfKey(key)) * SumOf(g.samples, h)
  {
    hide *;
    if metrics == [] {
      NothingDeclared(g, key, h);
    } else {
      var front := Declared(metrics[..|metrics| - 1], g, key);
      DeclaredStep(metrics, g, key);
      DeclaredSamples(metrics[..|metrics| - 1], g, key, h);
      OneMore(SumOf(metrics[..|metrics| - 1], OneOfKey(key)), SumOf(g.samples, h));
      SamplesSnoc(front, g);
      SumConcat(AllSamples(front), g.samples, h);
    }
  }

  lemma ContributorsStep(groups: seq<SampleGroup>, key: string)
    requires groups != []
    ensures var n := |groups| - 1;
            Contributors(groups, key) == Contributors(groups[..n], key) + Declared(groups[n].metrics, groups[n], key)
  {
    hide Declared;
  }

  lemma PerDeclarationStep(groups: seq<SampleGroup>, key: string, h: SampleFacts -> real)
    requires groups != []
    ensures var n := |groups| - 1;
            SumOf(groups, PerDeclaration(key, h)) ==
            SumOf(groups[..n], PerDeclaration(key, h)) + SumOf(groups[n].metrics, OneOfKey(key)) * SumOf(groups[n].samples, h)
  {
    hide SumOf;
    SumStep(groups, PerDeclaration(key, h));
  }

  lemma NoTests(key: string, h: SampleFacts -> real)
    ensures SumOf(AllSamples(Contributors([], key)), h) == 0.0 == SumOf([], PerDeclaration(key, h))
  {
  }

  /** A key's run-level row is taken over the samples of every test that declares the key, once for each declaration. */
  lemma {:induction false} RunSamplesAre(groups: seq<SampleGroup>, key: string, h: SampleFacts -> real)
    ensures SumOf(AllSamples(Contributors(groups, key)), h) == SumOf(groups, PerDeclaration(key, h))
  {
    hide *;
    if groups == [] {
      NoTests(key, h);
    } else {
      var n := |groups| - 1;
      var front, own := Contributors(groups[..n], key), Declared(groups[n].metrics, groups[n], key);
      RunSamplesAre(groups[..n], key, h);
      ContributorsStep(groups, key);
      PerDeclarationStep(groups, key, h);
      DeclaredSamples(groups[n].metrics, groups[n], key, h);
      SamplesConcat(front, own);
      SumConcat(AllSamples(front), AllSamples(own), h);
    }
  }

  /** The samples stand in the tests' order. */
  lemma SamplesInOrder(groups: seq<SampleGroup>, i: nat) returns (rest: seq<SampleFacts>)
    requires i < |groups|
    ensures AllSamples(groups) == AllSamples(groups[..i]) + groups[i].samples + rest
  {
    hide AllSamples;
    var front, back := groups[..i] + [groups[i]], groups[i + 1..];
    rest := AllSamples(back);
    assert groups == front + back;
    SamplesSnoc(groups[..i], groups[i]);
    SamplesConcat(front, back);
  }

  /** So do the tests that declare the key. */
  lemma {:induction false} ContributorsInOrder(groups: seq<SampleGroup>, key: string, i: nat) returns (rest: seq<SampleGroup>)
    requires i < |groups|
    ensures Contributors(groups, key) == Contributors(groups[..i], key) + Declared(groups[i].metrics, groups[i], key) + rest
  {
    hide Contributors, Declared;
    var n := |groups| - 1;
    ContributorsStep(groups, key);
    if i < n {
      assert groups[..n][..i] == groups[..i];
      var own := Declared(groups[n].metrics, groups[n], key);
      var before := ContributorsInOrder(groups[..n], key, i);
      rest := before + own;
      AppendOne(Contributors(groups[..i], key) + Declared(groups[i].metrics, groups[i], key), before, own);
    } else {
      rest := [];
    }
  }

  predicate NotDeclared(metrics: seq<MetricDefinition>, key: string) {
    forall j :: 0 <= j < |metrics| ==> metrics[j].key != key
  }

  lemma {:induction false} FirstOfIs(metrics: seq<MetricDefinition>, key: string) returns (j: nat)
    ensures FirstOf(metrics, key).None? <==> NotDeclared(metrics, key)
    ensures FirstOf(metrics, key).Some? ==>
              j < |metrics| && metrics[j].key == key && NotDeclared(metrics[..j], key) && FirstOf(metrics, key) == Some(metrics[j])
  {
    j := 0;
    if metrics != [] {
      var n := |metrics| - 1;
      j := FirstOfIs(metrics[..n], key);
      assert forall k :: 0 <= k < n ==> metrics[..n][k] == metrics[k];
      if FirstOf(metrics[..n], key).Some? {
        assert metrics[..n][..j] == metrics[..j];
      } else {
        j := n;
      }
    }
  }

  predicate NowhereDeclared(groups: seq<SampleGroup>, key: string) {
    forall i :: 0 <= i < |groups| ==> NotDeclared(groups[i].metrics, key)
  }

  /** The run-level row follows the definition that comes first. */
  lemma {:induction false} DefinitionIs(groups: seq<SampleGroup>, key: string) returns (i: nat, j: nat)
    ensures Definition(groups, key).None? <==> NowhereDeclared(groups, key)
    ensures Definition(groups, key).Some? ==>
              && i < |groups| && j < |groups[i].metrics| && groups[i].metrics[j].key == key
              && NowhereDeclared(groups[..i], key) && NotDeclared(groups[i].metrics[..j], key)
              && Definition(groups, key) == Some(groups[i].metrics[j])
  {
    hide FirstOf, NotDeclared;
    i, j := 0, 0;
    if groups != [] {
      var n := |groups| - 1;
      i, j := DefinitionIs(groups[..n], key);
      assert forall k :: 0 <= k < n ==> groups[..n][k] == groups[k];
      if Definition(groups[..n], key).Some? {
        assert groups[..n][..i] == groups[..i];
      } else {
        i := n;
        j := FirstOfIs(groups[n].metrics, key);
      }
    }
  }

  /** Over tests of one measurement class the run-level row is that of all their samples together; over several it has no
      value and counts the completed samples. */
  lemma RunRowIs(m: MetricDefinition, contributors: seq<SampleGroup>)
    requires contributors != []
    ensures var all := AllSamples(contributors);
            if exists i, j :: 0 <= i < j < |contributors| && contributors[i].class' != contributors[j].class' then
              && RunRow(m, contributors).Ok?
              && Describes(RunRow(m, contributors).value, m, None, NotApplicable)
              && RunRow(m, contributors).value.value == None
              && RunRow(m, contributors).value.reason == Some(MixedClasses)
              && RunRow(m, contributors).value.sampleCount as real == SumOf(all, OneCompleted())
              && RunRow(m, contributors).value.sampleCount + RunRow(m, contributors).value.excludedCount == |all|
              && RunRow(m, contributors).value.dispersion == Dispersion(None, None)
            else RunRow(m, contributors) == RowFor(m, SampleGroup(None, contributors[0].class', [m], all))
  {
    CompletedCount(AllSamples(contributors));
    hide RowFor, Completed, SumOf, AllSamples;
    if i, j :| 0 <= i < j < |contributors| && contributors[i].class' != contributors[j].class' {
      assert !OneClass(contributors);
    } else {
      assert OneClass(contributors);
    }
  }

  lemma {:induction false} RunRowCount(groups: seq<SampleGroup>, keys: seq<string>)
    requires AllDeclared(groups, keys)
    ensures RunRows(groups, keys).ValueError? <==> exists k :: 0 <= k < |keys| && RunRowOf(groups, keys[k]).ValueError?
    ensures var rows := RunRows(groups, keys);
            rows.Ok? ==> |rows.value| == |keys| && forall k :: 0 <= k < |keys| ==> Ok(rows.value[k]) == RunRowOf(groups, keys[k])
  {
    hide RunRowOf, Keys;
    if keys != [] {
      var n := |keys| - 1;
      RunRowCount(groups, keys[..n]);
      assert forall k :: 0 <= k < n ==> keys[..n][k] == keys[k];
      assert RunRowOf(groups, keys[n]).ValueError? ==> RunRows(groups, keys).ValueError?;
    }
  }

  lemma {:induction false} KeysAre(groups: seq<SampleGroup>, key: string)
    ensures key in Keys(groups) <==> !NowhereDeclared(groups, key)
  {
    hide KeysOf, NotDeclared;
    if groups != [] {
      var n := |groups| - 1;
      KeysAre(groups[..n], key);
      KeysOfAre(groups[n].metrics, key);
      assert forall k :: 0 <= k < n ==> groups[..n][k] == groups[k];
    }
  }

  lemma {:induction false} KeysOfAre(metrics: seq<MetricDefinition>, key: string)
    ensures key in KeysOf(metrics) <==> !NotDeclared(metrics, key)
  {
    if metrics != [] {
      var n := |metrics| - 1;
      KeysOfAre(metrics[..n], key);
      assert forall k :: 0 <= k < n ==> metrics[..n][k] == metrics[k];
    }
  }

  /** A run reports every test's rows and then one row for each declared key, the keys in ascending order; it raises exactly
      where one of those rows does. */
  lemma RunRowsAre(groups: seq<SampleGroup>) returns (keys: seq<string>)
    ensures Strings.Ascending(keys) && forall k :: k in keys <==> !NowhereDeclared(groups, k)
    ensures AllDeclared(groups, keys)
    ensures AllRows(groups).Ok? <==> TestRows(groups).Ok? && forall k :: 0 <= k < |keys| ==> RunRowOf(groups, keys[k]).Ok?
    ensures var rows := AllRows(groups);
            rows.Ok? ==>
              && |rows.value| == Before(groups, |groups|) + |keys|
              && rows.value[..Before(groups, |groups|)] == TestRows(groups).value
              && forall k :: 0 <= k < |keys| ==> Ok(rows.value[Before(groups, |groups|) + k]) == RunRowOf(groups, keys[k])
  {
    keys := Strings.SortedKeys(Keys(groups));
    hide Keys, NowhereDeclared, TestRows, RunRows, RunRowOf, Strings.Ascending, Before;
    forall k ensures k in keys <==> !NowhereDeclared(groups, k) {
      KeysAre(groups, k);
    }
    assert forall i :: 0 <= i < |keys| ==> keys[i] in keys;
    RunRowCount(groups, keys);
    TestRowCount(groups);
  }
}
