/** The rows a whole run reports, key by key: src/freeweight/domain/aggregation.py. */
module RunReports {
  import opened Aggregation
  import opened Composition
  import opened Results
  import Strings
  import opened Sums

  function RowsOf(rows: Rows, key: string): Rows {
    if rows == [] then []
    else
      var front, last := RowsOf(rows[..|rows| - 1], key), rows[|rows| - 1];
      if last.key == key then front + [last] else front
  }

  lemma {:induction false} RowsOfConcat(a: Rows, b: Rows, key: string)
    ensures RowsOf(a + b, key) == RowsOf(a, key) + RowsOf(b, key)
  {
    if b == [] {
      assert a + b == a;
    } else {
      assert (a + b)[..|a + b| - 1] == a + b[..|b| - 1];
      RowsOfConcat(a, b[..|b| - 1], key);
    }
  }

  lemma RowsOfOne(row: AggregatedMetric, key: string)
    ensures RowsOf([row], key) == if row.key == key then [row] else []
  {
    assert [row][..0] == [];
  }

  // ---------------------------------------------------------------------------------------
  // A key's declarations
  // ---------------------------------------------------------------------------------------

  /** One metric a test declares. */
  datatype Declaration = Declaration(metric: MetricDefinition, test: SampleGroup)

  function OfMetrics(metrics: seq<MetricDefinition>, g: SampleGroup, key: string): seq<Declaration> {
    if metrics == [] then []
    else
      var front, last := OfMetrics(metrics[..|metrics| - 1], g, key), metrics[|metrics| - 1];
      if last.key == key then front + [Declaration(last, g)] else front
  }

  /** Every declaration of the key, test by test; a test may declare it more than once, and tests may differ. */
  function Declarations(groups: seq<SampleGroup>, key: string): seq<Declaration> {
    if groups == [] then []
    else
      var last := groups[|groups| - 1];
      Declarations(groups[..|groups| - 1], key) + OfMetrics(last.metrics, last, key)
  }

  function TestsOf(declarations: seq<Declaration>): (tests: seq<SampleGroup>)
    ensures |tests| == |declarations| && forall i :: 0 <= i < |tests| ==> tests[i] == declarations[i].test
  {
    seq(|declarations|, i requires 0 <= i < |declarations| => declarations[i].test)
  }

  /** The definition that comes first. */
  function FirstMetric(declarations: seq<Declaration>): Option<MetricDefinition> {
    if declarations == [] then None else Some(declarations[0].metric)
  }

  predicate OfKey(declarations: seq<Declaration>, key: string) {
    forall i :: 0 <= i < |declarations| ==> declarations[i].metric.key == key
  }

  lemma {:induction false} OneTestDeclares(metrics: seq<MetricDefinition>, g: SampleGroup, key: string)
    ensures TestsOf(OfMetrics(metrics, g, key)) == Declared(metrics, g, key)
    ensures FirstMetric(OfMetrics(metrics, g, key)) == FirstOf(metrics, key)
    ensures OfKey(OfMetrics(metrics, g, key), key)
  {
    if metrics != [] {
      OneTestDeclares(metrics[..|metrics| - 1], g, key);
    }
  }

  lemma TestsConcat(a: seq<Declaration>, b: seq<Declaration>)
    ensures TestsOf(a + b) == TestsOf(a) + TestsOf(b)
    ensures FirstMetric(a + b) == Earlier(FirstMetric(a), FirstMetric(b))
  {
  }

  /** The declarations' tests are the key's contributors, and the first one's metric is its definition. */
  lemma {:induction false} DeclarationsAre(groups: seq<SampleGroup>, key: string)
    ensures TestsOf(Declarations(groups, key)) == Contributors(groups, key)
    ensures FirstMetric(Declarations(groups, key)) == Definition(groups, key)
    ensures OfKey(Declarations(groups, key), key)
  {
    hide Declared, FirstOf, OfMetrics, TestsOf, FirstMetric;
    if groups == [] {
      NoDeclarations(key);
    } else {
      var n := |groups| - 1;
      DeclarationsAre(groups[..n], key);
      OneTestDeclares(groups[n].metrics, groups[n], key);
      TestsConcat(Declarations(groups[..n], key), OfMetrics(groups[n].metrics, groups[n], key));
    }
  }

  lemma NoDeclarations(key: string)
    ensures TestsOf([]) == [] && FirstMetric([]) == None
  {
  }

  // ---------------------------------------------------------------------------------------
  // The listed rows of a key
  // ---------------------------------------------------------------------------------------

  predicate AllRowsOk(declarations: seq<Declaration>) {
    forall i :: 0 <= i < |declarations| ==> RowFor(declarations[i].metric, declarations[i].test).Ok?
  }

  /** Each declaration's own row. */
  function DeclaredRows(declarations: seq<Declaration>): (rows: Rows)
    requires AllRowsOk(declarations)
    ensures |rows| == |declarations|
    ensures forall i :: 0 <= i < |rows| ==> rows[i] == RowFor(declarations[i].metric, declarations[i].test).value
  {
    seq(|declarations|, i requires 0 <= i < |declarations| => RowFor(declarations[i].metric, declarations[i].test).value)
  }

  lemma DeclaredConcat(a: seq<Declaration>, b: seq<Declaration>)
    requires AllRowsOk(a) && AllRowsOk(b)
    ensures AllRowsOk(a + b) && DeclaredRows(a + b) == DeclaredRows(a) + DeclaredRows(b)
  {
    hide RowFor;
  }

  lemma DeclaredOne(d: Declaration)
    requires RowFor(d.metric, d.test).Ok?
    ensures AllRowsOk([d]) && DeclaredRows([d]) == [RowFor(d.metric, d.test).value]
  {
    hide RowFor;
  }

  lemma {:induction false} OneTestLists(metrics: seq<MetricDefinition>, g: SampleGroup, key: string)
    requires RowsFor(metrics, g).Ok?
    ensures AllRowsOk(OfMetrics(metrics, g, key))
    ensures RowsOf(RowsFor(metrics, g).value, key) == DeclaredRows(OfMetrics(metrics, g, key))
  {
    hide RowFor, DeclaredRows, AllRowsOk;
    if metrics == [] {
      NothingListed(key);
    } else {
      var n := |metrics| - 1;
      OneTestLists(metrics[..n], g, key);
      var row := RowFor(metrics[n], g).value;
      RowIsNamed(metrics[n], g);
      RowsOfConcat(RowsFor(metrics[..n], g).value, [row], key);
      RowsOfOne(row, key);
      DeclaredOne(Declaration(metrics[n], g));
      DeclaredConcat(OfMetrics(metrics[..n], g, key), [Declaration(metrics[n], g)]);
    }
  }

  lemma NothingListed(key: string)
    ensures AllRowsOk([]) && DeclaredRows([]) == [] && RowsOf([], key) == []
  {
  }

  lemma {:induction false} TestsList(groups: seq<SampleGroup>, key: string)
    requires TestRows(groups).Ok?
    ensures AllRowsOk(Declarations(groups, key))
    ensures RowsOf(TestRows(groups).value, key) == DeclaredRows(Declarations(groups, key))
  {
    hide RowsFor, DeclaredRows, AllRowsOk, OfMetrics;
    if groups == [] {
      NothingListed(key);
    } else {
      var n := |groups| - 1;
      var last := groups[n];
      TestsList(groups[..n], key);
      OneTestLists(last.metrics, last, key);
      RowsOfConcat(TestRows(groups[..n]).value, RowsFor(last.metrics, last).value, key);
      DeclaredConcat(Declarations(groups[..n], key), OfMetrics(last.metrics, last, key));
    }
  }

  lemma RunRowNamed(m: MetricDefinition, contributors: seq<SampleGroup>)
    requires contributors != [] && RunRow(m, contributors).Ok?
    ensures RunRow(m, contributors).value.key == m.key
  {
    hide RowFor, Completed, OneClass;
    if OneClass(contributors) {
      RowIsNamed(m, SampleGroup(None, contributors[0].class', [m], AllSamples(contributors)));
    }
  }

  lemma RunRowOfNamed(groups: seq<SampleGroup>, key: string)
    requires key in Keys(groups) && RunRowOf(groups, key).Ok?
    ensures RunRowOf(groups, key).value.key == key
  {
    KeyIsDeclared(groups, key);
    hide RunRow, Contributors, Definition, Keys;
    RunRowNamed(Definition(groups, key).value, Contributors(groups, key));
  }

  predicate NoneTwice(keys: seq<string>) {
    forall i, j :: 0 <= i < j < |keys| ==> keys[i] != keys[j]
  }

  lemma RunRowsFront(groups: seq<SampleGroup>, keys: seq<string>)
    requires keys != [] && AllDeclared(groups, keys) && RunRows(groups, keys).Ok?
    ensures var n := |keys| - 1;
            && AllDeclared(groups, keys[..n]) && RunRows(groups, keys[..n]).Ok? && RunRowOf(groups, keys[n]).Ok?
            && RunRows(groups, keys).value == RunRows(groups, keys[..n]).value + [RunRowOf(groups, keys[n]).value]
  {
    hide RunRowOf, Keys;
  }

  lemma FrontKey(keys: seq<string>, key: string)
    requires keys != [] && NoneTwice(keys)
    ensures var n := |keys| - 1;
            && NoneTwice(keys[..n])
            && (key in keys <==> key in keys[..n] || key == keys[n])
            && (key in keys[..n] ==> key != keys[n])
  {
    var n := |keys| - 1;
    assert keys == keys[..n] + [keys[n]];
    if key in keys[..n] {
      var i :| 0 <= i < n && keys[i] == key;
      assert keys[i] != keys[n];
    }
  }

  /** One run row for each key listed. */
  lemma {:induction false} RunRowsOfKey(groups: seq<SampleGroup>, keys: seq<string>, key: string)
    requires AllDeclared(groups, keys) && NoneTwice(keys) && RunRows(groups, keys).Ok?
    ensures key in keys ==> key in Keys(groups) && RunRowOf(groups, key).Ok?
    ensures RowsOf(RunRows(groups, keys).value, key) == if key in keys then [RunRowOf(groups, key).value] else []
  {
    hide RunRowOf, Keys, RunRows, RowsOf, NoneTwice;
    if keys == [] {
      NoRunRows(groups);
      NothingListed(key);
    } else {
      var n := |keys| - 1;
      RunRowsFront(groups, keys);
      FrontKey(keys, key);
      RunRowsOfKey(groups, keys[..n], key);
      RunRowOfNamed(groups, keys[n]);
      RowsOfConcat(RunRows(groups, keys[..n]).value, [RunRowOf(groups, keys[n]).value], key);
      RowsOfOne(RunRowOf(groups, keys[n]).value, key);
    }
  }

  lemma SortedOnce(keys: seq<string>)
    requires Strings.Ascending(keys)
    ensures NoneTwice(keys)
  {
  }

  /** What a run reports of a key: the row of each declaration, in order, and one row for the run, of the first
      declaration's metric over the samples of all of them. */
  ghost predicate Reports(rows: Rows, key: string, declarations: seq<Declaration>, run: AggregatedMetric) {
    && declarations != [] && AllRowsOk(declarations)
    && RowsOf(rows, key) == DeclaredRows(declarations) + [run]
    && RunRow(declarations[0].metric, TestsOf(declarations)) == Ok(run)
  }

  /** The rows of any declared key in the list a run reports. */
  lemma RowsOfKey(groups: seq<SampleGroup>, key: string) returns (run: AggregatedMetric)
    requires key in Keys(groups) && AllRows(groups).Ok?
    ensures Reports(AllRows(groups).value, key, Declarations(groups, key), run)
  {
    var keys := Strings.SortedKeys(Keys(groups));
    hide Keys, Contributors, Definition, TestRows, RunRows, RunRow, Strings.SortedKeys, RowsOf, Declarations, DeclaredRows,
         AllRowsOk, TestsOf, NoneTwice;
    KeyIsDeclared(groups, key);
    DeclarationsAre(groups, key);
    SortedOnce(keys);
    assert key in keys;
    TestsList(groups, key);
    RunRowsOfKey(groups, keys, key);
    RowsOfConcat(TestRows(groups).value, RunRows(groups, keys).value, key);
    run := RunRowOf(groups, key).value;
  }

  // ---------------------------------------------------------------------------------------
  // Every sample once
  // ---------------------------------------------------------------------------------------

  function AccountedSum(rows: Rows): nat { CountSum(rows) + ExcludedSum(rows) }

  lemma {:induction false} DeclaredAccount(declarations: seq<Declaration>)
    requires AllRowsOk(declarations)
    ensures AccountedSum(DeclaredRows(declarations)) == |AllSamples(TestsOf(declarations))|
  {
    hide RowFor;
    var rows, tests := DeclaredRows(declarations), TestsOf(declarations);
    if declarations != [] {
      var n := |declarations| - 1;
      DeclaredAccount(declarations[..n]);
      RowAccounts(declarations[n].metric, declarations[n].test);
      assert rows[..n] == DeclaredRows(declarations[..n]) && tests[..n] == TestsOf(declarations[..n]);
    }
  }

  /** However tests declare a key, and whatever is read where: its run row accounts for as many samples as its listed
      test rows together, a test counting once for each time it declares the key. */
  lemma AccountsAddUp(groups: seq<SampleGroup>, key: string) returns (run: AggregatedMetric)
    requires key in Keys(groups) && AllRows(groups).Ok?
    ensures Reports(AllRows(groups).value, key, Declarations(groups, key), run)
    ensures run.sampleCount + run.excludedCount == AccountedSum(DeclaredRows(Declarations(groups, key)))
  {
    run := RowsOfKey(groups, key);
    hide Keys, AllRows, Declarations, RunRow, DeclaredRows, TestsOf, AccountedSum, AllSamples, RowsOf;
    DeclaredAccount(Declarations(groups, key));
    RunRowAccounts(Declarations(groups, key)[0].metric, TestsOf(Declarations(groups, key)));
  }

  // ---------------------------------------------------------------------------------------
  // Declarations that read one source
  // ---------------------------------------------------------------------------------------

  predicate OneSource(declarations: seq<Declaration>) {
    forall i :: 0 <= i < |declarations| ==> declarations[i].metric.source == declarations[0].metric.source
  }

  predicate OneAggregation(declarations: seq<Declaration>) {
    forall i :: 0 <= i < |declarations| ==> declarations[i].metric.aggregation == declarations[0].metric.aggregation
  }

  /** Two lists with the same counts, row by row. */
  predicate SameCounts(a: Rows, b: Rows) {
    |a| == |b| && forall i :: 0 <= i < |a| ==> a[i].sampleCount == b[i].sampleCount && a[i].excludedCount == b[i].excludedCount
  }

  /** And the same values and spreads. */
  predicate SameFigures(a: Rows, b: Rows) {
    SameCounts(a, b) && forall i :: 0 <= i < |a| ==> a[i].value == b[i].value && a[i].dispersion == b[i].dispersion
  }

  lemma {:induction false} SameCountSums(a: Rows, b: Rows)
    requires SameCounts(a, b)
    ensures CountSum(a) == CountSum(b) && ExcludedSum(a) == ExcludedSum(b)
  {
    if a != [] {
      SameCountSums(a[..|a| - 1], b[..|b| - 1]);
    }
  }

  lemma {:induction false} SameFolds(a: Rows, b: Rows, point: real)
    requires SameFigures(a, b)
    ensures ValueSum(a) == ValueSum(b) && WeightedSum(a) == WeightedSum(b) && SpreadSum(a, point) == SpreadSum(b, point)
    ensures LeastValue(a) == LeastValue(b) && GreatestValue(a) == GreatestValue(b)
  {
    hide Lower, Higher;
    if a != [] {
      var n := |a| - 1;
      SameFolds(a[..n], b[..n], point);
      SameRow(a[n], b[n], point);
      hide RowSpread, Weight;
    }
  }

  lemma SameRow(a: AggregatedMetric, b: AggregatedMetric, point: real)
    requires a.sampleCount == b.sampleCount && a.value == b.value && a.dispersion == b.dispersion
    ensures RowSpread(a, point) == RowSpread(b, point) && Weight(a) == Weight(b)
  {
    hide Times, Sq;
  }

  lemma SameComposition(aggregation: Aggregation, run: AggregatedMetric, a: Rows, b: Rows)
    requires SameFigures(a, b) && Composes(aggregation, run, a)
    ensures Composes(aggregation, run, b)
  {
    SameFolds(a, b, if run.value.Some? then run.value.value else 0.0);
    hide ValueSum, WeightedSum, SpreadSum, LeastValue, GreatestValue, Times;
  }

  /** What a metric reads does not depend on its unit, its direction or how it combines. */
  lemma SameRead(m: MetricDefinition, m': MetricDefinition, samples: seq<SampleFacts>)
    requires m.key == m'.key && m.source == m'.source
    ensures Resolve(m, samples) == Resolve(m', samples)
    ensures Values(m, Resolve(m, samples), samples) == Values(m', Resolve(m', samples), samples)
  {
    SameValues(m, m', Resolve(m, samples), samples);
    hide Values, Registered, DetailNumber;
  }

  lemma {:induction false} SameValues(m: MetricDefinition, m': MetricDefinition, origin: Origin, samples: seq<SampleFacts>)
    requires m.key == m'.key
    ensures Values(m, origin, samples) == Values(m', origin, samples)
  {
    hide DetailNumber;
    if samples != [] {
      SameValues(m, m', origin, samples[..|samples| - 1]);
    }
  }

  lemma SameRowFigures(m: MetricDefinition, m': MetricDefinition, g: SampleGroup)
    requires m.key == m'.key && m.source == m'.source && !PerSet(m.key) && RowFor(m, g).Ok? && RowFor(m', g).Ok?
    ensures var a, b := RowFor(m, g).value, RowFor(m', g).value;
            && a.sampleCount == b.sampleCount && a.excludedCount == b.excludedCount
            && (m.aggregation == m'.aggregation ==> a.value == b.value && a.dispersion == b.dispersion)
  {
    SameRead(m, m', g.samples);
    hide Values, Resolve, PerSet, Combine, DispersionOf;
  }

  lemma DeclaredLikeOwn(declarations: seq<Declaration>, key: string)
    requires declarations != [] && AllRowsOk(declarations) && OfKey(declarations, key) && OneSource(declarations)
    requires Combinable(declarations[0].metric)
    ensures SameCounts(OwnRows(declarations[0].metric, TestsOf(declarations)), DeclaredRows(declarations))
    ensures OneAggregation(declarations) ==>
      SameFigures(OwnRows(declarations[0].metric, TestsOf(declarations)), DeclaredRows(declarations))
  {
    var m, tests, rows := declarations[0].metric, TestsOf(declarations), DeclaredRows(declarations);
    var own := OwnRows(m, tests);
    hide RowFor, DeclaredRows, TestsOf, OwnRows, PerSet;
    forall i | 0 <= i < |rows|
      ensures own[i].sampleCount == rows[i].sampleCount && own[i].excludedCount == rows[i].excludedCount
      ensures OneAggregation(declarations) ==> own[i].value == rows[i].value && own[i].dispersion == rows[i].dispersion
    {
      OwnRowAt(m, tests, i);
      SameRowFigures(m, declarations[i].metric, declarations[i].test);
    }
  }

  lemma {:induction false} OwnRowAt(m: MetricDefinition, tests: seq<SampleGroup>, i: nat)
    requires Combinable(m) && i < |tests|
    ensures RowFor(m, tests[i]).Ok? && OwnRows(m, tests)[i] == RowFor(m, tests[i]).value
  {
    hide RowFor;
    OwnRowsStep(m, tests);
    if i < |tests| - 1 {
      OwnRowAt(m, tests[..|tests| - 1], i);
    } else {
      RowOfValues(m, tests[i]);
    }
  }

  /** In the list a run reports, for a key whose declarations read one source and whose tests share one measurement
      class: the run's counts are the sums of the listed test rows' if and only if every test reads the metric where the
      run does or has nothing to read; and then, where the declarations combine alike, the run's figures come from the
      listed rows'. */
  lemma ListedRowsCompose(groups: seq<SampleGroup>, key: string) returns (run: AggregatedMetric)
    requires key in Keys(groups) && AllRows(groups).Ok?
    requires var declarations := Declarations(groups, key);
             OneSource(declarations) && OneClass(TestsOf(declarations)) && (declarations != [] ==> Combinable(declarations[0].metric))
    ensures Reports(AllRows(groups).value, key, Declarations(groups, key), run)
    ensures var declarations := Declarations(groups, key);
            var m, tests, listed := declarations[0].metric, TestsOf(declarations), DeclaredRows(declarations);
            var alike := AllReadAlike(m, Resolve(m, AllSamples(tests)), tests);
            && (run.sampleCount == CountSum(listed) <==> alike)
            && (run.excludedCount == ExcludedSum(listed) <==> alike)
            && (alike && OneAggregation(declarations) ==> Composes(m.aggregation, run, listed))
  {
    run := RowsOfKey(groups, key);
    DeclarationsAre(groups, key);
    hide Keys, AllRows, Contributors, Definition, RowsOf;
    DeclarationsCompose(Declarations(groups, key), key, run);
  }

  lemma DeclarationsCompose(declarations: seq<Declaration>, key: string, run: AggregatedMetric)
    requires declarations != [] && AllRowsOk(declarations) && OfKey(declarations, key)
    requires OneSource(declarations) && OneClass(TestsOf(declarations)) && Combinable(declarations[0].metric)
    requires RunRow(declarations[0].metric, TestsOf(declarations)) == Ok(run)
    ensures var m, tests, listed := declarations[0].metric, TestsOf(declarations), DeclaredRows(declarations);
            var alike := AllReadAlike(m, Resolve(m, AllSamples(tests)), tests);
            && (run.sampleCount == CountSum(listed) <==> alike)
            && (run.excludedCount == ExcludedSum(listed) <==> alike)
            && (alike && OneAggregation(declarations) ==> Composes(m.aggregation, run, listed))
  {
    hide DeclaredRows, TestsOf, AllRowsOk, OwnRows, RunRow, AllReadAlike, OneClass, Composes, CountSum, ExcludedSum,
         OneAggregation, OneSource, OfKey, Resolve, AllSamples, SameCounts, SameFigures, Combinable;
    var m, tests, listed := declarations[0].metric, TestsOf(declarations), DeclaredRows(declarations);
    DeclaredLikeOwn(declarations, key);
    SameCountSums(OwnRows(m, tests), listed);
    CountsAddUp(m, tests);
    if AllReadAlike(m, Resolve(m, AllSamples(tests)), tests) && OneAggregation(declarations) {
      RunRowComposes(m, tests);
      SameComposition(m.aggregation, run, OwnRows(m, tests), listed);
    }
  }

  /** A key with a declared source or a registered formula is read in one place by all its tests, so its counts add and
      its figures compose whatever the samples are. */
  lemma FixedSourceComposes(groups: seq<SampleGroup>, key: string) returns (run: AggregatedMetric)
    requires key in Keys(groups) && AllRows(groups).Ok?
    requires var declarations := Declarations(groups, key);
             OneSource(declarations) && OneClass(TestsOf(declarations)) && (declarations != [] ==> Combinable(declarations[0].metric))
    requires Registered(key) || forall i :: 0 <= i < |Declarations(groups, key)| ==> Declarations(groups, key)[i].metric.source != Auto
    ensures Reports(AllRows(groups).value, key, Declarations(groups, key), run)
    ensures var declarations := Declarations(groups, key);
            var listed := DeclaredRows(declarations);
            && run.sampleCount == CountSum(listed) && run.excludedCount == ExcludedSum(listed)
            && (OneAggregation(declarations) ==> Composes(declarations[0].metric.aggregation, run, listed))
  {
    run := ListedRowsCompose(groups, key);
    DeclarationsAre(groups, key);
    var declarations := Declarations(groups, key);
    assert declarations[0].metric.key == key;
    hide Keys, AllRows, Contributors, Definition, RowsOf, Declarations, DeclaredRows, TestsOf, RunRow, Composes, Registered,
         AllReadAlike, Resolve, AllSamples, OneAggregation;
    FixedSourceReadsAlike(declarations[0].metric, TestsOf(declarations));
  }

  // ---------------------------------------------------------------------------------------
  // Metrics of a whole set
  // ---------------------------------------------------------------------------------------

  /** The samples a per-set metric is taken over: all completed ones, or those that measured a context length. */
  function TakenOver(key: string, samples: seq<SampleFacts>): nat {
    if key == "effective_context_tokens" then Gather(Completed(samples)).used else |Completed(samples)|
  }

  lemma {:induction false} CompletedConcat(a: seq<SampleFacts>, b: seq<SampleFacts>)
    ensures Completed(a + b) == Completed(a) + Completed(b)
  {
    if b == [] {
      assert a + b == a;
    } else {
      assert (a + b)[..|a + b| - 1] == a + b[..|b| - 1];
      CompletedConcat(a, b[..|b| - 1]);
    }
  }

  lemma GatherStep(completed: seq<SampleFacts>)
    requires completed != []
    ensures var front, last := Gather(completed[..|completed| - 1]), completed[|completed| - 1];
            Gather(completed).used == front.used + if Length(last).Some? then 1 else 0
  {
    hide Length, DetailNumber;
  }

  lemma {:induction false} GatherConcat(a: seq<SampleFacts>, b: seq<SampleFacts>)
    ensures Gather(a + b).used == Gather(a).used + Gather(b).used
  {
    hide Gather;
    if b == [] {
      assert a + b == a;
      NothingGathered();
    } else {
      assert (a + b)[..|a + b| - 1] == a + b[..|b| - 1];
      GatherStep(a + b);
      GatherStep(b);
      GatherConcat(a, b[..|b| - 1]);
    }
  }

  lemma NothingGathered()
    ensures Gather([]).used == 0
  {
  }

  lemma TakenOverConcat(key: string, a: seq<SampleFacts>, b: seq<SampleFacts>)
    ensures TakenOver(key, a + b) == TakenOver(key, a) + TakenOver(key, b)
  {
    hide Completed, Gather;
    CompletedConcat(a, b);
    GatherConcat(Completed(a), Completed(b));
  }

  lemma PerSetRow(m: MetricDefinition, g: SampleGroup)
    requires PerSet(m.key) && RowFor(m, g).Ok?
    ensures RowFor(m, g).value.sampleCount == TakenOver(m.key, g.samples)
    ensures RowFor(m, g).value.excludedCount == |g.samples| - TakenOver(m.key, g.samples)
  {
    hide PerSet, Completed, Gather, EffectiveOf, Values, Combine, DispersionOf;
  }

  lemma {:induction false} PerSetSums(declarations: seq<Declaration>, key: string)
    requires PerSet(key) && AllRowsOk(declarations) && OfKey(declarations, key)
    ensures CountSum(DeclaredRows(declarations)) == TakenOver(key, AllSamples(TestsOf(declarations)))
  {
    hide RowFor, PerSet, TakenOver;
    var rows, tests := DeclaredRows(declarations), TestsOf(declarations);
    if declarations == [] {
      NothingTaken(key);
    } else {
      var n := |declarations| - 1;
      PerSetSums(declarations[..n], key);
      PerSetRow(declarations[n].metric, declarations[n].test);
      assert rows[..n] == DeclaredRows(declarations[..n]) && tests[..n] == TestsOf(declarations[..n]);
      TakenOverConcat(key, AllSamples(tests[..n]), tests[n].samples);
    }
  }

  lemma NothingTaken(key: string)
    ensures TakenOver(key, []) == 0
  {
  }

  lemma PerSetRunRow(m: MetricDefinition, tests: seq<SampleGroup>)
    requires PerSet(m.key) && tests != [] && RunRow(m, tests).Ok?
    requires OneClass(tests) || m.key != "effective_context_tokens"
    ensures RunRow(m, tests).value.sampleCount == TakenOver(m.key, AllSamples(tests))
  {
    hide PerSet, RowFor, AllSamples, Completed, Gather, OneClass;
    if OneClass(tests) {
      PerSetRow(m, SampleGroup(None, tests[0].class', [m], AllSamples(tests)));
    }
  }

  /** A per-set key's run counts are the sums of its listed test rows', however it is declared; for the effective
      context length, where the tests share one measurement class. */
  lemma PerSetCountsAdd(groups: seq<SampleGroup>, key: string) returns (run: AggregatedMetric)
    requires key in Keys(groups) && AllRows(groups).Ok? && PerSet(key)
    requires OneClass(TestsOf(Declarations(groups, key))) || key != "effective_context_tokens"
    ensures Reports(AllRows(groups).value, key, Declarations(groups, key), run)
    ensures var listed := DeclaredRows(Declarations(groups, key));
            run.sampleCount == CountSum(listed) && run.excludedCount == ExcludedSum(listed)
  {
    run := AccountsAddUp(groups, key);
    DeclarationsAre(groups, key);
    var declarations := Declarations(groups, key);
    assert declarations[0].metric.key == key;
    hide Keys, AllRows, Contributors, Definition, RowsOf, Declarations, DeclaredRows, TestsOf, RunRow, PerSet, TakenOver,
         OneClass, AllSamples, CountSum, ExcludedSum;
    PerSetSums(declarations, key);
    PerSetRunRow(declarations[0].metric, TestsOf(declarations));
  }
}
