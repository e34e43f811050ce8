/** The effective context of a set of samples, in terms of the samples: src/freeweight/domain/aggregation.py. */
module EffectiveContexts {
  import opened Aggregation
  import opened Measures
  import opened Metrics
  import Ordering
  import opened Results
  import opened Sums

  // ---------------------------------------------------------------------------------------
  // What a sample measured
  // ---------------------------------------------------------------------------------------

  /** A completed sample that was scored and recorded a context length. */
  predicate Measured(f: SampleFacts) {
    f.completed && f.score.Some? && "context_tokens" in f.detail && f.detail["context_tokens"].Whole?
  }

  predicate MeasuredAt(f: SampleFacts, l: int) { Measured(f) && f.detail["context_tokens"] == Whole(l) }

  /** One for each sample that measured a length, this length, or this score at this length. */
  function OneMeasured(): SampleFacts -> real { (f: SampleFacts) => if Measured(f) then 1.0 else 0.0 }

  function OneAt(l: int): SampleFacts -> real { (f: SampleFacts) => if MeasuredAt(f, l) then 1.0 else 0.0 }

  function OneScored(l: int, x: real): SampleFacts -> real {
    (f: SampleFacts) => if MeasuredAt(f, l) && f.score == Some(x) then 1.0 else 0.0
  }

  /** A sample's score where it measured this length. */
  function ScoreAt(l: int): SampleFacts -> real { (f: SampleFacts) => if MeasuredAt(f, l) then f.score.value else 0.0 }

  /** A recorded number is whole or a fraction; a flag is none. */
  predicate IsNumber(value: DetailValue, x: real) {
    match value
    case Whole(n) => x == n as real
    case Fraction(y) => x == y
    case _ => false
  }

  /** The threshold a sample that measured a length recorded beside it. */
  predicate Declares(f: SampleFacts, share: real) {
    Measured(f) && "effective_context_threshold" in f.detail && IsNumber(f.detail["effective_context_threshold"], share)
  }

  predicate DeclaresAny(f: SampleFacts) {
    && Measured(f) && "effective_context_threshold" in f.detail
    && (f.detail["effective_context_threshold"].Whole? || f.detail["effective_context_threshold"].Fraction?)
  }

  /** The threshold last recorded, or four fifths. */
  predicate ThresholdIs(samples: seq<SampleFacts>, share: real) {
    || (share == 0.8 && forall i :: 0 <= i < |samples| ==> !DeclaresAny(samples[i]))
    || exists i :: 0 <= i < |samples| && LastDeclares(samples, i, share)
  }

  predicate LastDeclares(samples: seq<SampleFacts>, i: nat, share: real)
    requires i < |samples|
  {
    Declares(samples[i], share) && forall j :: i < j < |samples| ==> !DeclaresAny(samples[j])
  }

  // ---------------------------------------------------------------------------------------
  // What is gathered
  // ---------------------------------------------------------------------------------------

  /** The scores held for a length. */
  function Held(scores: map<Context, seq<real>>, l: int): seq<real> {
    if Context(l) in scores then scores[Context(l)] else []
  }

  lemma CompletedStep(samples: seq<SampleFacts>)
    requires samples != []
    ensures var front, last := samples[..|samples| - 1], samples[|samples| - 1];
            Completed(samples) == if last.completed then Completed(front) + [last] else Completed(front)
  {
  }

  lemma GatherOne(kept: seq<SampleFacts>, f: SampleFacts, l: int)
    requires f.completed
    ensures var g, g' := Gather(kept), Gather(kept + [f]);
            && Held(g'.scores, l) == (if MeasuredAt(f, l) then Held(g.scores, l) + [f.score.value] else Held(g.scores, l))
            && g'.used == (if Measured(f) then g.used + 1 else g.used)
            && (if DeclaresAny(f) then Declares(f, g'.threshold) else g'.threshold == g.threshold)
  {
    assert (kept + [f])[..|kept|] == kept;
  }

  lemma GatherStep(samples: seq<SampleFacts>, l: int)
    requires samples != []
    ensures var front, f := samples[..|samples| - 1], samples[|samples| - 1];
            var g, g' := Gather(Completed(front)), Gather(Completed(samples));
            && Held(g'.scores, l) == (if MeasuredAt(f, l) then Held(g.scores, l) + [f.score.value] else Held(g.scores, l))
            && g'.used == (if Measured(f) then g.used + 1 else g.used)
            && (if DeclaresAny(f) then Declares(f, g'.threshold) else g'.threshold == g.threshold)
  {
    hide Gather, Completed, Held;
    CompletedStep(samples);
    var f := samples[|samples| - 1];
    if f.completed {
      GatherOne(Completed(samples[..|samples| - 1]), f, l);
    }
  }

  lemma NothingGathered(l: int)
    ensures var g := Gather(Completed([])); g.scores == map[] && g.threshold == 0.8 && g.used == 0 && Held(g.scores, l) == []
  {
  }

  lemma TotalSnoc(values: seq<real>, x: real)
    ensures Total(values + [x]) == Total(values) + x
  {
    SumSnoc(values, x, Ordering.Identity);
  }

  lemma SumStep<T>(xs: seq<T>, h: T -> real)
    requires xs != []
    ensures SumOf(xs, h) == SumOf(xs[..|xs| - 1], h) + h(xs[|xs| - 1])
  {
  }

  /** A length's scores add up to those of the samples that measured it, and are as many. */
  lemma {:induction false} ScoresHeld(samples: seq<SampleFacts>, l: int)
    ensures var held := Held(Gather(Completed(samples)).scores, l);
            |held| as real == SumOf(samples, OneAt(l)) && Total(held) == SumOf(samples, ScoreAt(l))
  {
    hide Gather, Completed, Held, SumOf, Total;
    if samples == [] {
      NothingGathered(l);
      NoSum(OneAt(l));
      NoSum(ScoreAt(l));
      TotalOfNone();
    } else {
      var n := |samples| - 1;
      ScoresHeld(samples[..n], l);
      GatherStep(samples, l);
      SumStep(samples, OneAt(l));
      SumStep(samples, ScoreAt(l));
      if MeasuredAt(samples[n], l) {
        TotalSnoc(Held(Gather(Completed(samples[..n])).scores, l), samples[n].score.value);
      }
    }
  }

  lemma NoSum(h: SampleFacts -> real)
    ensures SumOf([], h) == 0.0
  {
  }

  lemma TotalOfNone()
    ensures Total([]) == 0.0
  {
  }

  /** They are those samples' scores, each as often as it was given. */
  lemma {:induction false} ScoresAreTheSamples(samples: seq<SampleFacts>, l: int, x: real)
    ensures multiset(Held(Gather(Completed(samples)).scores, l))[x] as real == SumOf(samples, OneScored(l, x))
  {
    hide Gather, Completed, Held, SumOf;
    if samples == [] {
      NothingGathered(l);
      NoSum(OneScored(l, x));
    } else {
      ScoresAreTheSamples(samples[..|samples| - 1], l, x);
      GatherStep(samples, l);
      SumStep(samples, OneScored(l, x));
    }
  }

  lemma {:induction false} CountMeasured(samples: seq<SampleFacts>)
    ensures Gather(Completed(samples)).used as real == SumOf(samples, OneMeasured())
  {
    hide Gather, Completed, SumOf, Measured;
    if samples == [] {
      NothingGathered(0);
      NoSum(OneMeasured());
    } else {
      CountMeasured(samples[..|samples| - 1]);
      GatherStep(samples, 0);
      SumStep(samples, OneMeasured());
    }
  }

  lemma {:induction false} ThresholdGathered(samples: seq<SampleFacts>)
    ensures ThresholdIs(samples, Gather(Completed(samples)).threshold)
  {
    hide Gather, Completed, Declares, DeclaresAny;
    if samples == [] {
      NothingGathered(0);
    } else {
      var n := |samples| - 1;
      var share := Gather(Completed(samples)).threshold;
      GatherStep(samples, 0);
      if DeclaresAny(samples[n]) {
        assert LastDeclares(samples, n, share);
      } else {
        ThresholdGathered(samples[..n]);
        assert forall i :: 0 <= i < n ==> samples[..n][i] == samples[i];
        if i :| 0 <= i < n && LastDeclares(samples[..n], i, share) {
          assert LastDeclares(samples, i, share);
        }
      }
    }
  }

  // ---------------------------------------------------------------------------------------
  // The figure
  // ---------------------------------------------------------------------------------------

  /** Some sample measured this length. */
  predicate Tested(samples: seq<SampleFacts>, l: int) { SumOf(samples, OneAt(l)) > 0.0 }

  lemma TestedMeans(samples: seq<SampleFacts>, l: int)
    ensures Tested(samples, l) <==> exists i :: 0 <= i < |samples| && MeasuredAt(samples[i], l)
  {
    hide SumOf, MeasuredAt;
    SumNonNegative(samples, OneAt(l));
    if i :| 0 <= i < |samples| && MeasuredAt(samples[i], l) {
      assert samples[i] in samples && OneAt(l)(samples[i]) == 1.0;
    }
  }

  /** The mean score of the samples that measured this length. */
  function Accuracy(samples: seq<SampleFacts>, l: int): real
    requires Tested(samples, l)
  {
    SumOf(samples, ScoreAt(l)) / SumOf(samples, OneAt(l))
  }

  ghost predicate ShortestTested(samples: seq<SampleFacts>, l: int) {
    Tested(samples, l) && forall k :: Tested(samples, k) ==> l <= k
  }

  /** The accuracy at this length reaches the bar, and at no longer length that was tested. */
  ghost predicate LongestReaching(samples: seq<SampleFacts>, bar: real, l: int) {
    && Tested(samples, l) && Accuracy(samples, l) >= bar
    && forall k :: Tested(samples, k) && k > l ==> Accuracy(samples, k) < bar
  }

  /** What is held of each length is what the samples measured there. */
  lemma LengthHeld(samples: seq<SampleFacts>, scores: map<Context, seq<real>>, l: int)
    requires scores == Gather(Completed(samples)).scores
    ensures Context(l) in scores <==> Tested(samples, l)
    ensures Context(l) in scores ==> scores[Context(l)] != [] && MeanOf(scores[Context(l)]) == Accuracy(samples, l)
  {
    ScoresHeld(samples, l);
    assert forall c :: c in scores ==> scores[c] != [];
    hide Gather, Completed, SumOf, Total, OneAt, ScoreAt;
  }

  lemma EffectiveOfGathered(m: MetricDefinition, samples: seq<SampleFacts>)
    requires m.key == "effective_context_tokens"
    ensures var g, r := Gather(Completed(samples)), AggregateOnly(m, samples);
            && (r.ValueError? <==> g.threshold < 0.0 || g.threshold > 1.0)
            && (forall l :: l in g.scores ==> g.scores[l] != [])
            && (r.Ok? ==> r.value == SetResult(EffectiveOf(g.scores, g.threshold), g.used, |samples| - g.used))
            && (g.scores == map[] <==> g.used == 0)
            && (g.scores == map[] ==> EffectiveOf(g.scores, g.threshold) == Unavailable(NoContextObservations))
  {
    hide Gather, Completed;
    var g := Gather(Completed(samples));
    assert (forall l :: l !in g.scores) <==> g.scores == map[];
  }

  lemma BaselineOf(samples: seq<SampleFacts>, scores: map<Context, seq<real>>) returns (shortest: int)
    requires scores == Gather(Completed(samples)).scores && scores != map[]
    ensures forall l :: l in scores ==> scores[l] != []
    ensures ShortestTested(samples, shortest)
    ensures Shortest(scores.Keys) in scores && MeanOf(scores[Shortest(scores.Keys)]) == Accuracy(samples, shortest)
  {
    assert forall c :: c in scores ==> scores[c] != [];
    hide Gather, Completed, MeanOf, Tested, Accuracy;
    shortest := Shortest(scores.Keys).tokens;
    LengthHeld(samples, scores, shortest);
    forall k | Tested(samples, k) ensures shortest <= k {
      LengthHeld(samples, scores, k);
      assert Context(k) in scores.Keys;
    }
  }

  lemma LongestOf(samples: seq<SampleFacts>, scores: map<Context, seq<real>>, bar: real, figure: real) returns (longest: int)
    requires scores == Gather(Completed(samples)).scores
    requires (forall l :: l in scores ==> scores[l] != []) && LastToClear(scores, bar, figure)
    ensures LongestReaching(samples, bar, longest) && figure == longest as real
  {
    hide Gather, Completed, MeanOf, Tested, Accuracy;
    var l :| l in scores && Means(scores, l, bar, figure);
    longest := l.tokens;
    LengthHeld(samples, scores, longest);
    forall k | Tested(samples, k) && k > longest ensures Accuracy(samples, k) < bar {
      LengthHeld(samples, scores, k);
    }
  }

  lemma FigureOf(samples: seq<SampleFacts>, scores: map<Context, seq<real>>, share: real)
    returns (shortest: int, longest: int, bar: real)
    requires scores == Gather(Completed(samples)).scores && scores != map[] && 0.0 <= share <= 1.0
    requires forall l :: l in scores ==> scores[l] != []
    ensures ShortestTested(samples, shortest) && bar == Accuracy(samples, shortest) * share
    ensures var result := EffectiveOf(scores, share);
            if Accuracy(samples, shortest) <= 0.0 then result == Unavailable(NoContextBaseline)
            else LongestReaching(samples, bar, longest) && result == Value(longest as real)
  {
    hide *;
    longest := 0;
    shortest := BaselineOf(samples, scores);
    var baseline := MeanOf(scores[Shortest(scores.Keys)]);
    bar := baseline * share;
    EffectiveFromScores(scores, share, baseline, bar);
    if baseline > 0.0 {
      longest := LongestOf(samples, scores, bar, EffectiveOf(scores, share).value);
    }
  }

  /** The threshold is the one last recorded, and refused outside [0, 1]. Every sample that measured a length counts and
      no other. Where none did there is no figure; where the shortest length's accuracy is not positive there is none
      either; otherwise it is the longest length whose accuracy keeps the threshold's share of the shortest's. */
  lemma EffectiveContextMeans(m: MetricDefinition, samples: seq<SampleFacts>)
    returns (share: real, shortest: int, bar: real, longest: int)
    requires m.key == "effective_context_tokens"
    ensures ThresholdIs(samples, share)
    ensures AggregateOnly(m, samples).ValueError? <==> share < 0.0 || share > 1.0
    ensures var r := AggregateOnly(m, samples);
            r.Ok? ==>
              && r.value.sampleCount as real == SumOf(samples, OneMeasured())
              && r.value.sampleCount + r.value.excludedCount == |samples|
              && (r.value.sampleCount == 0 ==> r.value.result == Unavailable(NoContextObservations))
              && (r.value.sampleCount > 0 ==> ShortestTested(samples, shortest) && bar == Accuracy(samples, shortest) * share)
              && (r.value.sampleCount > 0 && Accuracy(samples, shortest) <= 0.0 ==> r.value.result == Unavailable(NoContextBaseline))
              && (r.value.sampleCount > 0 && Accuracy(samples, shortest) > 0.0 ==>
                    && r.value.result == Value(longest as real)
                    && LongestReaching(samples, bar, longest))
  {
    hide *;
    var g := Gather(Completed(samples));
    share, shortest, bar, longest := g.threshold, 0, 0.0, 0;
    ThresholdGathered(samples);
    CountMeasured(samples);
    EffectiveOfGathered(m, samples);
    if 0.0 <= share <= 1.0 && g.scores != map[] {
      shortest, longest, bar := FigureOf(samples, g.scores, share);
    }
  }
}
