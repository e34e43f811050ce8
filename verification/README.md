# FreeWeight: measurements that may be believed, merged, exported or deleted

FreeWeight measures language models on one machine and decides what its numbers may be used for. This project models
the arithmetic and bookkeeping behind those decisions and proves what they promise.

- Agreement and statistics: `WeightedKappa`, `Krippendorff`, `Spearman`, `PassAtK`, `Percentiles`, `Statistics`. The
  loops over tables, maps and ranks are methods proved against closed forms; the closed forms are proved to have the
  ranges and invariances the statistics are used for. Floats are exact reals; the square root is a function assumed
  to be one (`Roots`).
- Calibration: `Validity` (the gate and the validity factor), `Partition` (the stratified split) and `Calibration` (a
  goal's stored samples and grades as a class, and every history of adding, grading and calibrating).
- Protocols over a store: `RunEvents` (writers that race for sequence numbers and subscribers that poll), `Deletion`
  (the confirmed deletion over cascading tables), `Invocation` (the bounded capture of two pipes).
- Transformations: `Provenance` (the fingerprint diff and the repeat check), `Configuration` and `EnvNames` (the layered
  configuration and its environment variables), `Canonical`, `Export`, `ExportReader`, `Separators` and
  `JsonLines` (canonical JSON, the streamed exports and their reader).
- Grouping and aggregation: `Verdicts`, `Comparison` and `Separations`; `Aggregation`, `Composition` and `RunReports`
  (the rows a run lists).

A method is proved against a function; what that function gives is proved in turn, in terms of the values, samples,
rows or characters it is given and without naming it: for the statistics in `SummaryFigures`, for calibration in
`ValidityFigures` and `Grades`, for a deletion in `DeletedRows`, for the environment in `EnvReading`, for aggregation in
`RowFigures`, `EffectiveContexts` and `AggregateRows`, for the exports in `ExportForms`, and for the others beside them.

`Sums`, `Measures`, `Agreement`, `Ordering`, `Dictionaries`, `Strings`, `Documents`, `Metrics`, `Results` and `Roots`
hold what several of these share. `dafny verify dfyconfig.toml` checks the whole project.

## Where the code falls short of what is said of it

Each of these is a lemma below, with the exact condition under which the promise holds.

- A deletion's reported counts are said to match its preview, and its statements to run deepest first. Samples are
  deleted before measurements and artifacts, whose foreign keys to samples cascade, so what is filed under a sample is
  removed without being counted (`Deletion.ReportMatchesPreview`). The schema admits such rows; the present writers
  file metric rows under a run or a test only (`src/freeweight/services/runs.py:2831`, 4191, 4238 and 4611 store None as
  the sample) and store no artifacts, so today's databases do not show the difference.
- A deletion's token is said to be invalidated by a run that finishes between preview and confirmation. It binds the
  selection and the counts, not the runs (`Deletion.AcceptedToken`): it is invalidated where no previewed run has gone
  (`Deletion.NewRunInvalidates`), and stays good where one run has taken another's place with as many rows
  (`Deletion.ReplacedRunKeepsToken`).
- The docstring of `cohens_kappa_weighted` says None when both graders are constant; the code gives None only when they
  are constant on the same grade (`WeightedKappa.KappaUndefined`, `WeightedKappa.DifferentConstants`).
- `judge_validity_factor` is said to rise when a criterion is mechanised. It never falls; it rises only for a positive
  weight, a validity below 1 and a mean that clears the floor (`Validity.MechanisingRaises`).
- A repeat can be blocked by a change its diff does not show (`Provenance.BlockerShownExactly`). The input shown
  (`Provenance.NullHashUnexplained`) has a dataset hash recorded as null; `BenchmarkManifest.dataset_hashes` is typed
  `Mapping[str, str]` (`src/freeweight/domain/benchmark.py:270`), so no manifest of the present code produces it.
- A group's stated separation can name a pair that may merge (`Separations.ContraryRuns`); it never does for runs of
  which no first one may merge with two that may not merge with each other, and only for those
  (`Separations.SeparationsDenyExactly`).
- A source label can name a layer whose section is hidden from the merge (`Configuration.LabelExact`).
- An environment variable spelled for a key does not always set that key (`EnvNames.SpelledReadsBack`,
  `EnvNames.UnderscoreMoves`). No key of the present schema is such a key: none has a capital letter, a double
  underscore, or a section or field that ends with an underscore.
- A run-level row can leave out a test that has a value of its own (`Composition.RunReadsTheTests`).
- Outlier removal can empty a series for low thresholds and negative factors (`Statistics.ModifiedZThreshold`,
  `Statistics.IqrFactor`).
- The JSON lines of several runs are refused where a text holds U+0085, U+2028 or U+2029, since the reader splits lines
  there (`JsonLines.FormsReadAlike`); a run's label is enough (`JsonLines.SeparatorInALabel`). This rests on the printer
  leaving these characters unescaped.
- `_total` in `src/freeweight/domain/aggregation.py` says a sample that reported no count is counted as excluded; the
  excluded count holds only the samples that did not complete (`Aggregation.ExcludedAreAbsent`).
- `StudyKind` says only a direct study permits merging; `may_merge` also allows a machine study
  (`Verdicts.MergesBeyondDirect`).

## Model

| member | source | states |
|---|---|---|
| WeightedKappa.CohensKappaWeighted | src/freeweight/domain/agreement.py:222-248 | The coefficient computed through the weight matrix, the observed matrix and its marginals equals 1 - n * sum (a_i - b_i)^2 / sum (a_i - b_j)^2; refused exactly for unequal lengths, fewer than three scale points or a grade off the scale |
| WeightedKappa.Tabulate | src/freeweight/domain/agreement.py:229-231 | The matrix filled by one increment per pair holds, in every cell, the number of pairs of that cell |
| WeightedKappa.KappaUndefined | src/freeweight/domain/agreement.py:223-247 | None exactly for fewer than two pairs, or when both graders gave one and the same grade throughout; two graders constant on different grades have a coefficient |
| WeightedKappa.DifferentConstants | src/freeweight/domain/agreement.py:235-247 | Two graders constant on different grades have the coefficient 0, not None |
| WeightedKappa.KappaRange | src/freeweight/domain/agreement.py:235-248 | The coefficient lies in [-1, 1] and is 1 exactly when the two series are identical |
| WeightedKappa.KappaSymmetric | src/freeweight/domain/agreement.py:198-248 | Exchanging the graders changes nothing |
| Krippendorff.KrippendorffAlpha | src/freeweight/domain/agreement.py:412-443 | Alpha computed through the coincidence map, its left totals and the expected disagreement equals 1 - (N - 1) * within / between over the pairable ratings; any other level than interval is refused |
| Krippendorff.TotalsCountRatings | src/freeweight/domain/agreement.py:420-428 | The total of a value is the number of pairable ratings of that value, the grand total the number of pairable ratings |
| Krippendorff.PoolIs | src/freeweight/domain/agreement.py:412-425 | The pool holds every rating of every unit with at least two, as often as it was given, and nothing of any other unit |
| Krippendorff.NeverExactlyOne | src/freeweight/domain/agreement.py:425-430 | There is never exactly one pairable rating, so the exit on a grand total of at most one is dead once the map is not empty |
| Krippendorff.CoincidencesSymmetric | src/freeweight/domain/agreement.py:412-424 | The coincidence map holds (l, r) with the weight it holds for (r, l) |
| Krippendorff.AlphaUndefined | src/freeweight/domain/agreement.py:425-441 | None exactly when nothing pairs or all pairable ratings are equal |
| Krippendorff.AlphaBound | src/freeweight/domain/agreement.py:431-443 | Alpha is at most 1, and is 1 exactly when every unit with two ratings is unanimous |
| Krippendorff.AlphaJurorOrder | src/freeweight/domain/agreement.py:378-443 | Alpha is unchanged when the jurors of the units are listed in another order |
| Krippendorff.AlphaScale | src/freeweight/domain/agreement.py:378-443 | Alpha is unchanged by any affine change of scale of the grades, a reversal included |
| Spearman.AverageRanks | src/freeweight/domain/agreement.py:277-290 | The nested tie scan gives every value the rank (number of smaller values) + (number of equal values + 1) / 2 |
| Spearman.TieGroupRank | src/freeweight/domain/agreement.py:281-289 | A run of equal values in sorted order from p to e gets (p + e) / 2 + 1, the mean of its ranks |
| Spearman.RankPreservesOrder | src/freeweight/domain/agreement.py:277-290 | Ranks order, and tie, exactly as the values do |
| Spearman.RankSum | src/freeweight/domain/agreement.py:277-290 | Ranks sum to n (n + 1) / 2, ties or not |
| Spearman.RanksVary | src/freeweight/domain/agreement.py:271-303 | A series with variance never has zero rank spread, so the zero-spread exit is dead behind the variance test |
| Spearman.SpearmanRho | src/freeweight/domain/agreement.py:265-303 | The correlation of the ranks; refused exactly for unequal lengths |
| Spearman.RhoUndefined | src/freeweight/domain/agreement.py:268-274 | None exactly for fewer than two pairs or a constant series |
| Spearman.RhoRange | src/freeweight/domain/agreement.py:293-303 | The correlation lies in [-1, 1] |
| Spearman.RhoMeans | src/freeweight/domain/agreement.py:293-303 | The coefficient times the roots of the squared rank distances from (n + 1) / 2 is the sum of the products of those distances |
| Spearman.RhoWithoutTies | src/freeweight/domain/agreement.py:277-303 | Without ties the coefficient is the textbook 1 - 6 sum d^2 / (n (n^2 - 1)), d the differences of the ranks |
| Spearman.RhoOrderOnly | src/freeweight/domain/agreement.py:251-274 | Unchanged by any strictly increasing relabelling of either series |
| Spearman.RhoOfSameOrder | src/freeweight/domain/agreement.py:251-274 | A jury that orders all samples as the author does scores 1 |
| PassAtK.PassAtKIsShare | src/freeweight/domain/statistics.py:513-530 | pass@k is the number of k-subsets of the attempts that hold a success over the number of k-subsets, the early answer for fewer than k failures included |
| PassAtK.DrawsCount | src/freeweight/domain/statistics.py:526-530 | There are exactly C(n, k) subsets of size k, so the binomials count draws |
| PassAtK.EstimateFormula | src/freeweight/domain/statistics.py:524-530 | The early answer for fewer than k failures agrees with the binomial formula, whose denominator is never zero |
| PassAtK.EstimateRange | src/freeweight/domain/statistics.py:524-530 | The estimate lies in [0, 1] |
| PassAtK.MoreSuccesses | src/freeweight/domain/statistics.py:524-530 | One more success never lowers it |
| PassAtK.LargerDraw | src/freeweight/domain/statistics.py:524-530 | A larger draw never lowers it |
| PassAtK.SingleDraw | src/freeweight/domain/statistics.py:524-530 | pass@1 is successes over attempts |
| PassAtK.PassAtKAnswers | src/freeweight/domain/statistics.py:513-530 | Refused exactly for k below 1 or a success count outside 0..attempts; no figure without attempts or with fewer than k; every answer stands for all attempts |
| Percentiles.PercentileProperties | src/freeweight/domain/metrics.py:299-310 | A percentile is the same for every ordering of the values and lies within the least and the greatest |
| Percentiles.BetweenNeighbours | src/freeweight/domain/metrics.py:303-310 | It lies between the two sorted values around its position |
| Percentiles.MonotoneInFraction | src/freeweight/domain/metrics.py:303-310 | It never falls as the fraction rises |
| Percentiles.AtRank | src/freeweight/domain/metrics.py:303-310 | At the fraction k / (n - 1) it is the k-th sorted value |
| Percentiles.LinearBetween | src/freeweight/domain/metrics.py:299-310 | Wherever its position falls between the k-th and the next sorted value, the percentile lies between them in proportion to that position |
| Percentiles.PercentileCounts | src/freeweight/domain/metrics.py:303-310 | How many of the values a percentile leaves at or below it, and at or above it |
| Statistics.SeriesOf | src/freeweight/domain/statistics.py:200-219 | The supported measurements in order, every other one counted as excluded |
| Statistics.Summarize | src/freeweight/domain/statistics.py:463-487 | Survivors and flagged values together are the supported values as a multiset; sample_count + excluded_count is the number of inputs; every figure is taken over the survivors |
| Statistics.SurvivorsConserve | src/freeweight/domain/statistics.py:225-232 | Removing the flagged positions loses exactly the flagged values |
| Statistics.ModifiedZKeepsHalf | src/freeweight/domain/statistics.py:373-391 | With a threshold of at least 0.6745 the modified z-score keeps at least half of any series |
| Statistics.ModifiedZThreshold | src/freeweight/domain/statistics.py:373-391 | Removal leaves something of every non-empty series if and only if the threshold is at least 0.6745; below it 0, 0, 2, 2 is emptied |
| Statistics.IqrSparesQuartiles | src/freeweight/domain/statistics.py:394-404 | With a factor of at least 0 no value between the quartiles is flagged |
| Statistics.QuartilesHoldAValue | src/freeweight/domain/statistics.py:394-404 | From four values on, one lies between the quartiles |
| Statistics.IqrFactor | src/freeweight/domain/statistics.py:394-404 | Removal leaves something of every non-empty series if and only if the factor is at least 0 |
| Statistics.FiguresOrdered | src/freeweight/domain/statistics.py:463-487 | minimum <= p50 <= p95 <= p99 <= maximum, the mean lies between, the median is p50; an empty series refuses every figure with a reason |
| SummaryFigures.SupportedAre | src/freeweight/domain/statistics.py:200-219 | The series holds every supported measurement as often as it was given |
| SummaryFigures.ModifiedZFlags | src/freeweight/domain/statistics.py:373-391 | A position is flagged exactly from three values on, with a positive median distance from the median, and where its own distance times 0.6745 exceeds the threshold times that |
| SummaryFigures.IqrFlags | src/freeweight/domain/statistics.py:394-404 | A position is flagged exactly from four values on, with the quartiles apart, and where its value lies further outside them than the factor times their distance |
| SummaryFigures.CentralFigures | src/freeweight/domain/statistics.py:250-296 | The mean times the number of values is their sum; minimum and maximum are values and bound them all; the median and the percentiles are those of the values |
| SummaryFigures.SpreadFigures | src/freeweight/domain/statistics.py:299-334 | The deviation is the non-negative number whose square times n - 1 is the sum of the squared distances from the mean; relative to the mean it is given for a positive mean only, and neither for one value |
| Validity.CriterionValidityMonotone | src/freeweight/domain/calibration.py:180-207 | Validity lies in [0, 1], never falls as kappa or the holdout grows, and is kappa itself from the target on |
| ValidityFigures.ValiditySquared | src/freeweight/domain/calibration.py:206-207 | Up to the target, the validity is not negative, and its square times the target is the holdout times the square of the larger of 0 and kappa |
| Validity.JudgeValidityFactor | src/freeweight/domain/calibration.py:243-265 | The accumulating loop computes the weighted mean of the criteria validities, clamped to [0.05, 1]; refused without weights, for a judged criterion without one, and for weights not positive in sum |
| ValidityFigures.FactorMeans | src/freeweight/domain/calibration.py:243-265 | When a rubric is refused, and otherwise the factor: the mean of the validity of each judged and 1 for each other criterion, by weight, kept within [0.05, 1] |
| ValidityFigures.OneCriterionFactor | src/freeweight/domain/calibration.py:206-265 | A rubric of one judged criterion has its validity as factor, not below 0.05, so the factor's square is in proportion to the holdout |
| ValidityFigures.QuarterHoldout | src/freeweight/domain/calibration.py:206-265 | Five of twenty held out at a kappa of 0.8 give the factor 0.4 |
| Validity.NothingJudged | src/freeweight/domain/calibration.py:243-265 | A rubric with no judged criterion has factor 1 |
| Validity.FactorMonotone | src/freeweight/domain/calibration.py:243-265 | The factor lies in [0.05, 1] and never falls when a criterion leaves judged, a kappa rises or a holdout grows |
| Validity.MechanisingRaises | src/freeweight/domain/calibration.py:243-265 | Dropping one criterion from judged strictly raises the factor if and only if its weight is positive, its own validity is below 1 and the weighted mean then is above 0.05 |
| Validity.MechanisingIsNoWorse | src/freeweight/domain/calibration.py:243-265 | Dropping one criterion from judged is such a change |
| Validity.WeightedMeanBetween | src/freeweight/domain/agreement.py:458-464 | The gated figure lies between the least and the greatest measured kappa |
| ValidityFigures.WeightedMeanIs | src/freeweight/domain/agreement.py:458-464 | The gated figure times the measured positive weights is the sum of the coefficients times them; none where nothing measured has a positive weight |
| ValidityFigures.GateMeans | src/freeweight/domain/calibration.py:355-401 | Each state exactly: not required without judged criteria, insufficient below the minimum of graded samples, calibrated where the gated figure reaches the minimum agreement; and what each verdict carries |
| Validity.RaisingKeepsCalibrated | src/freeweight/domain/calibration.py:355-401 | Raising measured kappas never turns calibrated into another state |
| Partition.PartitionSamples | src/freeweight/domain/calibration.py:154-177 | The strata loop with its shuffles and in-place extensions computes the specified split, of which the rows below tell what it holds; a fraction outside (0, 1) is refused |
| Partition.HoldoutIsShare | src/freeweight/domain/calibration.py:163-171 | Of the n samples of each grade as many are held out as the integer nearest to n times the fraction, the even one of two; but one where that is none of two or more, and n - 1 where it is all of two or more |
| Partition.HoldoutIsFirst | src/freeweight/domain/calibration.py:154-173 | Which they are: the first of the grade's samples, taken in ascending order and shuffled, whatever order they were given in |
| Partition.CountsOfGrades | src/freeweight/domain/calibration.py:154-177 | The counts beside the halves go through the grades in ascending order, each with the number of its samples |
| Partition.PartitionCovers | src/freeweight/domain/calibration.py:154-177 | Whatever the shuffle, the halves together hold every graded sample as often as it was given |
| Partition.PartitionDisjoint | src/freeweight/domain/calibration.py:154-177 | With distinct samples each is in exactly one half |
| Partition.PartitionSpans | src/freeweight/domain/calibration.py:163-173 | Every grade held by two or more samples is present in both halves |
| Calibration.Goal.AddSamples | src/freeweight/services/calibration.py:412-448 | New texts are stored once each, in order, as held out, with where they came from, and their new ids returned in that order; a text already stored or already pending is dropped; one bad entry refuses the batch |
| Calibration.PromotedIsOnRecord | src/freeweight/services/calibration.py:451-500 | Over every history, whatever callers send beside an id: each stored sample that names a run sample has the text, model and goal task on record of it |
| Calibration.Goal.RecordGrades | src/freeweight/services/calibration.py:568-612 | Grades replace the row of the same sample and criterion: afterwards each such pair has one row, the last submitted for it, or where none was, the row there was; one unacceptable submission refuses all of them and changes nothing |
| Calibration.UpsertAllIs | src/freeweight/services/calibration.py:603-611 | The same of the rows alone, whatever was stored with one row for each pair |
| Grades.GradesAfter | src/freeweight/services/calibration.py:568-612 | The same after every history of adding, grading and calibrating |
| Grades.AcceptableMeans | src/freeweight/services/calibration.py:579-602 | Acceptable is a stored sample, a criterion with a scale, and a grade from 1 to its number of points |
| Calibration.Goal.RunCalibration | src/freeweight/services/calibration.py:1017-1079 | Refuses too few graded samples or a constant author; otherwise partitions the graded samples, relabels exactly the partitioned ones, and hands out the exemplars of the anchor half and the texts of the held-out half |
| Grades.RefusedExactly | src/freeweight/services/calibration.py:1017-1066 | Refused exactly for too few samples with a grade, for a judged criterion all of whose grades are the same, or for a share to hold out outside (0, 1) |
| Grades.GradedSamplesAre | src/freeweight/services/calibration.py:1017-1058 | Partitioned are the stored samples with a grade, each once, under the representative of its grades |
| Grades.RepresentativeMeans | src/freeweight/services/calibration.py:661-667 | The representative grade lies within one half of the middle of the sorted grades, and is even where it is exactly one half away |
| Grades.ExemplarsAre | src/freeweight/services/calibration.py:1198-1225 | Exemplars are the author's rows of the anchors, each with criterion, grade and note, and the text stored of its sample |
| Calibration.BuildExemplars | src/freeweight/services/calibration.py:1198-1225 | The loop over rows builds, for each anchor, one exemplar per grade row of it |
| Calibration.RunKeeps | src/freeweight/services/calibration.py:375-448 | Over every history of adding, grading and calibrating, under every shuffle: texts stay distinct, grades stay on stored samples, and the stored anchors are the last partition's |
| Calibration.HalvesExactly | src/freeweight/services/calibration.py:1060-1079 | The two halves are disjoint and hold exactly the stored samples that have a grade |
| Calibration.CalibrationSpans | src/freeweight/services/calibration.py:1060-1066 | Every grade given to two or more samples is present in both halves of every calibration of every history |
| Calibration.NoHeldOutExemplar | src/freeweight/services/calibration.py:670-709 | After any history, no exemplar shown to a run's jury has the text of a sample stored as held out |
| Calibration.NoLeakWhileCalibrating | src/freeweight/services/calibration.py:1067-1079 | In every calibration of every history, no exemplar handed to the jury has the text of a sample it is measured on |
| Calibration.RunsSeeTheSameExemplars | src/freeweight/services/calibration.py:670-709 | The exemplars a run reads back from the stored labels are, criterion by criterion, those the calibration's jury was shown |
| RunEvents.SequencesAreGapFree | src/freeweight/services/events.py:222-253 | Under any interleaving of writers that read max + 1 and commit against the uniqueness constraint, the committed sequences of a run are exactly 1..n |
| RunEvents.SubscribersSeeAPrefix | src/freeweight/services/events.py:261-282 | Whatever the batch limits and reconnections, a subscriber has received exactly a prefix of the run's log, up to the event it would resume after |
| RunEvents.ExhaustionNeedsContention | src/freeweight/services/events.py:222-258 | The sequences one call tries strictly increase; it runs out of retries only after other writers committed at least eight events to that run during the call |
| RunEvents.BatchIsStretch | src/freeweight/infrastructure/db/repositories/runs.py:932-971 | On a gap-free log one batch is exactly the next stretch of it, as long as the limit or as what is left, whichever is less |
| RunEvents.PolledIsReceived | src/freeweight/services/events.py:261-282 | A subscriber that polls and is delivered its batch has then received exactly so much more of its run's log |
| RunEvents.UndisturbedCommitStores | src/freeweight/services/events.py:222-253 | In every history a writer with no other commit to its run since its read stores its event, next in the log |
| RunEvents.LostCommit | src/freeweight/services/events.py:222-258 | And one whose sequence was taken stores nothing, and reads again until it has tried eight |
| RunEvents.StepTouches | src/freeweight/services/events.py:206-282 | A step leaves every other writer and subscriber as it was, the rows unless it is a commit, and everything where the call is not at that point, the type is unknown or there is no such subscriber |
| RunEvents.EventStore.Publish | src/freeweight/services/events.py:215-258 | Refuses an unknown type and stores nothing; otherwise stores the event in the first of eight windows in which no other writer committed to the run, at the sequence then next, and gives up exactly when there is none |
| Deletion.SubqueriesStand | src/freeweight/services/database_admin.py:754-779 | Each statement's re-evaluated subqueries still select what they selected before the first statement |
| Deletion.SameAsCascade | src/freeweight/services/database_admin.py:763-793 | The eleven ordered statements leave exactly what the schema's declared cascade from the runs would have left |
| DeletedRows.SurvivorsAre | src/freeweight/services/database_admin.py:754-793 | Of every table exactly the rows are left, unchanged and in order, that are not of a selected run and not linked to a sample, a test or a reading of one; read off the rows' own links |
| DeletedRows.PreviewCounts | src/freeweight/services/database_admin.py:572-608 | A table's previewed count is the number of its rows whose own chain of parents leads to a selected run |
| DeletedRows.ReportCounts | src/freeweight/services/database_admin.py:785-793 | A table's reported count is that number less, for measurements and artifacts, the rows filed under a sample of a selected run |
| DeletedRows.CrossLinksMean | src/freeweight/infrastructure/db/models_runs.py:264-600 | What is asked of the links across runs below: every row under a test, sample or reading of a selected run is itself of a selected run |
| Deletion.NoOrphan | src/freeweight/infrastructure/db/models_runs.py:264-600 | No survivor has lost its parent |
| Deletion.SurvivorsExactly | src/freeweight/services/database_admin.py:763-793 | The survivors are exactly the rows the selected runs do not own, if and only if no row of another run hangs off one of their samples, tests or telemetry readings |
| Deletion.RemovesWhatWasPreviewed | src/freeweight/services/database_admin.py:572-608 | Every table loses exactly its previewed count, under the same condition and only under it |
| Deletion.ReportMatchesPreview | src/freeweight/services/database_admin.py:785-793 | The reported counts equal the previewed ones if and only if no measurement or artifact of the selected runs is filed under one of their samples; they never exceed them |
| Deletion.SampleMeasurementUnreported | src/freeweight/services/database_admin.py:776-778 | One run with one measurement of its one sample: previewed, removed, and missing from the report, because deleting the sample first cascades it away |
| DeletedRows.CalibrationIs | src/freeweight/infrastructure/db/models_goals.py:256-258 | Every calibration row survives; it forgets its sample exactly when that sample is removed |
| Deletion.AcceptedToken | src/freeweight/services/database_admin.py:649-656 | A token is accepted later, for whatever runs and tables, if and only if the selection is the same and every table selects as many rows as it did |
| Deletion.NewRunInvalidates | src/freeweight/services/database_admin.py:649-656 | A run that comes to match between preview and confirmation, while none that matched is gone, invalidates the token |
| Deletion.ReplacedRunKeepsToken | src/freeweight/services/database_admin.py:649-656 | One run gone and another one in its place: the token stays good, and the run nobody previewed is deleted |
| Deletion.Database.RunPlan | src/freeweight/services/database_admin.py:756-793 | The eleven statements one after the other end in exactly the specified tables and report each one's row count |
| Deletion.Database.RemovalCounts | src/freeweight/services/database_admin.py:572-608 | The loop counts, for every table, the rows its condition selects, and omits tables that would lose none |
| Deletion.Database.DeleteResults | src/freeweight/services/database_admin.py:731-793 | A token not issued for this selection with the counts of now is refused and nothing changes; otherwise the tables end exactly as specified and each statement's row count is reported |
| Invocation.RunInvocation | src/freeweight/external/invocation.py:148-187 | For every schedule of ready pipes and chunk sizes, and every cap (a negative one admitting nothing): truncated exactly where the reads yield more than the cap admits; timed out exactly where the process is not reaped in time, or the capture is not truncated and some pipe's end was not seen; not truncated, each capture is what its reads yield; each is a prefix of what was written, together within the cap, and at the cap when truncated; a complete capture is every byte of both streams |
| Provenance.DiffDocuments | src/freeweight/domain/provenance.py:255-267 | The entries of the recursive walk, sorted by path; none if and only if the two documents are equal once null-valued keys of nested objects are dropped |
| Provenance.SilentIffAlike | src/freeweight/domain/provenance.py:257-264 | The same, for the walk of any two values under any prefix |
| Provenance.EntriesReadBack | src/freeweight/domain/provenance.py:255-267 | With non-empty keys free of dots, no entry's path equals or lies below another's, and reading either document at an entry's path gives that entry's side, the two being different |
| Provenance.Get | src/freeweight/domain/provenance.py:299-306 | The cursor loop follows the path through objects and gives None past anything else |
| Provenance.CheckRepeatable | src/freeweight/domain/provenance.py:366-374 | One blocker for each of the four checked paths whose two values differ, in order |
| Provenance.BlockersAre | src/freeweight/domain/provenance.py:335-374 | Blocked, in this order, by a moved artifact digest, machine fingerprint, provider version and dataset hashes, each with both values and its reason |
| Provenance.BlockersShow | src/freeweight/domain/provenance.py:335-374 | Every blocker has a diff entry at or below its path when the checked values hold no null-valued keys |
| Provenance.BlockerShownExactly | src/freeweight/domain/provenance.py:255-374 | With plain keys a checked path has an entry at or below it if and only if its two values differ beyond null-valued keys |
| Provenance.NullHashUnexplained | src/freeweight/domain/provenance.py:357-374 | A dataset hash recorded as null against one not recorded blocks a repeat while the diff is empty |
| Verdicts.VerdictForPair | src/freeweight/domain/comparison.py:321-366 | The verdict by suite, matrix outcome, and the first dimension that differs; a field-level diff is attached exactly when the study is not direct and both documents are there and differ beyond null-valued keys |
| Verdicts.StudyExactly | src/freeweight/domain/comparison.py:245-366 | For each of the six studies exactly when it is the one, by what differs and what the matrix says; and the comparability |
| Verdicts.ReasonExactly | src/freeweight/domain/comparison.py:245-366 | Which sentence is the reason, and what it names |
| Verdicts.MergesBeyondDirect | src/freeweight/domain/comparison.py:68-77 | A direct study permits merging; so does another exactly where the matrix warns of two subjects of one suite on different machines |
| Verdicts.InsideAGroup | src/freeweight/domain/comparison.py:222-229 | Any two members of a group, of any list of distinct runs, have a verdict that permits merging, and its study is direct unless the matrix warned of them across machines |
| Verdicts.MachineStudyMerges | src/freeweight/domain/comparison.py:345-352 | Two runs on two machines form one group under a verdict that is a machine study |
| Comparison.GroupSubjects | src/freeweight/domain/comparison.py:411-455 | Every pair's verdict in order; the first-fit groups of the for-else loop over the table of all verdicts; each later group under the verdict on its founder and the first founder |
| Comparison.GroupsPartition | src/freeweight/domain/comparison.py:423-435 | The groups are not empty and hold exactly the given runs |
| Comparison.GroupsKeepOrder | src/freeweight/domain/comparison.py:423-427 | In each group the members stand in the order they were given |
| Comparison.GroupsAreMergeable | src/freeweight/domain/comparison.py:423-435 | For an arbitrary, non-transitive verdict: inside a group every pair may merge, and every member of a later group is unmergeable with some member of each earlier group |
| Comparison.GroupsAreClasses | src/freeweight/domain/comparison.py:423-435 | For distinct runs whose mergeability is transitive, two runs share a group if and only if they may merge |
| Separations.SeparationsDenyExactly | src/freeweight/domain/comparison.py:429-434 | Every list of distinct runs drawn from a set gets only separations that forbid merging, if and only if no run of the set, given first, may merge with two others that may not merge with each other |
| Separations.TransitiveSeparationsDeny | src/freeweight/domain/comparison.py:429-434 | For distinct runs whose mergeability is transitive, every separation stated forbids merging |
| Separations.DisagreeingSeparationAllows | src/freeweight/domain/comparison.py:429-434 | Three runs that disagree, given in that order, form two groups, and the verdict stated for the second allows merging |
| Separations.ContraryRuns | src/freeweight/domain/comparison.py:429-434 | Three given runs under a given verdict: what is reported is two groups, the second with a direct study and the reason of a verdict that allows merging |
| Configuration.DeepMerge | src/freeweight/config.py:1499-1507 | The recursive loop computes the specified merge |
| Configuration.MergeAt | src/freeweight/config.py:1499-1507 | The value of the merge at any path: the override's leaf, two tables merged, or the base's value kept, unless a leaf of the override stands above it |
| Configuration.HighestLayerWins | src/freeweight/config.py:1499-1507 | Where two layers agree which paths are tables, every leaf comes from the higher layer that sets it and all siblings stay |
| Configuration.MergeAssociates | src/freeweight/config.py:1499-1507 | Three layers merge alike however they are grouped, if and only if no leaf of the middle one parts a table of the lowest from one of the highest that does not cover it |
| Configuration.AgreedAreUnparted | src/freeweight/config.py:1499-1507 | Layers that agree which paths are tables merge alike however they are grouped |
| Configuration.TrackSources | src/freeweight/config.py:1604-1620 | Every leaf field of the schema but the derived ones gets the label of the first layer that holds it; a section that cannot be asked raises |
| Configuration.HoldsExactly | src/freeweight/config.py:1604-1620 | A section is asked as Python's in asks: a table for a key, a list for an element, a text for a text within it; anything else raises |
| Configuration.LabelExact | src/freeweight/config.py:1611-1620 | Where the merged section is a table, the label names the layer whose value is in the merge if and only if the section is a table or absent in every layer down to the first that holds the field |
| Configuration.HiddenSectionIsLabelledFile | src/freeweight/config.py:1611-1620 | A string where the environment should have a table hides the file's section from the merge, yet its fields are labelled file |
| EnvNames.SpelledReadsBack | src/freeweight/config.py:1579-1583 | The variable spelled for a path is parsed back to exactly that path if and only if the path has no capital letter, no segment holds a double underscore, and none but the last ends with an underscore |
| EnvNames.UnderscoreMoves | src/freeweight/config.py:1579-1583 | The variable spelled for a_.b is read as a._b |
| EnvNames.SpelledIsRead | src/freeweight/config.py:1484-1487 | No spelled name is taken for a reserved one |
| EnvReading.SpelledForm | src/freeweight/config.py:1579-1583 | A path has a variable exactly where something stands behind a dot in it; its name is the prefix and then, in its place, a double underscore for each dot and the capital of each other character |
| EnvReading.ReadExactly | src/freeweight/config.py:1482-1487 | A variable is read exactly when its name has the prefix and is none of the three reserved; its segments joined are the name in lower case |
| EnvNames.CutIsSeparable | src/freeweight/config.py:1487-1488 | Splitting at double underscores never yields a segment that holds one or, before the last, ends with an underscore, and joining restores the text |
| EnvNames.ReadEnv | src/freeweight/config.py:1480-1496 | The nested table after every variable in turn and then the LOG_LEVEL convenience, or the error one of them raised |
| EnvNames.AllStandExactly | src/freeweight/config.py:1480-1491 | Reading does not raise and leaves every variable's value at its own path, if and only if variables whose paths begin one another have the same path and the same value |
| EnvReading.RaisesExactly | src/freeweight/config.py:1480-1491 | Reading raises if and only if a variable's path goes below that of an earlier one |
| EnvReading.LastStands | src/freeweight/config.py:1480-1491 | Where it does not raise, a variable's value stands unless a later one's path is its path or begins it |
| EnvReading.StandingWasLast | src/freeweight/config.py:1480-1491 | And nothing else stands: a value in the table is that of such a variable, and of no later one |
| EnvNames.LogLevelYields | src/freeweight/config.py:1493-1496 | Where logging is a table or absent, LOG_LEVEL sets logging.level only where it is not set and changes nothing else; where it is a string that holds the word level nothing changes, and anything else in its place raises |
| Aggregation.ValuesFor | src/freeweight/domain/aggregation.py:238-273 | The contributing values, read from the one place the group resolves to, and the number of samples left out; together all samples |
| RowFigures.ValuesAre | src/freeweight/domain/aggregation.py:238-273 | The values are the numbers of the samples that give one, one each, in the samples' order: from the formula, the detail or the score as the metric declares, or automatically as the group decides |
| RowFigures.CombineMeans | src/freeweight/domain/aggregation.py:149-188 | What each aggregation is of the values: the mean times their number is their sum, the extremes are attained and bound them, a median or percentile stands linearly between the two sorted values around its position; an unknown aggregation is refused and a raw one has no value |
| RowFigures.CombinedSplits | src/freeweight/domain/aggregation.py:175-180 | How many values the row's median, 95th or 99th percentile leaves at or below it, and at or above it |
| RowFigures.SetFigureMeans | src/freeweight/domain/aggregation.py:288-316 | Each figure of a set over its completed samples: output or all tokens for a success, a thousand times the mean score and a million times the successes for an output token; when each is refused, and for which reason |
| Aggregation.ExcludedAreAbsent | src/freeweight/domain/aggregation.py:361-373 | The excluded count of a per-set row never exceeds the number of samples absent from a token total, and is that number if and only if every completed sample reported the count; for input and output tokens alike |
| Aggregation.UnreportedIsNotExcluded | src/freeweight/domain/aggregation.py:361-373 | Two completed samples, one without an output count: it is missing from the total, and nothing is excluded |
| Aggregation.ReportedIsRooted | src/freeweight/domain/aggregation.py:191-204 | The standard deviation and the coefficient of variation are the roots of the two squares a row is modelled with, for any square root |
| Aggregation.DispersionMeans | src/freeweight/domain/aggregation.py:191-204 | The squared deviation of a row is known from two values on, never negative, and zero only where all values are the same; relative to the mean it is known only for a positive mean |
| Aggregation.RunRowAccounts | src/freeweight/domain/aggregation.py:478-504 | A run-level row accounts for all samples of its contributors, has exactly one of a value and a reason, and has a value only if they share one measurement class |
| Composition.RunReadsTheTests | src/freeweight/domain/aggregation.py:238-273 | A run-level row is built from exactly what its tests' rows are built from, if and only if every test reads the metric where the run does or has nothing to read |
| Composition.CountsAddUp | src/freeweight/domain/aggregation.py:488-504 | For tests of one measurement class aggregated under one definition, the run row's sample and excluded counts are the sums of their own rows', under that condition and only under it |
| Composition.SumsCompose | src/freeweight/domain/aggregation.py:149-188 | Then a sum or count of the run is the sum of its tests', and there is none only where nothing contributed |
| Composition.MeansCompose | src/freeweight/domain/aggregation.py:149-188 | Then the run's mean is its tests' means weighted by their counts |
| Composition.SpreadsCompose | src/freeweight/domain/aggregation.py:191-204 | Then the run's variance is made of its tests' variances and of the distances of their means from its own, each weighted by its count |
| Composition.ExtremesCompose | src/freeweight/domain/aggregation.py:149-188 | Then the run's minimum and maximum are the least and greatest of its tests' |
| RunReports.RowsOfKey | src/freeweight/domain/aggregation.py:467-504 | In the list a run reports, the rows of any declared key are the rows of its declarations, in order, a test counting once for each time it declares the key, and then one run row of the first declaration's metric over the samples of them all |
| RunReports.AccountsAddUp | src/freeweight/domain/aggregation.py:467-504 | However its tests declare a key, alike, differently or twice, its run row accounts for as many samples, used or left out, as its listed test rows together |
| RunReports.ListedRowsCompose | src/freeweight/domain/aggregation.py:467-504 | For a key whose declarations read one source and whose tests share one measurement class, the listed run counts are the sums of the listed test counts if and only if every test reads the metric where the run does or has nothing to read; and then, where the declarations combine alike, sums, counts, means, spreads and extremes come from the listed test rows |
| RunReports.FixedSourceComposes | src/freeweight/domain/aggregation.py:238-273 | Under a declared source or a registered formula they always do, whatever the samples are |
| RunReports.PerSetCountsAdd | src/freeweight/domain/aggregation.py:288-372 | The run counts of a metric of a whole set are the sums of its listed test counts, however it is declared; for the effective context length where the tests share one measurement class |
| Composition.MixedSourcesDropATest | src/freeweight/domain/aggregation.py:239-248 | With an automatic source, one test carrying the number in its detail makes the run row leave out a test that is only scored |
| EffectiveContexts.ScoresAreTheSamples | src/freeweight/domain/aggregation.py:343-357 | Held of a length is each score as often as completed, scored samples that recorded the length had it |
| EffectiveContexts.ThresholdGathered | src/freeweight/domain/aggregation.py:344-354 | The threshold is the last recorded by a sample that measured a length, or 0.8 |
| EffectiveContexts.EffectiveContextMeans | src/freeweight/domain/aggregation.py:330-358 | Over the samples: the threshold last recorded or the default, refused outside [0, 1]; counted are the samples that measured a length; without any no figure, nor where the mean score at the shortest length is not positive; otherwise the longest length whose mean score keeps that share of the shortest's |
| Aggregation.EffectiveFromScores | src/freeweight/domain/metrics.py:433-449 | The shortest length always keeps its own share, so the exit on no passing length is dead |
| Aggregation.AggregateTest | src/freeweight/domain/aggregation.py:404-447 | One row per declared metric, in order, with its value or reason, its counts and the squares of its dispersion |
| AggregateRows.ValueRow | src/freeweight/domain/aggregation.py:430-446 | A row says what it is a row of, carries the combined value or that no sample gave one, counts those that did and all, and the spread of the values; it raises exactly for an unknown aggregation of some value |
| AggregateRows.TestRowsAre | src/freeweight/domain/aggregation.py:415-447 | One row for each declared metric in order, unless one of them raises |
| Aggregation.AggregateRun | src/freeweight/domain/aggregation.py:467-504 | Every test's rows, then one row per distinct key in sorted order under its first definition, over the groups that declare it |
| AggregateRows.RunRowsAre | src/freeweight/domain/aggregation.py:467-504 | Every test's rows and then one row for each declared key, in ascending order, exactly where none of them raises |
| AggregateRows.RunRowIs | src/freeweight/domain/aggregation.py:478-504 | Over tests of one class the row of all their samples together; over several no value, the completed samples counted |
| AggregateRows.RunSamplesAre | src/freeweight/domain/aggregation.py:471-482 | Whatever is summed over a key's run samples is summed over every test's samples, once for each time the test declares the key |
| AggregateRows.DefinitionIs | src/freeweight/domain/aggregation.py:471-479 | A key's definition is the one declared first |
| Canonical.CanonicalJson | src/freeweight/services/export.py:1028-1066 | The recursive printer gives the sorted-key text without insignificant space, strings escaped as section 7 of RFC 8259 requires |
| Canonical.ValueBack | src/freeweight/services/export.py:1125-1141 | Decoding a printed value followed by anything that does not prolong a number gives the value and leaves what follows |
| Canonical.LoadsBack | src/freeweight/services/export.py:1125-1141 | A printed document decodes to itself, and text after it is refused unless blank |
| Canonical.PrefixRefused | src/freeweight/services/export.py:1125-1144 | A printed object cut short anywhere is refused by the decoder |
| ExportForms.EscapeExactly | src/freeweight/services/export.py:1028-1066 | Only quotes, backslashes and control characters are escaped: by two characters where there is such an escape, by four lower-case hexadecimal digits where not |
| ExportForms.MembersInOrder | src/freeweight/services/export.py:1028-1066 | In an object's canonical text the member of the lesser key stands before that of the greater |
| Export.PrintEnveloped | src/freeweight/services/export.py:1018-1025 | The canonical print of an envelope is its five members in the order the stream writes them |
| Export.PrintPayload | src/freeweight/services/export.py:1037-1054 | The canonical print of a payload is its members in the order the stream writes them, with or without a prompt appendix |
| Export.IterJson | src/freeweight/services/export.py:1035-1066 | The chunks, one run at a time, concatenate to the canonical print of the whole envelope, its version 1.1 if and only if some run states adapters_registered |
| Export.IterJsonl | src/freeweight/services/export.py:1082-1097 | One line a run, each the canonical print of an envelope of that run alone, its version chosen by that run |
| ExportForms.EnvelopeIs | src/freeweight/services/export.py:1018-1066 | The members of the single document, its schema and its version, 1.1 exactly where some run's profile has adapters_registered and 1.0 otherwise |
| ExportForms.LineIs | src/freeweight/services/export.py:1082-1097 | The members of a line: one run, not complete, the scope and selector without the period; the version is the run's own |
| ExportReader.RunReadsBack | src/freeweight/services/export.py:1184-1224 | A run's document reads back as the identity, status, metrics and sample count the run carried |
| ExportReader.JsonReadsBack | src/freeweight/services/export.py:1129-1176 | The JSON document reads back as exactly the records of the exported runs, in order |
| ExportForms.RefusedExactly | src/freeweight/services/export.py:1152-1224 | A document is refused exactly when it is not an export, is of another major version, or lists a run with a metric whose measurement or count is none |
| ExportForms.WholeOrLines | src/freeweight/services/export.py:1125-1144 | A text that opens an object and decodes is that one document, on one line or several; any other is taken line by line |
| ExportForms.ShownExactly | src/freeweight/services/export.py:1192-1213 | A name not given as a text is read as Python shows it, and a missing one as empty |
| JsonLines.UnbrokenExactly | src/freeweight/services/export.py:1141-1144 | A printed object is one line of the reader's splitting if and only if none of its strings and keys holds U+0085, U+2028 or U+2029 |
| JsonLines.JsonlReadsBack | src/freeweight/services/export.py:1129-1176 | The JSON lines read back as exactly the records of the exported runs, in order, if there is one run, or several whose texts and envelope hold none of those separators; otherwise they are refused |
| JsonLines.FormsReadAlike | src/freeweight/services/export.py:1129-1149 | Both forms of the same runs read back alike under that condition and only under it |
| JsonLines.SeparatorInALabel | src/freeweight/services/export.py:1141-1144 | Several runs one of which has a label with U+0085, U+2028 or U+2029 in it: the JSON document reads back, the JSON lines are refused |
| JsonLines.SeparatorInALine | src/freeweight/services/export.py:890-893 | Two runs, under any two ids, the first with a line separator in its label: the JSON document reads back, the JSON lines are refused |

## Left out

- Floating-point rounding, `math.fsum` and `math.sqrt`: numbers are exact reals, and the square root is a parameter
  assumed to be a non-negative root.
- Clocks, identifiers, digests, sessions, transactions, dialects, migrations, backups and logging: digests are the text
  or value itself, identifiers are counters, shuffles are arbitrary permutations.
- Calibration.Goal.RunCalibration: the jury's calls, the agreement figures and the stored report are not modelled, nor
  two calibrations overlapping in time; each step is taken as one.
- Calibration.Goal.AddSamples: the record a promoted run sample is looked up in, and the goal's task a key names, are
  parameters; creation times and the partition seed are not modelled.
- Calibration.PromotedIsOnRecord: what is on record of a run sample is taken not to change between two look-ups.
- RunEvents.EventStore.Publish: the other writers' commits between a read and the insert are a parameter; messages,
  progress and payloads are one opaque event.
- Deletion.Database.DeleteResults: which runs a selection resolves to is a parameter; of the preserved tables only
  calibration samples are stored, since no statement names the others; the database is unchanged between the preview
  taken inside the call and the first statement.
- Invocation.RunInvocation: signals, exit codes, durations and process groups are not modelled; readiness, chunk sizes,
  the deadline and whether the process is reaped in time are parameters.
- Provenance.DiffDocuments: Python's equalities between True, 1 and 1.0 are not modelled; a number is its literal.
- Verdicts.VerdictForPair: the comparability matrix is not part of this model; what it says of two subjects, for one kind
  of metric, is an arbitrary function. The sentences are held as the facts they name.
- Comparison.GroupSubjects: the pairwise verdict is an arbitrary function, of which `Verdicts` gives the instance; the
  field-level diff of a verdict is stated there.
- Comparison.GroupsAreClasses: asks for distinct runs, as each run id stands for one measurement; the other grouping
  lemmas hold for repeated ids as well.
- Configuration.TrackSources: the rows of named provider profiles other than the default one, field validation, TOML
  reading and the security checks are not modelled.
- Configuration.DeepMerge: nested dictionaries are values, so sharing between the merged result and its layers is not
  captured.
- EnvNames.ReadEnv: nested tables are rebuilt rather than updated through a moving reference; letter case is that of the
  ASCII letters.
- Aggregation.AggregateTest: a row's standard deviation and coefficient of variation are held as their squares, whose
  roots they are (`Aggregation.ReportedIsRooted`); what the registered per-sample formulas give for a sample is part of
  the sample.
- RunReports.ListedRowsCompose: for declarations of one key that read different sources, or tests of different
  measurement classes, only that the accounts add up is stated (`RunReports.AccountsAddUp`); so too for the effective
  context length of tests of different classes.
- Canonical.CanonicalJson: the library that prints canonical JSON is not part of this model; it is taken to sort keys,
  write no insignificant space, escape what RFC 8259 requires and leave other characters, U+0085, U+2028 and U+2029
  among them, as they are.
- Canonical.LoadsBack: the decoder reads what the printer writes; white space inside a document and escapes of
  characters above U+00FF are not modelled, and a number is its literal.
- Export.IterJson: reading the runs from the database is not modelled; a run's document and the prompt appendix are
  given.
- ExportReader.RunReadsBack: the text Python gives for a list or object where a string is expected, and numbers written
  as strings or booleans, are not modelled; a number is false only as `0` or `0.0`.
- The CSV export, goal packs and calibration reports as documents: they would add only easy members.
- Band names, concentration warnings, mean absolute error, signed bias and agreement rate: branch-level arithmetic.
- Freshness, confidence factors, the run-state table, jury assembly, evidence records, the command line and the web.
