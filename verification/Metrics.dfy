/** A computed number or an honest refusal, as src/freeweight/domain/metrics.py and
    src/freeweight/domain/statistics.py carry them. */
module Metrics {
  /** Exactly one of a value and the reason there is none. */
  datatype MetricResult = Value(value: real) | Unavailable(reason: Reason)

  datatype Reason =
    | NoObservations | SingleObservation | ZeroMean | NoAttempts | KExceedsAttempts
    | NoSamples | MixedClasses | NotScored | NotMeasured | Raw | NotReported | NoSuccesses | NoOutputTokens
    | NoContextObservations | NoContextBaseline

  datatype Statistic = Statistic(result: MetricResult, sampleCount: nat, excludedCount: nat)
}
