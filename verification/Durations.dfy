/** Durations in nanoseconds, as Go's `time.Duration` counts them. */
module Durations {
  const MICROSECOND := 1_000
  const MILLISECOND := 1_000_000
  const SECOND := 1_000_000_000
}
