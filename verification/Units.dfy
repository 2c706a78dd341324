/** Durations in nanoseconds. */
module Units {
  const SECOND: nat := 1_000_000_000
  const HOUR: nat := 3600 * SECOND
}
