/** Time, as all parts of the service count it. */
module Clock {
  /** Nanoseconds since the Unix epoch. */
  type Time = int

  /** Go's zero `time.Time`: 1 January of year 1, 00:00 UTC. */
  const ZERO_TIME: Time := -62_135_596_800_000_000_000
  const SECOND: int := 1_000_000_000
}
