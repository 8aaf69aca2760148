/** Vocabulary shared by every part of the model: optional values and the
    millisecond clock that `Date.now()` reads. The clock is never read by the
    model itself; every operation that needs the time takes it as `now`. */
module Common {

  /** A value that may be absent (`undefined` in the JavaScript original). */
  datatype Option<T> = None | Some(value: T)

  /** A point in time in milliseconds since the Unix epoch. */
  type Time = int

  const Minute: int := 60 * 1000
  const Hour: int := 60 * Minute
  const Day: int := 24 * Hour
}
