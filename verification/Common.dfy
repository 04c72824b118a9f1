/** Datatypes shared by every component. */
module Common {

  datatype Option<+T> = None | Some(value: T)

  /** Nanoseconds, the unit of Go's time.Duration. */
  const SECOND: nat := 1_000_000_000
  const MINUTE: nat := 60 * SECOND

  function Max(a: int, b: int): int {
    if a < b then b else a
  }
}
