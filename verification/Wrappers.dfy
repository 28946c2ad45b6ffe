/** Options, and the clock every component shares. */
module Wrappers {
  datatype Option<+T> = None | Some(value: T)

  /** Timestamps count microseconds, the resolution of the database columns. */
  type Time = int

  const TICKS_PER_SECOND := 1_000_000

  function Seconds(n: int): Time {
    n * TICKS_PER_SECOND
  }

  function Min(a: int, b: int): int {
    if a <= b then a else b
  }

  function Max(a: int, b: int): int {
    if a >= b then a else b
  }
}
