/** Shared vocabulary: instants, machine-integer bounds and outcome datatypes. */
module Basics {
  const MAX_INT64: int := 0x7FFF_FFFF_FFFF_FFFF
  const UINT64_VALUES: int := 0x1_0000_0000_0000_0000

  type Int64 = x: int | -MAX_INT64 - 1 <= x <= MAX_INT64

  // An instant, in nanoseconds since 0001-01-01T00:00:00Z. Instant 0 is the
  // zero time, the "not set" value every entry point rejects.
  type Time = nat
  const NO_TIME: Time := 0

  const SECOND: int := 1_000_000_000
  const MINUTE: int := 60 * SECOND

  datatype Option<+T> = None | Some(value: T)

  datatype Result<+T, +E> = Ok(value: T) | Err(error: E)

  // What an external call that changes persistent state did. A process crash
  // around the call is one of the two failures: the caller sees no success.
  datatype Outcome = Succeeds | FailsBefore | FailsAfter
}
