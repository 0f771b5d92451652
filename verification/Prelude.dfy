/** Small shared definitions: an optional value, a result that is either a value or an error, and a day. */
module Prelude {

  /** A day in milliseconds. */
  const DAY_MS: nat := 86_400_000

  datatype Option<+T> = None | Some(value: T)

  datatype Result<+T, +E> = Success(value: T) | Failure(error: E)
}
