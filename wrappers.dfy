/** Optional values and results, as the Go and TypeScript sources use
    `(value, ok)` pairs, `nil` and panics/errors. */
module Wrappers {
  datatype Option<T> = None | Some(value: T)

  datatype Result<T, E> = Success(value: T) | Failure(error: E)
  {
    predicate IsFailure() { Failure? }
  }
}
