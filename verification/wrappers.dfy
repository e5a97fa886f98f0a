/** Failure-carrying values shared by every layer of the broker. */
module Wrappers {

  /** A value that may be absent. `None` stands for Go's `nil` (a nil pointer, map or slice). */
  datatype Option<+T> = None | Some(value: T)

  /** The `(value, error)` pair a Go constructor returns, with exactly one side present. */
  datatype Result<+T, +E> = Success(value: T) | Failure(error: E)
}
