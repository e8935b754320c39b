/** Option and Result: the model's stand-ins for Go's nil pointers and
    (value, error) return pairs. */
module Wrappers {

  /** `None` plays the role of a nil pointer. */
  datatype Option<+T> = None | Some(value: T)

  /** `Failure(e)` plays the role of a non-nil `error` whose text is `e`. */
  datatype Result<+R, +E> = Success(value: R) | Failure(error: E)
}
