/** Option and Result: the model's stand-ins for Python's None and for raised exceptions. */
module Wrappers {

  datatype Option<+T> = None | Some(value: T)

  /** An operation either succeeds with a value or fails with an error message
      (a raised exception in the source). */
  datatype Result<+T> = Success(value: T) | Failure(error: string)
}
