/** Failure-compatible result types shared by every service model. */
module Wrappers {

  datatype Option<+T> = None | Some(value: T)

  /** The outcome of a handler: a payload on success, a business error otherwise.
      The services report errors as `Success = false` responses, never as faults. */
  datatype Result<+T, +E> = Success(value: T) | Failure(error: E)
}
