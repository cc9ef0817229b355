/** Option and Result, used for JavaScript's `null`/`undefined` and for early returns. */
module Wrappers {

  datatype Option<+T> = None | Some(value: T)

  /** `Success` carries the value computed on the normal path; `Failure` an early reply. */
  datatype Result<+R, +E> = Success(value: R) | Failure(error: E)
}
