/** Option and Result datatypes shared by the other modules. */
module Wrappers {

  /** An optional value: `None` stands for JavaScript's `undefined`. */
  datatype Option<+T> = None | Some(value: T)

  /** Either a value or the reason an operation threw. */
  datatype Result<+R, +E> = Success(value: R) | Failure(error: E)
}
