/** Failure-compatible wrappers used in place of null pointers and exceptions. */
module Wrappers {

  /** A nullable value: `None` stands for a null `shared_ptr`. */
  datatype Option<+T> = None | Some(value: T)

  /** The outcome of an operation that may throw. */
  datatype Result<+R, +E> = Success(value: R) | Failure(error: E)
}
