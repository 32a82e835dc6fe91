/** Small failure-carrying datatypes shared by the tracker's modules. */
module Wrappers {

  /** A value that may be absent; stands for JavaScript's `null`. */
  datatype Option<T> = None | Some(value: T)

  /** The result of an operation that returns a value or throws. */
  datatype Result<T, E> = Ok(value: T) | Err(error: E)

  /** The result of an operation that returns nothing or throws. */
  datatype Outcome<E> = Pass | Fail(error: E)
}
