/** Small failure-carrying datatypes shared by the models. */
module Wrappers {

  /** A value that may be missing; models Go's nil pointers and nil errors. */
  datatype Option<+T> = None | Some(value: T)

  /** The outcome of a collaborator call that either yields a value or fails. */
  datatype Result<+T, +E> = Success(value: T) | Failure(error: E)

  function Min(a: int, b: int): (m: int)
    ensures m <= a && m <= b
    ensures m == a || m == b
  {
    if a <= b then a else b
  }
}
