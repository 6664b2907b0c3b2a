/** Option and Result datatypes shared by the duel model (plain datatypes, not used with `:-`). */
module Wrappers {

  /** An optional value: the model of Python's `None` versus a present value. */
  datatype Option<+T> = None | Some(value: T)

  /** The outcome of a command handler: a success payload or the error it raises. */
  datatype Result<+R, +E> = Success(value: R) | Failure(error: E)
}
