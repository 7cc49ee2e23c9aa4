/** The Option and Result datatypes shared by the other modules. */
module Wrappers {

  /** A value that may be missing: the parser's "result out of range" is `None`. */
  datatype Option<+T> = None | Some(value: T)

  /** Either a value or an error value: the `fetch` command's parameter error is `Failure`. */
  datatype Result<+R, +E> = Success(value: R) | Failure(error: E)
}
