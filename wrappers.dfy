/** Option and Result, the two failure-carrying shapes the model uses for
    nullable columns and for mutators that either throw or write a row. */
module Wrappers {

  /** A nullable value: `null` in the source becomes None. */
  datatype Option<+T> = None | Some(value: T)

  /** Either the row a mutator would write, or the error it throws. */
  datatype Result<+R, +E> = Success(value: R) | Failure(error: E)
}
