/** Option and Result, used for the absent target of a sensing scan and for
    the failed assertions of agent construction. */
module Wrappers {

  datatype Option<+T> = None | Some(value: T)

  datatype Result<+R, +E> = Success(value: R) | Failure(error: E)
}
