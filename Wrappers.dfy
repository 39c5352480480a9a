/** Option and Result values, standing for the source's `null`/`undefined`
    and for the exceptions its async operations throw. */
module Wrappers {

  datatype Option<+T> = None | Some(value: T)

  datatype Result<+R, +E> = Success(value: R) | Failure(error: E)
}
