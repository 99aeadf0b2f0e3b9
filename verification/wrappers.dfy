/** Option and Result: the absent value and the success-or-error outcome used
    throughout the model in place of Python's None and raised HTTPException. */
module Wrappers {

  datatype Option<+T> = None | Some(value: T)

  datatype Result<+R, +E> = Success(value: R) | Failure(error: E)
}
