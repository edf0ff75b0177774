/** Option and Result, the failure-carrying datatypes the rest of the model uses
    for Python's None and for a raised exception. */
module Wrappers {

  datatype Option<+T> = None | Some(value: T)

  /** Success carries the value a Python call returns; Failure the exception it raises. */
  datatype Result<+T, +E> = Success(value: T) | Failure(error: E)
}
