/** Failure-carrying results: the model's stand-in for the exceptions the
    refinement code raises (ValueError, RuntimeError, IndexError, ...). */
module Wrappers {

  datatype Result<T> = Success(value: T) | Failure(error: string)

  datatype Outcome = Pass | Fail(error: string)
}
