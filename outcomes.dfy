/** Optional values and results with an error side, standing for Kotlin's nullable
    types and for the exceptions the engine throws. */
module Outcomes {

  datatype Option<+T> = None | Some(value: T)

  datatype Result<+T, +E> = Success(value: T) | Failure(error: E)
}
