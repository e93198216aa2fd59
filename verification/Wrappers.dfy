/** Optional values and results shared by every module of the model. */
module Wrappers {

  datatype Option<+T> = None | Some(value: T)

  /** The exceptions the services raise; Invalid is a value that is rejected or malformed, by any layer. */
  datatype Error =
    | NotFound
    | Conflict
    | Forbidden
    | Invalid

  datatype Result<+T> = Success(value: T) | Failure(error: Error)
}
