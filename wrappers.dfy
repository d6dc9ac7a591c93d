/** Optional values and results with an error message, the shapes Go expresses
    with a nil pointer or a trailing `error` result. */
module Wrappers {
  datatype Option<T> = None | Some(value: T)

  datatype Result<T> = Success(value: T) | Failure(error: string)
}
