/** Optional values and results with an error payload, used for the
    collaborators (extractors, model backends, the JSON parser) that may fail. */
module Wrappers {

  datatype Option<+T> = None | Some(value: T)

  datatype Result<+R, +E> = Success(value: R) | Failure(error: E)
}
