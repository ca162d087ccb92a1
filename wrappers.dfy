/** Optional values and results with an error, for lookups that may miss and
    operations that may raise. */
module Wrappers {

  datatype Option<T> = None | Some(value: T)

  datatype Result<T, E> = Success(value: T) | Failure(error: E)
}
