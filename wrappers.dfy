/** Optional values and success/failure results, used for values the source
    coerces (a failed parse) and for its thrown errors and blocked actions. */
module Wrappers {

  datatype Option<+T> = None | Some(value: T)

  datatype Result<+R, +E> = Success(value: R) | Failure(error: E)
}
