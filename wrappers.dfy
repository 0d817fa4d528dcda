/** Optional values and results with an error, used for the source's optional
    fields (`lastLocation?`, `address?`) and for its rejected promises. */
module Wrappers {

  datatype Option<+T> = None | Some(value: T)

  datatype Result<+R, +E> = Success(value: R) | Failure(error: E)
}
