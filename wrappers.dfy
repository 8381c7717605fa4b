/** Optional values and results that carry the Java exception that aborted a computation. */
module Wrappers {

  datatype Option<+T> = None | Some(value: T)

  datatype Result<+T, +E> = Ok(value: T) | Thrown(exception: E)
}
