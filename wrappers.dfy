/** Optional values and error-carrying results, used where the Go code returns
    `(value, ok)` or `(value, err)` pairs. */
module Wrappers {

  datatype Option<+T> = None | Some(value: T)

  datatype Result<+T, +E> = Ok(value: T) | Err(error: E)

}
