/** Optional values and results with an error case, used wherever the
    controller reads something that may be `undefined` or may throw. */
module Wrappers {

  datatype Option<+T> = None | Some(value: T)

  datatype Result<+T, +E> = Ok(value: T) | Err(error: E)
}
