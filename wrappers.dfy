/** Optional and fallible values, standing for JavaScript's `undefined`
    and for exceptions thrown at run time. */
module Wrappers {

  datatype Option<+T> = None | Some(value: T)

  datatype Result<+T, +E> = Ok(value: T) | Err(error: E)
}
