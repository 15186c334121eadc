/** Optional values and error-or-value results used throughout the model.
    `None` stands for JavaScript's `null` and `undefined` alike. */
module Wrappers {

  datatype Option<+T> = None | Some(value: T)

  datatype Result<+T, +E> = Ok(value: T) | Err(error: E)
}
