/** Optional values and error outcomes, standing in for None/NaN and raised exceptions. */
module Wrappers {

  datatype Option<T> = None | Some(value: T)

  datatype Result<T> = Ok(value: T) | Err(reason: string)
}
