/** Optional values (a Java reference that may be null) and results (a value, or the
    message of the exception the service would throw). */
module Wrappers {

  datatype Option<+T> = None | Some(value: T)

  datatype Result<+T> = Ok(value: T) | Err(message: string)
}
