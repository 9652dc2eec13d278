/** The optional value and the outcome-or-exception types shared by the modules. */
module Wrappers {

  datatype Option<T> = None | Some(value: T)

  /** A Python call either returns a value or raises an exception, named by its
      class and message. */
  datatype Result<T> = Ok(value: T) | Err(error: string)
}
