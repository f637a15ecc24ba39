/** Option and the success-or-exception outcome used for every call that can raise. */
module Wrappers {

  datatype Option<+T> = None | Some(value: T)

  /** The result of a Python call that either returns a value or raises an exception
      whose text is `msg`. */
  datatype Outcome<+T> = Ok(value: T) | Fail(msg: string)
}
