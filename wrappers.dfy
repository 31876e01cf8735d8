/** Option and Result, used for Python's `None` and for operations that may raise. */
module Wrappers {

  datatype Option<+T> = None | Some(value: T)

  /** `Err(message)` stands for a raised exception whose `str(e)` is `message`. */
  datatype Result<+T> = Ok(value: T) | Err(message: string)
}
