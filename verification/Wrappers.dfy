/** Results of operations that may raise, and values that may be absent. */
module Wrappers {

  datatype Option<+T> = None | Some(value: T)

  /** `Err` stands for a raised exception, carrying which one it was. */
  datatype Result<+T, +E> = Ok(value: T) | Err(error: E)
}
