/** Option and Result, used for Java's nullable references and its checked exceptions. */
module Wrappers {

  /** A Java reference that may be null: `None` stands for null. */
  datatype Option<+T> = None | Some(value: T)

  /** A value, or the exception that was thrown instead of producing it. */
  datatype Result<+T, +E> = Ok(value: T) | Err(error: E)
}
