/** Option and Result, the two failure-carrying datatypes the schema model uses. */
module Wrappers {

  /** A value that may be absent: a nullable column, an omitted input field. */
  datatype Option<+T> = None | Some(value: T)

  /** The outcome of a write: the new store, or the constraint it violated. */
  datatype Result<+T, +E> = Ok(value: T) | Err(error: E)
}
