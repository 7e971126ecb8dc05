/** The optional-value and value-or-error datatypes shared by the parsers
    and validators. */
module Wrappers {

  /** A value that may be absent, as returned by the text parsers. */
  datatype Option<T> = None | Some(value: T)

  /** A value or an error, as returned by the validators and the store. */
  datatype Result<T, E> = Ok(value: T) | Err(error: E)
}
