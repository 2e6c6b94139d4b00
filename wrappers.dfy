/** Failure-carrying wrappers shared by the whole model. */
module Wrappers {

  /** Python's `None`/`False` sentinel versus a value. */
  datatype Option<+T> = None | Some(value: T)

  /** A value, or the exception that aborts the import. */
  datatype Result<+T, +E> = Ok(value: T) | Err(error: E)
}
