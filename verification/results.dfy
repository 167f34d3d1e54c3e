/** Failure-carrying wrappers shared by every module of the model: the
    source signals absence with `null` and failure with exceptions; the model
    makes both explicit. */
module Results {

  /** A value that may be missing (a C# `null`). */
  datatype Option<+T> = None | Some(value: T)

  /** A computation that either produced a value or failed with an error. */
  datatype Result<+T, +E> = Ok(value: T) | Err(error: E)
}
