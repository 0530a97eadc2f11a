/** Failure-carrying wrappers shared by the rest of the model. */
module Options {

  /** A value that may be absent: a Java `null` or an exception turned into a value. */
  datatype Option<+T> = None | Some(value: T)

  /** Either a computed value or the reason the computation was abandoned. */
  datatype Result<+T, +E> = Ok(value: T) | Err(error: E)
}
