/** Option for Java's nullable references, Result for a value or a thrown IllegalArgumentException. */
module Wrappers {

  datatype Option<+T> = None | Some(value: T)

  /** Either a value or the message of the exception that was thrown. */
  datatype Result<+T> = Ok(value: T) | Err(error: string)
}
