/** Option/Result wrappers and the Java exceptions the modelled code can raise. */
module Wrappers {

  /** A nullable Java reference: `None` is `null`. */
  datatype Option<+T> = None | Some(value: T)

  /** The result of a Java call that either returns or throws. */
  datatype Result<+T> = Ok(value: T) | Err(error: Exception)

  /** The exceptions raised by the modelled code paths. */
  datatype Exception =
    | NullPointerException
    | ClassCastException
    | IllegalArgumentException(message: string)
    | RuntimeException
}
