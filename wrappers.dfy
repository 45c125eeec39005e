/** Failure-carrying datatypes shared by every module of the model. */
module Wrappers {

  datatype Option<+T> = None | Some(value: T) {
    function GetOr(default: T): T {
      match this
      case Some(v) => v
      case None => default
    }
  }

  /** The Python exceptions the modelled code raises on its error paths. */
  datatype Error =
    | KeyError        // a dictionary lookup of a missing key
    | ValueError(message: string)

  datatype Result<+T> = Ok(value: T) | Err(error: Error)
}
