/** `Option` stands in for JavaScript's `null`/`undefined`-or-value; `Result`
    for a value or the message of an `Error` that was thrown. */
module Wrappers {

  datatype Option<+T> = None | Some(value: T) {
    function GetOr(default: T): T {
      match this
      case Some(v) => v
      case None => default
    }
  }

  datatype Result<+T> = Ok(value: T) | Err(message: string)
}
