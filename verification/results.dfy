/** Failure-carrying values shared by the model: an optional value, and the
    outcome of a step that can throw (the error is the thrown message). */
module Results {

  datatype Option<+T> = None | Some(value: T) {

    /** The carried value, or `default` when there is none */
    function GetOr(default: T): T {
      match this
      case Some(v) => v
      case None => default
    }
  }

  datatype Result<+T> = Ok(value: T) | Err(error: string)
}
