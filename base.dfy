/** Value wrappers shared by the modules of this model.

    - Option<T> stands for a JavaScript value that may be `undefined`/`null`
      (an absent request field, an unmatched capture group).
    - Result<T> stands for a JavaScript call that either returns a value or
      throws an `Error`; only the error's `message` is observable here.
 */
module Base {

  datatype Option<+T> = None | Some(value: T) {

    /** `x || d`: the value when present, the default otherwise. */
    function GetOr(default: T): T {
      match this
      case Some(v) => v
      case None => default
    }
  }

  datatype Result<+T> = Ok(value: T) | Err(message: string)
}
