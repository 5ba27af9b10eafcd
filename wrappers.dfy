/** Option and Result values used for missing keys and for the HTTP error paths. */
module Wrappers {

  datatype Option<T> = None | Some(value: T) {
    /** The value, or `default` when there is none (Python's `dict.get(key, default)`). */
    function GetOr(default: T): T {
      match this
      case Some(v) => v
      case None => default
    }
  }

  datatype Result<T, E> = Ok(value: T) | Err(error: E)

  /** An HTTP error response: the status code and the `detail` text. */
  datatype HttpError = HttpError(status: int, detail: string)
}
