/** Option and Result values shared by the modules of this model: `None` stands for
    JavaScript's `null`/`undefined`, `Failure` for a thrown error or a rejected promise. */
module Wrappers {

  datatype Option<+T> = None | Some(value: T) {
    /** The value, or `default` when absent (JavaScript's `x ?? default`). */
    function GetOr(default: T): T {
      match this
      case Some(v) => v
      case None => default
    }
  }

  datatype Result<+R, +E> = Success(value: R) | Failure(error: E)

  /** A failed HTTP call as the services see it: an axios error carries the response
      status when the server answered; any other thrown error carries none. */
  datatype HttpError = HttpError(status: Option<int>, isAxios: bool)
}
