/** Optional values and the outcome of an HTTP handler. */
module Wrappers {

  /** A value that may be absent: a missing request field, a null reference. */
  datatype Option<+T> = None | Some(value: T) {
    function GetOr(default: T): T {
      match this
      case Some(v) => v
      case None => default
    }
  }

  /**
   * What a handler answers, without the HTTP plumbing: Ok stands for the
   * 200/201 statuses, BadRequest for 400, NotFound for 404 and ServerError
   * for 500. The message is the one the handler puts in its JSON body.
   */
  datatype Response<+T> =
    | Ok(value: T)
    | BadRequest(message: string)
    | NotFound(message: string)
    | ServerError(message: string)
}
