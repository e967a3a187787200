/** Optional values and error returns shared by every module of the pipeline model. */
module Wrappers {

  /** A value that may be absent: a masked array element, a missing attribute, a `None` return. */
  datatype Option<+T> = None | Some(value: T) {
    function GetOr(default: T): T {
      match this
      case Some(v) => v
      case None => default
    }
  }

  /** The outcome of a step that either produces a value or stops the run with an error
      (the source prints the error and returns without writing output). */
  datatype Result<+T> = Ok(value: T) | Err(reason: string)
}
