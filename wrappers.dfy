/** Optional values and results with an error message, shared by every module. */
module Wrappers {

  datatype Option<T> = None | Some(value: T)
  {
    predicate IsSome() { Some? }

    function GetOr(default: T): (r: T)
      ensures Some? ==> r == value
      ensures None? ==> r == default
    {
      match this
      case Some(v) => v
      case None => default
    }
  }

  /** An operation that either produced a value or failed with a message. */
  datatype Result<T> = Ok(value: T) | Err(error: string)
}
