/** Option and Result, for Python's None and for error returns. */
module Wrappers {

  datatype Option<+T> = None | Some(value: T)
  {
    /** `d.get(key, default)`: the value when there is one, else the default. */
    function GetOr(default: T): (r: T)
      ensures Some? ==> r == value
      ensures None? ==> r == default
    {
      match this
      case Some(v) => v
      case None => default
    }
  }

  datatype Result<+T, +E> = Ok(value: T) | Err(error: E)
}
