/** Optional values and error results, for the source's `None` and its early error returns. */
module Wrappers {

  datatype Option<+T> = None | Some(value: T) {
    /** Python's `x or default` / `dict.get(key, default)` on an optional value. */
    function GetOr(default: T): T
    {
      match this
      case Some(v) => v
      case None => default
    }
  }

  datatype Result<+T, +E> = Ok(value: T) | Err(error: E)
}
