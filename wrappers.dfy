/** Option and Result values standing for Python's `None` and raised exceptions. */
module Wrappers {
  datatype Option<T> = None | Some(value: T)
  {
    function GetOr(default: T): T
    {
      match this
      case None => default
      case Some(v) => v
    }
  }

  datatype Result<T> = Ok(value: T) | Err(error: string)
}
