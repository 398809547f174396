/** Option and Result wrappers shared by every module. */
module Wrappers {
  datatype Option<+T> = None | Some(value: T)
  {
    /** `x ?: default`. */
    function GetOr(default: T): T
    {
      if Some? then value else default
    }
  }

  /** The outcome of a computation that may throw: `Err` names the exception. */
  datatype Result<+T> = Ok(value: T) | Err(exception: string)
}
