/** Option and Result, the two shapes every fallible lookup of the engine returns. */
module Wrappers {
  datatype Option<T> = None | Some(value: T)
  {
    predicate IsSome() { Some? }
    function GetOr(default: T): T
    {
      match this
      case Some(v) => v
      case None => default
    }
  }

  /** `Err` carries the message of the exception the source raises. */
  datatype Result<T> = Ok(value: T) | Err(msg: string)

  /** What reading `.id` off a row the lookup did not find raises. */
  const NO_ID := "'NoneType' object has no attribute 'id'"

  /** What reading `.status` off a row the lookup did not find raises. */
  const NO_STATUS := "'NoneType' object has no attribute 'status'"
}
