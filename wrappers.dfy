/** Optional values (TypeScript's `T | null` / `T | undefined`) and
    failure-carrying results (an Observable that either emits or errors). */
module Wrappers {

  datatype Option<+T> = None | Some(value: T) {
    function GetOr(default: T): T
    {
      match this
      case Some(v) => v
      case None => default
    }
  }

  datatype Result<+T> = Ok(value: T) | Err(message: string)
}
