/** The two shapes the TypeScript code uses for "maybe": a value or `undefined`,
    and a value or a thrown error. */
module Wrappers {
  datatype Option<+T> = None | Some(value: T)
  {
    /** `x ?? d`, also `{ ...old, ...patch }` for one field of a patch. */
    function GetOr(default: T): T
    {
      match this
      case Some(v) => v
      case None => default
    }

    /** This option if it holds a value, otherwise `other`. */
    function Or(other: Option<T>): Option<T>
    {
      if Some? then this else other
    }
  }

  datatype Result<+T, +E> = Success(value: T) | Failure(error: E)
}
