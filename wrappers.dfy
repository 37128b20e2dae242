/** Optional values: an absent or falsy JavaScript field, or a `null` in the output. */
module Wrappers {

  datatype Option<+T> = None | Some(value: T)

  /** The value of `o`, or `default` when it is absent. */
  function OrElse<T>(o: Option<T>, default: T): T
  {
    match o
    case Some(v) => v
    case None => default
  }
}
