/** Optional values: a nullable reference or a `TryX(out ...)` that may fail. */
module Wrappers {

  datatype Option<+T> = None | Some(value: T)
}
