/** Optional values, used where the program returns a value together with an error. */
module Wrappers {
  datatype Option<+T> = None | Some(value: T)
}
