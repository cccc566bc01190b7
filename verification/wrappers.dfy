/** Optional values, used for the answers of the program's collaborators. */
module Wrappers {
  datatype Option<+T> = None | Some(value: T)
}
