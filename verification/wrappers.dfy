/** Optional values: an absent JavaScript field or reference (`undefined`) is `None`. */
module Wrappers {
  datatype Option<+T> = None | Some(value: T)
}
