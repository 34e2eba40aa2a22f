/** Optional values, used for fields that may be absent and for parses that may fail. */
module Wrappers {
  datatype Option<+T> = None | Some(value: T)
}
