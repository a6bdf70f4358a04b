/** Optional values: stands for JavaScript's `null`/`undefined` sentinels. */
module Wrappers {
  datatype Option<+T> = None | Some(value: T)
}
