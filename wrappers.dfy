/** Optional values: `None` stands for a JavaScript `undefined` or a missing field. */
module Wrappers {
  datatype Option<+T> = None | Some(value: T)
}
