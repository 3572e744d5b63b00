/** Optional values: a C# `string?` that may be null. */
module Wrappers {

  /** `None` stands for null, `Some(v)` for a present value `v`. */
  datatype Option<+T> = None | Some(value: T)
}
