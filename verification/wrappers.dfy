/** Optional values, used for JavaScript properties that may be absent. */
module Wrappers {

  /** `None` stands for a missing (`undefined` or `null`) value. */
  datatype Option<+T> = None | Some(value: T)
}
