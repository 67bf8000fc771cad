/** Failure-compatible option type shared by the cache and the proxy models. */
module Wrappers {

  /** `None` stands for JavaScript's `undefined` return or a thrown TypeError. */
  datatype Option<+T> = None | Some(value: T)
}
