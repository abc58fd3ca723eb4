/** Optional values: the model's stand-in for JavaScript's `null`/`undefined` results. */
module Wrappers {

  datatype Option<+T> = None | Some(value: T)

  /** `x || fallback` on an optional string: an absent or empty string is falsy. */
  predicate Given(s: Option<string>)
  {
    s.Some? && s.value != ""
  }
}
