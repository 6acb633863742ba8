/** Optional values: a missing record, a missing DOM element, an absent storage key. */
module Wrappers {
  datatype Option<+T> = None | Some(value: T)
}
