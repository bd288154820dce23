/** Optional values: an absent JavaScript property, a missing DOM element, a thrown error. */
module Wrappers {
  datatype Option<+T> = None | Some(value: T)
}
