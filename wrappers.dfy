/** Optional values: a missing DOM element, an absent key of a stored document,
    a field that does not parse. */
module Wrappers {

  datatype Option<+T> = None | Some(value: T)
}
