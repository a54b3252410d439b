/** Optional values: a JavaScript `null` field or an absent value. */
module Wrappers {

  datatype Option<+T> = None | Some(value: T)
}
