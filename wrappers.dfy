/** Optional values: a missing value, a failed request, a string that does not parse. */
module Wrappers {

  datatype Option<+T> = None | Some(value: T)
}
