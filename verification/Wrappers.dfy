/** Optional values, for the gateway's `Option` fields and lookups that may miss. */
module Wrappers {

  datatype Option<+T> = None | Some(value: T)
}
