/** Optional values, used for "no previous agenda", "no solution" and "no best yet". */
module Wrappers {

  datatype Option<+T> = None | Some(value: T)
}
