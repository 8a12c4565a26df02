/** Optional values, standing in for Java's `Optional` and for the `null`
    that the cache backends return on a miss. */
module Wrappers {

  datatype Option<+T> = None | Some(value: T)
}
