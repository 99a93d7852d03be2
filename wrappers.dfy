/** Optional values, standing in for Java's `Optional` and for nullable references. */
module Wrappers {
  datatype Option<+T> = None | Some(value: T)
}
