/** Optional values, standing in for Java's null and java.util.Optional. */
module Wrappers {

  datatype Option<+T> = None | Some(value: T)
}
