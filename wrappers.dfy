/** Optional values: the model's stand-in for Java's `null` and `Optional.empty()`. */
module Wrappers {

  datatype Option<+T> = None | Some(value: T)

}
