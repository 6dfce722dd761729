/** Optional values, used wherever the program returns None or catches an exception. */
module Wrappers {

  datatype Option<+T> = None | Some(value: T)
}
