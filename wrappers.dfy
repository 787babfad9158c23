/** Optional values, standing in for the nullable fields of the JavaScript class. */
module Wrappers {

  datatype Option<+T> = None | Some(value: T)
}
