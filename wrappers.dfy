/** Optional values: a document that a query did not find, a missing field. */
module Wrappers {

  datatype Option<T> = None | Some(value: T)

}
