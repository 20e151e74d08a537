/** Optional values: JavaScript's `undefined` fields and "not found" results. */
module Wrappers {

  datatype Option<+T> = None | Some(value: T)

}
