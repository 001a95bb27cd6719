/** Optional values: JavaScript's `undefined`/`null` results and caught exceptions. */
module Wrappers {

  datatype Option<+T> = None | Some(value: T)
}
