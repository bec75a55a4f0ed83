/** Optional values: JavaScript's `undefined` (and `null`) next to a present value. */
module Opt {
  datatype Option<+T> = None | Some(value: T)
}
