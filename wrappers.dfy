/** Optional values: the model's stand-in for a JavaScript value that may be
    `null` or `undefined` (`None`) or hold an object (`Some`). */
module Wrappers {

  datatype Option<+T> = None | Some(value: T)
}
