/** Optional values. In this model `None` also stands for JavaScript's
    `undefined`: a property that an object does not have. */
module Wrappers {

  datatype Option<+T> = None | Some(value: T)
}
