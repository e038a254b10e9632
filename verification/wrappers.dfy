/** Optional values: Swift's `T?`, used for optional closures, weak
    references and the monitor slot. */
module Wrappers {

  datatype Option<+T> = None | Some(value: T)
}
