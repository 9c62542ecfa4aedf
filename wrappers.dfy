/** A value that may be missing: a storage key that is not set, an optional field, a null. */
module Wrappers {

  datatype Option<+T> = None | Some(value: T)
}
