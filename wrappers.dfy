/** A value that may be missing: a JSON `null`, an absent dictionary key. */
module Wrappers {

  datatype Option<+T> = None | Some(value: T)
}
