/** A value that may be missing: a null pointer, an absent entry, a failed search. */
module Wrappers {

  datatype Option<+T> = None | Some(value: T)
}
