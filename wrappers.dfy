/** A value that may be missing; stands for a JSON field that a reply may omit. */
module Wrappers {

  datatype Option<+T> = None | Some(value: T)
}
