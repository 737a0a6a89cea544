/** A value that may be absent: PHP's `null` for a missing array index or an unset result. */
module Wrappers {

  datatype Option<+T> = None | Some(value: T)
}
