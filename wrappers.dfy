/** A value that may be absent: PHP's `null` against a present value. */
module Wrappers {

  datatype Option<+T> = None | Some(value: T)
}
