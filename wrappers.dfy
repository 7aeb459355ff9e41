/** Python's `None`-or-value returns, as a datatype. */
module Wrappers {

  datatype Option<T> = None | Some(value: T)
}
