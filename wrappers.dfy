/** Python's `None`-or-value, as used for optional filenames and replies. */
module Wrappers {

  datatype Option<+T> = None | Some(value: T)
}
