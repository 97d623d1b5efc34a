/** The optional value that Swift expresses with `T?` and `if let`. */
module Wrappers {
  datatype Option<+T> = None | Some(value: T)
}
