/** The optional value used for absent map entries, unset session tokens and
    field checks that pass (None) or fail with a message (Some). */
module Wrappers {
  datatype Option<+T> = None | Some(value: T)
}
