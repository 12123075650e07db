/** The optional value used where the source has an optional field or a
    value that may be absent. */
module Wrappers {

  datatype Option<+T> = None | Some(value: T)
}
