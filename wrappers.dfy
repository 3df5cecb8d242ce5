/** The optional value used for a nullable field or a search that may find nothing. */
module Wrappers {
  datatype Option<+T> = None | Some(value: T)
}
