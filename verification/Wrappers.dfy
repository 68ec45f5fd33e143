/** The optional value that the other modules share: a nullable field, or a query that may find nothing. */
module Wrappers {
  datatype Option<T> = None | Some(value: T)
}
