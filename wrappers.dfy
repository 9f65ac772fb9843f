/** The optional value used for a reply target, a member lookup and a nullable column. */
module Wrappers {
  datatype Option<+T> = None | Some(value: T)
}
