/** The optional value used for host lookups that may find nothing. */
module Wrappers {

  datatype Option<+T> = None | Some(value: T)

}
