/** An optional value: a request field that may be missing, a lookup that may find nothing. */
module Wrappers {

  datatype Option<+T> = None | Some(value: T)

}
