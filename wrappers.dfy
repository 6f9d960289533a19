/** The optional value used for every field a report record may lack. */
module Wrappers {

  datatype Option<+T> = None | Some(value: T)
}
