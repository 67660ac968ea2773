/** The optional value used for every field a profile record may not have yet. */
module Wrappers {

  datatype Option<+T> = None | Some(value: T)
}
