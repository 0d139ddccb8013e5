/** The optional value used where the simulation returns `None`. */
module Wrappers {
  datatype Option<+T> = None | Some(value: T)
}
