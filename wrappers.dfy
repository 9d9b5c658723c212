/** The Option datatype shared by the modules of this model: Go's nil results become `None`. */
module Wrappers {

  datatype Option<+T> = None | Some(value: T)

}
