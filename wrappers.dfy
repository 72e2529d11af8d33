/** The optional value used for "no hand this frame" and "no throw this frame". */
module Wrappers {

  datatype Option<+T> = None | Some(value: T)

}
