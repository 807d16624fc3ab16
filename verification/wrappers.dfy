/** The optional-value datatype used for the drag state, the vertex scan and the
    partial transform derivation. */
module Wrappers {

  /** Either nothing, or a value. */
  datatype Option<+T> = None | Some(value: T)
}
