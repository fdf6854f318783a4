/** The optional-value datatype shared by every module of the model. */
module Wrappers {

  /** A JavaScript value that may be `null` / `undefined` (None) or present (Some). */
  datatype Option<+T> = None | Some(value: T)
}
