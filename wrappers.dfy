/** The Option values shared by every module of the model. */
module Wrappers {

  /** A value that may be absent: JavaScript `undefined`/`null`, Java `null`, a missing map entry. */
  datatype Option<+T> = None | Some(value: T)
}
