/** The optional value a partial step returns: `None` when the step is not enabled. */
module Wrappers {

  datatype Option<+T> = None | Some(value: T)
}
