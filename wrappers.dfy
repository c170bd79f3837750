/** The optional value used for the agent's "no post yet" state. */
module Wrappers {
  datatype Option<+T> = None | Some(value: T)
}
