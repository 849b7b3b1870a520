/** The optional value used throughout the model, for Python's `None`-or-value and for
    collaborator calls that may raise. */
module Wrappers {

  datatype Option<+T> = None | Some(value: T)
}
