/** The optional value used throughout the model: Python's `None`, a
    JavaScript `undefined`, a missing element or a failed fetch. */
module Wrappers {

  datatype Option<+T> = None | Some(value: T)
}
