/** The optional-value datatype used throughout the model: Python's `None`
    versus a present value, and "raised an exception" versus a result. */
module Wrappers {

  datatype Option<+T> = None | Some(value: T)
}
