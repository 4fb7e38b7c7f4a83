/** The optional-value datatype used where the editor's float arithmetic
    would produce NaN (a division by zero length). */
module Wrappers {

  datatype Option<+T> = None | Some(value: T)
}
