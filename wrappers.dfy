/** The optional value used wherever the program either produces a value or
    raises (a missing file, an empty column, a NaN converted with int()). */
module Wrappers {

  datatype Option<+T> = None | Some(value: T)
}
