/** The nullable values the application passes around: a column that may be `null`,
    a lookup that may find nothing, a number that may be `NaN`. */
module Wrappers {

  datatype Option<+T> = None | Some(value: T)
}
