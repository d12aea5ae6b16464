/** Option and Result values for the dashboard model: a missing dictionary key is `None`,
    and a Python exception raised while building the table is a `Failure`. */
module Wrappers {

  datatype Option<+T> = None | Some(value: T)

  datatype Result<+R, +E> = Success(value: R) | Failure(error: E)
}
