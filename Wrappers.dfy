/** Option and Result values used where the modelled code returns a
    sentinel or raises an exception instead of producing a value. */
module Wrappers {

  datatype Option<+T> = None | Some(value: T)

  datatype Result<+T, +E> = Success(value: T) | Failure(error: E)
}
