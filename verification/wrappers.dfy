/** Wrappers shared by the model: an optional value, a value or
    a thrown error, and a pass/fail outcome for operations that return nothing. */
module Wrappers {

  datatype Option<T> = None | Some(value: T)

  datatype Result<T, E> = Success(value: T) | Failure(error: E)

  datatype Outcome<E> = Pass | Fail(error: E)
}
