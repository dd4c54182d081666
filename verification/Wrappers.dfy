/** Absence and failure as values: a nullable reference becomes an Option,
    a thrown exception becomes the Err side of a Result. */
module Wrappers {

  datatype Option<+T> = None | Some(value: T)

  datatype Result<+T, +E> = Ok(value: T) | Err(error: E)
}
