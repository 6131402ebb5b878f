/** The Option and Result datatypes used across the model: `Option` for values
    that may be absent and `Result` for operations that can fail with an
    error the source propagates (`?`, `bail!`). */
module Wrappers {

  datatype Option<+T> = None | Some(value: T)

  datatype Result<+T, +E> = Success(value: T) | Failure(error: E)
}
