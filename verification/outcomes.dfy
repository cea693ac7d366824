/** The result of an operation that the source guards with a thrown
    exception (or a logged error followed by process exit): either the new
    value or the reason it was rejected. */
module Outcomes {

  datatype Result<+T, +E> = Ok(value: T) | Err(error: E)
}
