/** Option, Result and Outcome: the model's stand-ins for TypeScript's `T | null`,
    for an operation that returns or throws, and for a `Promise<void>` that may reject. */
module Wrappers {

  datatype Option<+T> = None | Some(value: T)

  datatype Result<+T, +E> = Ok(value: T) | Err(error: E)

  datatype Outcome<+E> = Pass | Fail(error: E)

  /** What a `catch (error)` clause receives: an `Error` object or some other thrown value. */
  datatype Thrown = ErrorObject(message: string) | NonError

  /** `error instanceof Error ? error.message : 'Unknown error'` */
  function MessageOf(t: Thrown): string {
    match t
    case ErrorObject(msg) => msg
    case NonError => "Unknown error"
  }
}
