/** The error codes and the result type operations report with. */
module Results {

  datatype Error = InvalidArgument | InvalidState | NotFound | AlreadyExists | OutOfMemory | OutOfRange | CorruptData

  datatype Result<T> = Ok(value: T) | Fail(error: Error)

  datatype Option<T> = None | Some(value: T)
}
