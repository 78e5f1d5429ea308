/** Values shared by every part of the model: optional values, results of
    operations that can throw, bytes, file paths and the Java exception kinds
    that the command-line client raises or lets through. */
module Common {

  /** `java.util.Optional`, and a nullable reference where the code tests for null. */
  datatype Option<+T> = None | Some(value: T)

  /** The outcome of a call that either returns a value or throws. */
  datatype Result<+T, +E> = Success(value: T) | Failure(error: E)

  newtype byte = x: int | 0 <= x < 256

  /** A local file path, as text. */
  type Path = string

  /** The exception kinds that reach the callers of the modelled code. */
  datatype Exception =
    | QueryEngineException(message: string)
      // `new RuntimeException(String)`
    | RuntimeException(message: string)
      // `new RuntimeException(Throwable)`: the cause is kept, not its message
    | WrappedRuntimeException(cause: Exception)
    | IOException(message: string)
    | ApiException(message: string)
    | NoSuchElementException
}
