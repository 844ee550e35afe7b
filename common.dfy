/**
 * Values shared by the retry and the disposal components: the exceptions the
 * library raises or passes through, the Result and Option wrappers that stand
 * for "returns or throws" and "may be null", and durations.
 */
module Common {

  /** A `TimeSpan`, measured in whole seconds. */
  type Duration = int

  /** The .NET exceptions the modelled code raises or passes on. Messages are
      kept as tags; `OtherException` stands for any exception an operation
      outside the library throws. */
  datatype Exception =
    | ArgumentNullException(paramName: string)
    | ArgumentOutOfRangeException(paramName: string, actualValue: int, message: string)
    | ArgumentException(message: string)
    | InvalidOperationException(message: string)
    | IndexOutOfRangeException
    | OtherException(typeName: string, message: string)

  /** The value of a call that either returns a value or throws. */
  datatype Result<+T> = Success(value: T) | Failure(error: Exception)

  /** A reference argument that may be null. */
  datatype Option<+T> = None | Some(value: T)

  /** The two ways a disposable object can be torn down: an explicit
      `Dispose()` call, or the garbage collector running its finalizer. */
  datatype DisposeCall = ExplicitDispose | FinalizerRun
}
