/** Option and Result, and the exception kinds the decoder raises, modelled as values. */
module Wrappers {

  datatype Option<+T> = None | Some(value: T)

  /** The exception kinds of the library and of the runtime calls it relies on. */
  datatype Error =
    /** NotSupportedVersionException: an unknown signature, or one that needs client metadata. */
    | UnsupportedVersion(signature: int, needsClientMetadata: bool)
    /** EndOfStreamException from a BinaryReader read past the end of the data. */
    | EndOfStream
    /** InvalidOperationException: an unsupported capability or an impossible lookup. */
    | InvalidOperation
    /** UnreachableCodeException: a capability the format variant structurally lacks. */
    | Unreachable
    /** NotImplementedException. */
    | NotImplemented
    /** ArgumentOutOfRangeException (list index, negative stream position, bad slice). */
    | ArgumentOutOfRange
    /** ArgumentException (destination array too small). */
    | ArgumentError
    /** OverflowException: an array allocated with a negative length. */
    | Overflow
    /** IndexOutOfRangeException: a write past the end of a fixed-size buffer. */
    | IndexOutOfRange
    /** NullReferenceException / ArgumentNullException. */
    | NullReference
    /** IOException: a seek before the beginning of the stream. */
    | IOError

  datatype Result<+T> = Success(value: T) | Failure(error: Error) {
    predicate IsFailure() { Failure? }

    function PropagateFailure<U>(): Result<U>
      requires Failure?
    {
      Failure(error)
    }

    function Extract(): T
      requires Success?
    {
      value
    }
  }
}
