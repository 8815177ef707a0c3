/**
 * The exceptions the bus throws, catches, unwraps and records. An exception is a value
 * with a kind (the .NET class that matters to the code), the texts the fault headers
 * copy, and an optional inner exception.
 */
module Exceptions {
  import opened Wrappers

  datatype Kind =
    | TargetInvocation        // System.Reflection.TargetInvocationException
    | HandlingFailed          // TransportMessageHandlingFailedException
    | AbortHandling           // AbortHandlingCurrentMessageException
    | InvalidOperation
    | NotSupported
    | NotImplemented
    | ObjectDisposed
    | QueueNotFound
    | Sql(number: int)        // SqlException with its error number
    | NullReference
    | ArgumentNull
    | Argument                // System.ArgumentException
    | ArgumentOutOfRange
    | Application             // any other exception type

  datatype Exception = Exception(
    kind: Kind,
    typeName: string,
    message: string,
    stackTrace: string,
    helpLink: string,
    source: string,
    inner: Option<Exception>)

  /** A nullable exception reference, as passed to events and stored by the failure counter. */
  type ExcRef = Option<Exception>

  function Simple(kind: Kind, typeName: string, message: string): Exception {
    Exception(kind, typeName, message, "", "", "", None)
  }

  function InvalidOperationException(message: string): Exception {
    Simple(InvalidOperation, "System.InvalidOperationException", message)
  }

  function ObjectDisposedException(objectName: string): Exception {
    Simple(ObjectDisposed, "System.ObjectDisposedException", objectName)
  }

  function NotSupportedException(): Exception {
    Simple(NotSupported, "System.NotSupportedException", "")
  }

  function ArgumentNullException(paramName: string): Exception {
    Simple(ArgumentNull, "System.ArgumentNullException", paramName)
  }

  function ArgumentException(message: string): Exception {
    Simple(Argument, "System.ArgumentException", message)
  }

  function NullReferenceException(): Exception {
    Simple(NullReference, "System.NullReferenceException", "")
  }

  function NotImplementedException(): Exception {
    Simple(NotImplemented, "System.NotImplementedException", "")
  }

  const AbortException: Exception :=
    Simple(AbortHandling, "CWServiceBus.Transport.AbortHandlingCurrentMessageException", "")

  /** TransportMessageHandlingFailedException(original): OriginalException is its inner exception. */
  function HandlingFailedException(original: ExcRef): (e: Exception)
    ensures e.kind == HandlingFailed && e.inner == original
  {
    Exception(HandlingFailed, "CWServiceBus.Transport.TransportMessageHandlingFailedException",
      "", "", "", "", original)
  }

  /**
   * What a transport's catch block records: the original exception carried by a
   * handling-failed wrapper (possibly null), otherwise the caught exception itself.
   */
  function OriginalOf(e: Exception): (r: ExcRef)
    ensures e.kind == HandlingFailed ==> r == e.inner
    ensures e.kind != HandlingFailed ==> r == Some(e)
  {
    if e.kind == HandlingFailed then e.inner else Some(e)
  }

  /** What the dispatcher reports: the inner exception of a reflection wrapper when it has one. */
  function UnwrapInvocation(e: Exception): (r: Exception)
    ensures e.kind == TargetInvocation && e.inner.Some? ==> r == e.inner.value
    ensures !(e.kind == TargetInvocation && e.inner.Some?) ==> r == e
  {
    if e.kind == TargetInvocation && e.inner.Some? then e.inner.value else e
  }
}
