/** The diagnostic and result record collected on the message bus. */
module Messages {
  import opened Wrappers
  import opened Values

  /** Which exception, if any, a message was made from. */
  datatype ExceptionKind =
    | AggregateException
    | CommandValidationException
    | InterfaceException
    | StoreException
    | ListenerException

  /**
    A message: its text, its integer code, the command and aggregate it is
    correlated to (null when absent), when it was made and the exception it
    carries. The constructor of the source takes text and code and defaults the
    three others to null; here every field is given.
  */
  datatype Message = Message(
    text: string,
    code: int,
    commandUuid: Option<string>,
    aggregateUuid: Option<string>,
    created: Time,
    exception: Option<ExceptionKind>)

  /** An exception raised by a collaborator the model does not contain (the database, a listener). */
  datatype Fault = Fault(text: string, code: int)

  /** The message a caught collaborator exception becomes: correlated to nothing. */
  function FaultMessage(f: Fault, kind: ExceptionKind, now: Time): (m: Message)
    ensures m.commandUuid.None? && m.aggregateUuid.None?
    ensures m.text == f.text && m.code == f.code && m.exception == Some(kind)
  {
    Message(f.text, f.code, None, None, now, Some(kind))
  }
}
