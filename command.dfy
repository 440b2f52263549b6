/** Commands: immutable values assigned once when constructed. */
module Commands {
  import opened Wrappers
  import opened Values
  import opened Classes

  /**
    A command class, described by the two static methods every command class
    has: the handler class and the aggregate class it targets.
  */
  datatype CommandClass = CommandClass(name: ClassName, handlerClass: ClassName, aggregateClass: ClassName)

  const PAGE_CREATE_COMMAND := CommandClass(PageCreateCommandClass, PageCreateHandlerClass, Page)

  /** `class_implements($class)` contains CommandInterface: only the known command class does. */
  function AsCommandClass(c: ClassName): (r: Option<CommandClass>)
    ensures r.Some? <==> c == PageCreateCommandClass
    ensures r.Some? ==> r.value.name == c
  {
    if c == PageCreateCommandClass then Some(PAGE_CREATE_COMMAND) else None
  }

  /** The optional callable a command may carry; it is stored and never invoked by the core. */
  datatype Listener = Listener(id: string)

  datatype Command = Command(
    commandClass: CommandClass,
    user: int,
    uuid: string,
    aggregateUuid: string,
    onVersion: int,
    payload: Payload,
    listener: Option<Listener>)

  /**
    The constructor: a null uuid is replaced by a freshly generated one
    (`freshUuid`, the generator being outside the model); a given uuid and every
    other argument are stored unchanged.
  */
  function NewCommand(cc: CommandClass, user: int, uuid: Option<string>, freshUuid: string,
                      aggregateUuid: string, onVersion: int, payload: Payload,
                      listener: Option<Listener>): (c: Command)
    ensures uuid.Some? ==> c.uuid == uuid.value
    ensures uuid.None? ==> c.uuid == freshUuid
    ensures c.commandClass == cc && c.user == user && c.aggregateUuid == aggregateUuid
    ensures c.onVersion == onVersion && c.payload == payload && c.listener == listener
  {
    Command(cc, user, if uuid.Some? then uuid.value else freshUuid, aggregateUuid, onVersion, payload, listener)
  }
}
