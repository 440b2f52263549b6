/** Domain events: immutable values assigned once when constructed. */
module Events {
  import opened Values
  import opened Classes

  /** The event classes the model knows; each has static metadata. */
  datatype EventClass = PageCreateEvent

  function ClassOf(ec: EventClass): ClassName
  {
    match ec
    case PageCreateEvent => PageCreateEventClass
  }

  /** `getAggregateClass()` of the event class. */
  function AggregateClassOf(ec: EventClass): ClassName
  {
    match ec
    case PageCreateEvent => Page
  }

  /** `getHandlerClass()` of the event class. */
  function HandlerClassOf(ec: EventClass): ClassName
  {
    match ec
    case PageCreateEvent => PageCreateHandlerClass
  }

  /** `getMessage()` of the event class. */
  function MessageOf(ec: EventClass): string
  {
    match ec
    case PageCreateEvent => "Page Created"
  }

  /** An event: there are no setters, so a datatype value is exact. */
  datatype Event = Event(
    eventClass: EventClass,
    aggregateUuid: string,
    commandUuid: string,
    version: int,
    user: int,
    payload: Payload)
}
