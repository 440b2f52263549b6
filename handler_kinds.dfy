/**
  The handler interface: `validateCommand`, `createEvent` and `execute`,
  instantiated by the bundle's example PageCreateHandler. Handlers are
  stateless; `execute` changes the aggregate it is given.
*/
module HandlerKinds {
  import opened Wrappers
  import opened Values
  import opened Classes
  import opened Events
  import Codes
  import opened Commands
  import opened Aggregates

  /** The handler classes the model knows. */
  datatype HandlerKind = PageCreateHandler

  /**
    The handler class named by a command: the container lookup, with
    instantiation as fallback. A class that does not implement the handler
    interface resolves to nothing.
  */
  function Resolve(c: ClassName): (r: Option<HandlerKind>)
    ensures r.Some? <==> c == PageCreateHandlerClass
  {
    if c == PageCreateHandlerClass then Some(PageCreateHandler) else None
  }

  /** The handler of an event class, as `applyChanges` looks it up. */
  function HandlerOf(ec: EventClass): (k: HandlerKind)
    ensures Resolve(HandlerClassOf(ec)) == Some(k)
  {
    match ec
    case PageCreateEvent => PageCreateHandler
  }

  /** A `CommandValidationException`: message, code and the command it is about. */
  datatype ValidationError = ValidationError(text: string, code: int, command: Command)

  /**
    `validateCommand` of PageCreateHandler: a missing or empty title is
    refused with BAD_REQUEST, checked first; then an aggregate that already
    has a version is refused with CONFLICT; otherwise the command is valid.
  */
  function ValidateCommand(k: HandlerKind, c: Command, s: AggState): (r: Result<bool, ValidationError>)
    ensures r.Err? ==> r.error.command == c
    ensures r.Err? && r.error.code == Codes.Code.BadRequest.Value() <==> IsEmptyValue(Title(c.payload))
    ensures r.Err? && r.error.code == Codes.Code.Conflict.Value() <==> !IsEmptyValue(Title(c.payload)) && s.version != 0
    ensures r == Ok(true) <==> !IsEmptyValue(Title(c.payload)) && s.version == 0
  {
    match k
    case PageCreateHandler =>
      if IsEmptyValue(Title(c.payload)) then Err(ValidationError("You must enter a title", Codes.Code.BadRequest.Value(), c))
      else if s.version != 0 then Err(ValidationError("Aggregate already exists", Codes.Code.Conflict.Value(), c))
      else Ok(true)
  }

  /**
    `createEvent` of PageCreateHandler: the event for version `onVersion + 1`,
    about the command's aggregate, correlated to the command, with its user and payload.
  */
  function CreateEvent(k: HandlerKind, c: Command): (e: Event)
    ensures e.version == c.onVersion + 1
    ensures e.aggregateUuid == c.aggregateUuid && e.commandUuid == c.uuid
    ensures e.user == c.user && e.payload == c.payload
    ensures HandlerOf(e.eventClass) == k
  {
    match k
    case PageCreateHandler => Event(PageCreateEvent, c.aggregateUuid, c.uuid, c.onVersion + 1, c.user, c.payload)
  }

  /** `execute` of PageCreateHandler, on the aggregate's value: the title becomes the payload's title. */
  function Execute(k: HandlerKind, e: Event, s: AggState): (r: AggState)
    ensures r.title == Title(e.payload)
    ensures r.(title := s.title) == s
  {
    match k
    case PageCreateHandler => s.(title := Title(e.payload))
  }

  /** `execute` on the aggregate object: changes it in place and returns the same object. */
  method ExecuteOn(k: HandlerKind, e: Event, a: Aggregate) returns (r: Aggregate)
    modifies a
    ensures r == a
    ensures a.State() == Execute(k, e, old(a.State()))
  {
    match k
    case PageCreateHandler =>
      a.SetTitle(Title(e.payload));
    r := a;
  }
}
