/**
  The class names the core resolves at run time (aggregate, command, event and
  handler classes), standing in for PHP's dynamic class lookup by string.
  The concrete classes are those of the bundle's example: the Page aggregate,
  its create command, event and handler.
*/
module Classes {
  datatype ClassName =
    | Page
    | BaseAggregate
    | PageCreateCommandClass
    | PageCreateEventClass
    | PageCreateHandlerClass
    | Other(name: string)

  const AGGREGATE_INTERFACE := "RevisionTen\\CQRS\\Interfaces\\AggregateInterface"
  const COMMAND_INTERFACE := "RevisionTen\\CQRS\\Interfaces\\CommandInterface"
  const HANDLER_INTERFACE := "RevisionTen\\CQRS\\Interfaces\\HandlerInterface"

  /** The fully qualified class name, as `get_class` or `::class` spells it. */
  function Name(c: ClassName): string
  {
    match c
    case Page => "RevisionTen\\CQRS\\Tests\\Examples\\Model\\Page"
    case BaseAggregate => "RevisionTen\\CQRS\\Model\\Aggregate"
    case PageCreateCommandClass => "RevisionTen\\CQRS\\Tests\\Examples\\Command\\PageCreateCommand"
    case PageCreateEventClass => "RevisionTen\\CQRS\\Tests\\Examples\\Event\\PageCreateEvent"
    case PageCreateHandlerClass => "RevisionTen\\CQRS\\Tests\\Examples\\Handler\\PageCreateHandler"
    case Other(n) => n
  }

  /** `instanceof AggregateInterface`: the base Aggregate and its subclass Page. */
  predicate ImplementsAggregate(c: ClassName)
  {
    c == Page || c == BaseAggregate
  }
}
