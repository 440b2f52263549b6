/**
  The `event_stream` table's row: an entity whose private fields are set one by
  one through setters, with the payload kept as a JSON column.
*/
module StreamObjects {
  import opened Values
  import opened Classes
  import opened Events

  /** A row of the event stream (or of the event queue, which has the same columns). */
  datatype Row = Row(
    uuid: string,
    commandUuid: string,
    version: int,
    created: Time,
    event: EventClass,
    aggregateClass: ClassName,
    user: int,
    payload: Payload,
    message: string)

  /** The stream's unique constraint `unique_version` on (version, uuid). */
  predicate StreamUnique(rows: seq<Row>)
  {
    forall i, j :: 0 <= i < j < |rows| ==> rows[i].version != rows[j].version || rows[i].uuid != rows[j].uuid
  }

  class EventStreamObject {
    var uuid: string
    var commandUuid: string
    var version: int
    var created: Time
    var event: EventClass
    var aggregateClass: ClassName
    var user: int
    var payload: Encoded<Payload>
    var message: string

    /** The row as the getters read it (the payload decoded). */
    function Value(): Row
      reads this
    {
      Row(uuid, commandUuid, version, created, event, aggregateClass, user, Decode(payload), message)
    }

    /**
      Construction records the creation time. The other fields are typed but
      unset in the source until their setters run; here they hold placeholders.
    */
    constructor (now: Time)
      ensures created == now
    {
      uuid, commandUuid, version, created := "", "", 0, now;
      event, aggregateClass, user := PageCreateEvent, Other(""), 0;
      payload, message := Encode(map[]), "";
    }

    method SetUuid(u: string)
      modifies this
      ensures Value() == old(Value()).(uuid := u)
    {
      uuid := u;
    }

    method SetCommandUuid(c: string)
      modifies this
      ensures Value() == old(Value()).(commandUuid := c)
    {
      commandUuid := c;
    }

    method SetVersion(v: int)
      modifies this
      ensures Value() == old(Value()).(version := v)
    {
      version := v;
    }

    method SetCreated(t: Time)
      modifies this
      ensures Value() == old(Value()).(created := t)
    {
      created := t;
    }

    method SetEvent(e: EventClass)
      modifies this
      ensures Value() == old(Value()).(event := e)
    {
      event := e;
    }

    method SetAggregateClass(c: ClassName)
      modifies this
      ensures Value() == old(Value()).(aggregateClass := c)
    {
      aggregateClass := c;
    }

    method SetUser(u: int)
      modifies this
      ensures Value() == old(Value()).(user := u)
    {
      user := u;
    }

    /** The payload is stored JSON-encoded; reading it back decodes it. */
    method SetPayload(p: Payload)
      modifies this
      ensures payload == Encode(p)
      ensures Value() == old(Value()).(payload := p)
    {
      payload := Encode(p);
    }

    method SetMessage(m: string)
      modifies this
      ensures Value() == old(Value()).(message := m)
    {
      message := m;
    }
  }
}
