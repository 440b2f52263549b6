/**
  The `event_qeue` table's row: the same columns as a stream row, built from
  one, and convertible back into one.
*/
module QueueObjects {
  import opened Values
  import opened Classes
  import opened Events
  import opened StreamObjects

  /** The queue's unique constraint `unique_version` on (version, uuid, user). */
  predicate QueueUnique(rows: seq<Row>)
  {
    forall i, j :: 0 <= i < j < |rows| ==>
      rows[i].version != rows[j].version || rows[i].uuid != rows[j].uuid || rows[i].user != rows[j].user
  }

  class EventQueueObject {
    var uuid: string
    var commandUuid: string
    var version: int
    var created: Time
    var event: EventClass
    var aggregateClass: ClassName
    var user: int
    var payload: Encoded<Payload>
    var message: string

    function Value(): Row
      reads this
    {
      Row(uuid, commandUuid, version, created, event, aggregateClass, user, Decode(payload), message)
    }

    /** Copies all nine fields of the given stream row. */
    constructor (o: EventStreamObject)
      ensures Value() == o.Value()
    {
      uuid, commandUuid, version, created := o.uuid, o.commandUuid, o.version, o.created;
      event, aggregateClass, user := o.event, o.aggregateClass, o.user;
      payload, message := Encode(Decode(o.payload)), o.message;
    }

    /** Copies the nine fields into a new stream row; the queue row itself is only read. */
    method GetEventStreamObject(now: Time) returns (o: EventStreamObject)
      ensures fresh(o)
      ensures o.Value() == Value()
    {
      o := new EventStreamObject(now);
      o.SetUuid(uuid);
      o.SetCommandUuid(commandUuid);
      o.SetVersion(version);
      o.SetCreated(created);
      o.SetEvent(event);
      o.SetAggregateClass(aggregateClass);
      o.SetUser(user);
      o.SetPayload(Decode(payload));
      o.SetMessage(message);
    }

    method SetPayload(p: Payload)
      modifies this
      ensures payload == Encode(p)
      ensures Value() == old(Value()).(payload := p)
    {
      payload := Encode(p);
    }
  }

  /**
    The round trip the bundle relies on when it publishes queued rows: a queue
    row made from a stream row converts back into a field-equal stream row.
  */
  method QueueRoundTrip(o: EventStreamObject, now: Time) returns (back: EventStreamObject)
    ensures fresh(back)
    ensures back.Value() == o.Value()
  {
    var q := new EventQueueObject(o);
    back := q.GetEventStreamObject(now);
  }
}
