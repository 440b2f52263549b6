/**
  The aggregate base class: identity, version counters, pending events and
  history, updated in place by setters. The example subclass Page adds one
  public property, `title`, which is kept here as an optional field.
*/
module Aggregates {
  import opened Wrappers
  import opened Values
  import opened Classes
  import opened Events

  /** One entry of the history array: who, which version, what, when, with which payload. */
  datatype HistoryEntry = HistoryEntry(user: int, version: int, message: string, created: Time, payload: Payload)

  /** The value of an aggregate object, every property public or private. */
  datatype AggState = AggState(
    aggregateClass: ClassName,
    uuid: string,
    created: Option<Time>,
    modified: Option<Time>,
    version: int,
    snapshotVersion: Option<int>,
    streamVersion: Option<int>,
    pendingEvents: seq<Event>,
    history: seq<HistoryEntry>,
    title: Option<string>)

  /** A newly constructed aggregate of class `cls`. */
  function NewState(cls: ClassName, uuid: string): (s: AggState)
    ensures s.aggregateClass == cls && s.uuid == uuid && s.version == 0
    ensures s.snapshotVersion.None? && s.streamVersion.None? && s.created.None? && s.modified.None?
    ensures s.pendingEvents == [] && s.history == [] && s.title.None?
  {
    AggState(cls, uuid, None, None, 0, None, None, [], [], None)
  }

  /** PHP arithmetic on a nullable int: `null + 10` is 10. */
  function NullAsZero(v: Option<int>): int
  {
    if v.Some? then v.value else 0
  }

  /**
    `streamVersion >= snapshotVersion + 10` under PHP 8 comparison rules: an int
    on the left compares numerically; a null on the left compares as booleans,
    `false >= (bool)(snapshotVersion + 10)`, which holds only when the sum is 0.
  */
  function ShouldTakeSnapshot(s: AggState): (b: bool)
    ensures NullAsZero(s.snapshotVersion) >= 0 ==>
              (b <==> s.streamVersion.Some? && s.streamVersion.value - NullAsZero(s.snapshotVersion) >= 10)
    ensures s.streamVersion.None? && b ==> s.snapshotVersion == Some(-10)
  {
    match s.streamVersion
    case Some(sv) => sv >= NullAsZero(s.snapshotVersion) + 10
    case None => NullAsZero(s.snapshotVersion) + 10 == 0
  }

  class Aggregate {
    const aggregateClass: ClassName
    var uuid: string
    var created: Option<Time>
    var modified: Option<Time>
    var version: int
    var snapshotVersion: Option<int>
    var streamVersion: Option<int>
    var pendingEvents: seq<Event>
    var history: seq<HistoryEntry>
    var title: Option<string>

    /** The whole object as a value. */
    function State(): AggState
      reads this
    {
      AggState(aggregateClass, uuid, created, modified, version, snapshotVersion,
               streamVersion, pendingEvents, history, title)
    }

    constructor (cls: ClassName, uuid: string)
      ensures State() == NewState(cls, uuid)
    {
      aggregateClass, this.uuid := cls, uuid;
      created, modified := None, None;
      version, snapshotVersion, streamVersion := 0, None, None;
      pendingEvents, history, title := [], [], None;
    }

    method SetUuid(u: string)
      modifies this
      ensures State() == old(State()).(uuid := u)
    {
      uuid := u;
    }

    method SetVersion(v: int)
      modifies this
      ensures State() == old(State()).(version := v)
    {
      version := v;
    }

    method SetSnapshotVersion(v: Option<int>)
      modifies this
      ensures State() == old(State()).(snapshotVersion := v)
    {
      snapshotVersion := v;
    }

    method SetStreamVersion(v: Option<int>)
      modifies this
      ensures State() == old(State()).(streamVersion := v)
    {
      streamVersion := v;
    }

    method SetCreated(t: Time)
      modifies this
      ensures State() == old(State()).(created := Some(t))
    {
      created := Some(t);
    }

    method SetModified(t: Time)
      modifies this
      ensures State() == old(State()).(modified := Some(t))
    {
      modified := Some(t);
    }

    method SetPendingEvents(es: seq<Event>)
      modifies this
      ensures State() == old(State()).(pendingEvents := es)
    {
      pendingEvents := es;
    }

    method AddPendingEvent(e: Event)
      modifies this
      ensures State() == old(State()).(pendingEvents := old(pendingEvents) + [e])
    {
      pendingEvents := pendingEvents + [e];
    }

    method SetHistory(h: seq<HistoryEntry>)
      modifies this
      ensures State() == old(State()).(history := h)
    {
      history := h;
    }

    method AddToHistory(entry: HistoryEntry)
      modifies this
      ensures State() == old(State()).(history := old(history) + [entry])
    {
      history := history + [entry];
    }

    /** Assignment to Page's public `title` property. */
    method SetTitle(t: Option<string>)
      modifies this
      ensures State() == old(State()).(title := t)
    {
      title := t;
    }
  }
}
