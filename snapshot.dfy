/**
  The `snapshots` table's row: a copy of an aggregate at one version, with the
  history as a JSON column and the aggregate itself as a serialized column.
*/
module Snapshots {
  import opened Wrappers
  import opened Values
  import opened Classes
  import opened Aggregates

  /** A persisted snapshot. Every column but the aggregate data is not nullable. */
  datatype SnapshotRow = SnapshotRow(
    uuid: string,
    version: int,
    aggregateClass: ClassName,
    payload: Payload,
    aggregateData: AggState,
    aggregateCreated: Time,
    aggregateModified: Time,
    created: Time,
    history: seq<HistoryEntry>)

  /** The unique constraint `unique_version` on (version, uuid). */
  predicate SnapshotUnique(rows: seq<SnapshotRow>)
  {
    forall i, j :: 0 <= i < j < |rows| ==> rows[i].version != rows[j].version || rows[i].uuid != rows[j].uuid
  }

  /** The public methods the `Snapshot` record defines, by name. */
  const SNAPSHOT_METHODS: set<string> := {
    "getId", "getUuid", "setUuid", "getVersion", "setVersion", "getAggregateClass", "setAggregateClass",
    "getPayload", "setPayload", "getAggregateData", "setAggregateData", "getCreated", "setCreated",
    "getAggregateCreated", "setAggregateCreated", "getAggregateModified", "setAggregateModified",
    "getHistory", "setHistory"}

  /**
    The position of the first call, in a sequence of method calls on a record,
    to a method the record does not define: PHP raises an `Error` there.
  */
  function FirstUndefined(calls: seq<string>, defined: set<string>): (r: Option<nat>)
    ensures r.Some? ==> r.value < |calls| && calls[r.value] !in defined
    ensures r.Some? ==> forall i :: 0 <= i < r.value ==> calls[i] in defined
    ensures r.None? <==> forall i :: 0 <= i < |calls| ==> calls[i] in defined
  {
    if calls == [] then None
    else if calls[0] !in defined then Some(0)
    else
      var rest := FirstUndefined(calls[1..], defined);
      if rest.Some? then Some(rest.value + 1) else None
  }

  /**
    The record before it is written. PHP leaves every property but `created`
    null until its setter runs, so each such column is an `Option`.
  */
  class Snapshot {
    var uuid: Option<string>
    var version: Option<int>
    var aggregateClass: Option<ClassName>
    var payload: Option<Encoded<Payload>>
    var aggregateData: Encoded<Option<AggState>>
    var aggregateCreated: Option<Time>
    var aggregateModified: Option<Time>
    var created: Time
    var history: Option<Encoded<seq<HistoryEntry>>>

    /** Construction records the creation time; every other column starts null. */
    constructor (now: Time)
      ensures created == now && uuid.None? && version.None? && aggregateClass.None? && payload.None?
      ensures Decode(aggregateData).None? && aggregateCreated.None? && aggregateModified.None? && history.None?
    {
      uuid, version, aggregateClass := None, None, None;
      payload, aggregateData := None, Encode(None);
      aggregateCreated, aggregateModified := None, None;
      created, history := now, None;
    }

    /**
      Whether the database accepts the record: every NOT NULL column is set.
      The aggregate data is required too, as the row type always holds it.
    */
    predicate Persistable()
      reads this
    {
      && uuid.Some? && version.Some? && aggregateClass.Some? && payload.Some?
      && Decode(aggregateData).Some? && aggregateCreated.Some? && aggregateModified.Some? && history.Some?
    }

    /** The row the table would hold, read back through the getters. */
    function Row(): SnapshotRow
      reads this
      requires Persistable()
    {
      SnapshotRow(uuid.value, version.value, aggregateClass.value, Decode(payload.value), Decode(aggregateData).value,
                  aggregateCreated.value, aggregateModified.value, created, Decode(history.value))
    }

    method SetUuid(u: string)
      modifies this
      ensures uuid == Some(u) && version == old(version) && history == old(history)
      ensures aggregateData == old(aggregateData) && aggregateCreated == old(aggregateCreated)
      ensures aggregateModified == old(aggregateModified) && aggregateClass == old(aggregateClass)
      ensures created == old(created) && payload == old(payload)
    {
      uuid := Some(u);
    }

    method SetVersion(v: int)
      modifies this
      ensures version == Some(v) && uuid == old(uuid) && history == old(history)
      ensures aggregateData == old(aggregateData) && aggregateCreated == old(aggregateCreated)
      ensures aggregateModified == old(aggregateModified) && aggregateClass == old(aggregateClass)
      ensures created == old(created) && payload == old(payload)
    {
      version := Some(v);
    }

    method SetAggregateClass(c: ClassName)
      modifies this
      ensures aggregateClass == Some(c) && uuid == old(uuid) && version == old(version)
      ensures history == old(history) && aggregateData == old(aggregateData)
      ensures aggregateCreated == old(aggregateCreated) && aggregateModified == old(aggregateModified)
      ensures created == old(created) && payload == old(payload)
    {
      aggregateClass := Some(c);
    }

    /** Stored JSON-encoded; decoding the column gives it back. */
    method SetPayload(p: Payload)
      modifies this
      ensures payload.Some? && Decode(payload.value) == p && uuid == old(uuid) && version == old(version)
      ensures history == old(history) && aggregateData == old(aggregateData)
      ensures aggregateCreated == old(aggregateCreated) && aggregateModified == old(aggregateModified)
      ensures created == old(created) && aggregateClass == old(aggregateClass)
    {
      payload := Some(Encode(p));
    }

    /** Stored serialized; `Decode(aggregateData)` gives an equal aggregate back. */
    method SetAggregateData(a: Option<AggState>)
      modifies this
      ensures Decode(aggregateData) == a && uuid == old(uuid) && version == old(version)
      ensures history == old(history) && payload == old(payload)
      ensures aggregateCreated == old(aggregateCreated) && aggregateModified == old(aggregateModified)
      ensures created == old(created) && aggregateClass == old(aggregateClass)
    {
      aggregateData := Encode(a);
    }

    /** The setter takes any value, null included; only the column refuses null. */
    method SetAggregateCreated(t: Option<Time>)
      modifies this
      ensures aggregateCreated == t && uuid == old(uuid) && version == old(version)
      ensures history == old(history) && aggregateData == old(aggregateData)
      ensures aggregateModified == old(aggregateModified) && aggregateClass == old(aggregateClass)
      ensures created == old(created) && payload == old(payload)
    {
      aggregateCreated := t;
    }

    method SetAggregateModified(t: Option<Time>)
      modifies this
      ensures aggregateModified == t && uuid == old(uuid) && version == old(version)
      ensures history == old(history) && aggregateData == old(aggregateData)
      ensures aggregateCreated == old(aggregateCreated) && aggregateClass == old(aggregateClass)
      ensures created == old(created) && payload == old(payload)
    {
      aggregateModified := t;
    }

    /** Stored JSON-encoded; decoding the column gives it back. */
    method SetHistory(h: seq<HistoryEntry>)
      modifies this
      ensures history.Some? && Decode(history.value) == h && uuid == old(uuid) && version == old(version)
      ensures aggregateData == old(aggregateData) && aggregateCreated == old(aggregateCreated)
      ensures aggregateModified == old(aggregateModified) && aggregateClass == old(aggregateClass)
      ensures created == old(created) && payload == old(payload)
    {
      history := Some(Encode(h));
    }
  }

  /**
    A new record with every column set through its setter is complete, and
    its getters give back exactly the values set, with the creation time of
    construction.
  */
  method NewSnapshot(u: string, v: int, cls: ClassName, p: Payload, d: AggState, c: Time, m: Time,
                     h: seq<HistoryEntry>, now: Time) returns (s: Snapshot)
    ensures fresh(s) && s.Persistable()
    ensures s.Row() == SnapshotRow(u, v, cls, p, d, c, m, now, h)
  {
    s := new Snapshot(now);
    s.SetUuid(u);
    s.SetVersion(v);
    s.SetAggregateClass(cls);
    s.SetPayload(p);
    s.SetAggregateData(Some(d));
    s.SetAggregateCreated(Some(c));
    s.SetAggregateModified(Some(m));
    s.SetHistory(h);
  }
}
