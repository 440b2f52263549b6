/**
  The snapshot store over the in-memory `snapshots` table: the latest snapshot
  of an aggregate at or below a ceiling, and saving a snapshot of an aggregate.
*/
module SnapshotStoreService {
  import opened Wrappers
  import opened Values
  import opened Messages
  import opened MessageBusService
  import opened Aggregates
  import opened Snapshots

  /** A snapshot `find` may return: of the aggregate, and at or below the ceiling if one is given. */
  predicate Eligible(r: SnapshotRow, uuid: string, maxVersion: Option<int>)
  {
    r.uuid == uuid && (maxVersion.Some? ==> r.version <= maxVersion.value)
  }

  /**
    The first row of the query ordered by version descending: an eligible row
    of highest version, or nothing when no row is eligible.
  */
  function Latest(rows: seq<SnapshotRow>, uuid: string, maxVersion: Option<int>): (r: Option<SnapshotRow>)
    ensures r.Some? ==> r.value in rows && Eligible(r.value, uuid, maxVersion)
    ensures r.Some? ==> forall x :: x in rows && Eligible(x, uuid, maxVersion) ==> x.version <= r.value.version
    ensures r.None? <==> forall x :: x in rows ==> !Eligible(x, uuid, maxVersion)
  {
    if rows == [] then None
    else
      var rest := Latest(rows[1..], uuid, maxVersion);
      assert rows == [rows[0]] + rows[1..];
      if !Eligible(rows[0], uuid, maxVersion) then rest
      else if rest.Some? && rest.value.version > rows[0].version then rest
      else Some(rows[0])
  }

  /**
    The row the corrected `save` writes for an aggregate: its uuid, version,
    class, timestamps and history, the aggregate itself and an empty payload.
    The timestamp columns are not nullable, so an aggregate without them
    yields no row.
  */
  function SnapshotOf(a: AggState, now: Time): (r: Option<SnapshotRow>)
    ensures r.Some? <==> a.created.Some? && a.modified.Some?
    ensures r.Some? ==> r.value.uuid == a.uuid && r.value.version == a.version && r.value.aggregateClass == a.aggregateClass
    ensures r.Some? ==> r.value.aggregateCreated == a.created.value && r.value.aggregateModified == a.modified.value
    ensures r.Some? ==> r.value.history == a.history && r.value.aggregateData == a && r.value.created == now
    ensures r.Some? ==> r.value.payload == map[]
  {
    if a.created.Some? && a.modified.Some? then
      Some(SnapshotRow(a.uuid, a.version, a.aggregateClass, map[], a, a.created.value, a.modified.value, now, a.history))
    else None
  }

  /** Whether `r` can be inserted without breaking the unique constraint. */
  predicate KeyFree(rows: seq<SnapshotRow>, r: SnapshotRow)
  {
    forall x :: x in rows ==> x.version != r.version || x.uuid != r.uuid
  }

  /** The table after saving: the new row appended when it is complete and its key is free. */
  function SaveSpec(rows: seq<SnapshotRow>, a: AggState, now: Time): (r: (seq<SnapshotRow>, bool))
    ensures SnapshotUnique(rows) ==> SnapshotUnique(r.0)
    ensures r.1 ==> SnapshotOf(a, now).Some? && r.0 == rows + [SnapshotOf(a, now).value]
    ensures !r.1 ==> r.0 == rows
  {
    var row := SnapshotOf(a, now);
    if row.Some? && KeyFree(rows, row.value) then
      assert forall i :: 0 <= i < |rows| ==> rows[i] in rows;
      (rows + [row.value], true)
    else (rows, false)
  }

  /** In a table keeping the unique constraint, two rows with the same key are the same row. */
  lemma SameKeySameRow(t: seq<SnapshotRow>, i: int, j: int)
    requires SnapshotUnique(t)
    requires 0 <= i < |t| && 0 <= j < |t|
    requires t[i].version == t[j].version && t[i].uuid == t[j].uuid
    ensures i == j
  {
  }

  /**
    After a successful save, looking the aggregate up with its own version as
    the ceiling finds exactly the snapshot just written.
  */
  lemma SavedSnapshotFound(rows: seq<SnapshotRow>, a: AggState, now: Time)
    requires SnapshotUnique(rows)
    requires SaveSpec(rows, a, now).1
    ensures Latest(SaveSpec(rows, a, now).0, a.uuid, Some(a.version)) == SnapshotOf(a, now)
    ensures Latest(SaveSpec(rows, a, now).0, a.uuid, None).value.version >= a.version
  {
    var t := SaveSpec(rows, a, now).0;
    var s := SnapshotOf(a, now).value;
    assert t[|t| - 1] == s;
    assert s in t && Eligible(s, a.uuid, Some(a.version));
    var found := Latest(t, a.uuid, Some(a.version)).value;
    var i :| 0 <= i < |t| && t[i] == found;
    SameKeySameRow(t, i, |t| - 1);
  }

  // ---------------------------------------------------------------------------
  // save, as written

  /** The setters `save` calls on the new record, in order, as written: the last one is not defined. */
  const SAVE_CALLS: seq<string> := ["setUuid", "setVersion", "setAggregateCreated", "setAggregateModified",
                                    "setAggregateClass", "setHistory", "setAggregate"]

  /** The same calls with only the undefined setter renamed to the one the record defines. */
  const RENAMED_SAVE_CALLS: seq<string> := SAVE_CALLS[..6] + ["setAggregateData"]

  /** The corrected calls: renamed, and the NOT NULL payload column set to an empty payload. */
  const INTENDED_SAVE_CALLS: seq<string> := RENAMED_SAVE_CALLS + ["setPayload"]

  /**
    The setters a record needs before the database accepts it: one per NOT
    NULL column the constructor leaves null, and the aggregate data.
  */
  const ROW_SETTERS: set<string> := {"setUuid", "setVersion", "setAggregateClass", "setPayload", "setAggregateData",
                                     "setAggregateCreated", "setAggregateModified", "setHistory"}

  /** Whether every setter of `names` is among the calls. */
  predicate AllCalled(calls: seq<string>, names: set<string>)
  {
    forall n :: n in names ==> n in calls
  }

  /**
    `save` run with the given setter calls. A call to an undefined method
    raises a PHP `Error` before the `try`, which escapes with the table
    unchanged and nothing logged. A record with a column still null fails at
    the flush, which is caught and logged. Otherwise the save goes ahead.
  */
  function SaveWithCalls(calls: seq<string>, rows: seq<SnapshotRow>, a: AggState, now: Time)
    : (r: Result<(seq<SnapshotRow>, bool), string>)
    ensures r.Err? <==> exists i :: 0 <= i < |calls| && calls[i] !in SNAPSHOT_METHODS
    ensures r.Err? ==> r.error in calls && r.error !in SNAPSHOT_METHODS
    ensures r.Ok? && !AllCalled(calls, ROW_SETTERS) ==> r.value == (rows, false)
    ensures r.Ok? && AllCalled(calls, ROW_SETTERS) ==> r.value == SaveSpec(rows, a, now)
  {
    var u := FirstUndefined(calls, SNAPSHOT_METHODS);
    if u.Some? then Err(calls[u.value])
    else if !AllCalled(calls, ROW_SETTERS) then Ok((rows, false))
    else Ok(SaveSpec(rows, a, now))
  }

  /**
    As written, `save` never stores anything: even a complete aggregate on an
    empty table, which the intended save writes, ends in an `Error` on
    `setAggregate`.
  */
  lemma SaveAsWrittenNeverStores(rows: seq<SnapshotRow>, a: AggState, now: Time)
    ensures SaveWithCalls(SAVE_CALLS, rows, a, now) == Err("setAggregate")
    ensures a.created.Some? && a.modified.Some? ==> SaveSpec([], a, now).1
  {
    assert SAVE_CALLS[6] == "setAggregate";
    assert forall i :: 0 <= i < 6 ==> SAVE_CALLS[i] in SNAPSHOT_METHODS;
    assert SAVE_CALLS[6] !in SNAPSHOT_METHODS;
  }

  /**
    Renaming the setter alone still stores nothing: the payload column is
    left null, so every flush fails and the failure is logged.
  */
  lemma RenamedSaveStillFails(rows: seq<SnapshotRow>, a: AggState, now: Time)
    ensures SaveWithCalls(RENAMED_SAVE_CALLS, rows, a, now) == Ok((rows, false))
    ensures a.created.Some? && a.modified.Some? ==> SaveSpec([], a, now).1
  {
    assert forall i :: 0 <= i < |RENAMED_SAVE_CALLS| ==> RENAMED_SAVE_CALLS[i] in SNAPSHOT_METHODS;
    assert "setPayload" !in RENAMED_SAVE_CALLS;
  }

  /** With the defined setter and the payload set, `save` always reaches the write: the result is the intended one. */
  lemma IntendedSaveRuns(rows: seq<SnapshotRow>, a: AggState, now: Time)
    ensures SaveWithCalls(INTENDED_SAVE_CALLS, rows, a, now) == Ok(SaveSpec(rows, a, now))
  {
    assert INTENDED_SAVE_CALLS == ["setUuid", "setVersion", "setAggregateCreated", "setAggregateModified",
                                   "setAggregateClass", "setHistory", "setAggregateData", "setPayload"];
    assert forall i :: 0 <= i < |INTENDED_SAVE_CALLS| ==> INTENDED_SAVE_CALLS[i] in SNAPSHOT_METHODS;
    assert forall n :: n in ROW_SETTERS ==> n in INTENDED_SAVE_CALLS;
  }

  class SnapshotStore {
    /** The log a persistence failure is reported on. */
    const messageBus: MessageBus
    /** The exception the database raises when a snapshot cannot be written. */
    const persistFault: Fault
    /** The committed `snapshots` table. */
    var snapshots: seq<SnapshotRow>

    predicate Valid()
      reads this
    {
      SnapshotUnique(snapshots)
    }

    constructor (bus: MessageBus, fault: Fault)
      ensures messageBus == bus && persistFault == fault && snapshots == [] && Valid()
    {
      messageBus, persistFault, snapshots := bus, fault, [];
    }

    /** `find`: the latest snapshot of the aggregate at or below the ceiling. */
    function Find(uuid: string, maxVersion: Option<int>): (r: Option<SnapshotRow>)
      reads this
      ensures r == Latest(snapshots, uuid, maxVersion)
    {
      Latest(snapshots, uuid, maxVersion)
    }

    /**
      `save`, corrected: copies the aggregate into a new snapshot record,
      storing the aggregate through `setAggregateData` and an empty payload
      (the calls of `INTENDED_SAVE_CALLS`), and writes it. A failure is not rethrown: it
      becomes one message correlated to the aggregate's uuid, and the table
      stays as it was.
    */
    method Save(a: Aggregate, now: Time)
      requires Valid()
      modifies this, messageBus
      ensures Valid()
      ensures snapshots == SaveSpec(old(snapshots), old(a.State()), now).0
      ensures messageBus.messages == old(messageBus.messages)
        + (if SaveSpec(old(snapshots), old(a.State()), now).1 then []
           else [Message(persistFault.text, persistFault.code, None, Some(old(a.uuid)), now, Some(StoreException))])
    {
      var snapshot := new Snapshot(now);
      snapshot.SetUuid(a.uuid);
      snapshot.SetVersion(a.version);
      snapshot.SetAggregateCreated(a.created);
      snapshot.SetAggregateModified(a.modified);
      snapshot.SetAggregateClass(a.aggregateClass);
      snapshot.SetHistory(a.history);
      snapshot.SetAggregateData(Some(a.State()));
      snapshot.SetPayload(map[]);
      if snapshot.Persistable() && KeyFree(snapshots, snapshot.Row()) {
        assert snapshot.Row() == SnapshotOf(a.State(), now).value;
        snapshots := snapshots + [snapshot.Row()];
      } else {
        messageBus.Dispatch(Message(persistFault.text, persistFault.code, None, Some(a.uuid), now, Some(StoreException)));
      }
    }
  }
}
