/**
  The aggregate factory: rebuilds an aggregate from the latest snapshot, the
  canonical stream rows above it and, for one user, the queued rows above
  those, by replaying rows through `apply` and the handlers' `execute`.
*/
module AggregateFactoryService {
  import opened Wrappers
  import opened Values
  import opened Classes
  import opened Events
  import Codes
  import opened Messages
  import opened MessageBusService
  import opened Aggregates
  import opened StreamObjects
  import opened Snapshots
  import opened EventStoreService
  import opened SnapshotStoreService
  import opened HandlerKinds

  // ---------------------------------------------------------------------------
  // apply and applyChanges

  /** `apply`: the version becomes the event's, the event is appended to pending, nothing else changes. */
  function ApplySpec(s: AggState, e: Event): (r: AggState)
    ensures r.version == e.version && r.pendingEvents == s.pendingEvents + [e]
    ensures r.(version := s.version, pendingEvents := s.pendingEvents) == s
  {
    s.(version := e.version, pendingEvents := s.pendingEvents + [e])
  }

  /** The handlers of `es` executed in list order, each on the result of the one before. */
  function ExecuteAll(s: AggState, es: seq<Event>): AggState
    decreases |es|
  {
    if es == [] then s
    else
      var n := |es| - 1;
      Execute(HandlerOf(es[n].eventClass), es[n], ExecuteAll(s, es[..n]))
  }

  /** Executing a batch in order leaves the title of the last event; every other field is kept. */
  lemma {:induction false} ExecuteAllEffect(s: AggState, es: seq<Event>)
    ensures ExecuteAll(s, es) == s.(title := if es == [] then s.title else Title(es[|es| - 1].payload))
    decreases |es|
  {
    if es != [] {
      ExecuteAllEffect(s, es[..|es| - 1]);
    }
  }

  /** `applyChanges`: the pending events' handlers run in order, then pending is emptied. */
  function ApplyChangesSpec(s: AggState): (r: AggState)
    ensures r.pendingEvents == []
  {
    ExecuteAll(s, s.pendingEvents).(pendingEvents := [])
  }

  lemma ApplyChangesEffect(s: AggState)
    ensures ApplyChangesSpec(s) == s.(pendingEvents := [],
      title := if s.pendingEvents == [] then s.title else Title(s.pendingEvents[|s.pendingEvents| - 1].payload))
  {
    ExecuteAllEffect(s, s.pendingEvents);
  }

  // ---------------------------------------------------------------------------
  // loadFromHistory

  /** The history entry a replayed row adds. */
  function EntryOf(r: Row): HistoryEntry
  {
    HistoryEntry(r.user, r.version, r.message, r.created, r.payload)
  }

  function Entries(rows: seq<Row>): (h: seq<HistoryEntry>)
    ensures |h| == |rows| && forall i :: 0 <= i < |rows| ==> h[i] == EntryOf(rows[i])
  {
    seq(|rows|, i requires 0 <= i < |rows| => EntryOf(rows[i]))
  }

  function EventsOf(rows: seq<Row>): (es: seq<Event>)
    ensures |es| == |rows| && forall i :: 0 <= i < |rows| ==> es[i] == BuildEvent(rows[i])
  {
    seq(|rows|, i requires 0 <= i < |rows| => BuildEvent(rows[i]))
  }

  /** The rows of aggregate `u`, in order (defined from the back, like the replay loop). */
  function Matching(rows: seq<Row>, u: string): seq<Row>
    decreases |rows|
  {
    if rows == [] then []
    else
      var n := |rows| - 1;
      Matching(rows[..n], u) + (if rows[n].uuid == u then [rows[n]] else [])
  }

  lemma {:induction false} MatchingAll(rows: seq<Row>, u: string)
    requires forall i :: 0 <= i < |rows| ==> rows[i].uuid == u
    ensures Matching(rows, u) == rows
    decreases |rows|
  {
    if rows != [] {
      MatchingAll(rows[..|rows| - 1], u);
    }
  }

  /**
    One iteration of the replay loop, for the row at index `k`: a row of
    another aggregate is skipped; the row at index 0 sets `created` if it is
    still null; the row at the last index sets `modified`; the row's event is
    applied and an entry is added to the history.
  */
  function ReplayStep(s: AggState, rows: seq<Row>, k: nat): AggState
    requires k < |rows|
  {
    var row := rows[k];
    if row.uuid != s.uuid then s
    else
      var s1 := if k == 0 && s.created.None? then s.(created := Some(row.created)) else s;
      var s2 := if k == |rows| - 1 then s1.(modified := Some(row.created)) else s1;
      var s3 := ApplySpec(s2, BuildEvent(row));
      s3.(history := s3.history + [EntryOf(row)])
  }

  /** One iteration, field by field. */
  lemma StepFacts(s: AggState, rows: seq<Row>, k: nat)
    requires k < |rows|
    ensures var r := ReplayStep(s, rows, k);
            var row := rows[k];
            && r.uuid == s.uuid && r.aggregateClass == s.aggregateClass
            && r.snapshotVersion == s.snapshotVersion && r.streamVersion == s.streamVersion && r.title == s.title
            && r.history == s.history + (if row.uuid == s.uuid then [EntryOf(row)] else [])
            && r.pendingEvents == s.pendingEvents + (if row.uuid == s.uuid then [BuildEvent(row)] else [])
            && r.version == (if row.uuid == s.uuid then row.version else s.version)
  {
  }

  /** The aggregate after the first `k` iterations of the replay loop. */
  function ReplayPrefix(s: AggState, rows: seq<Row>, k: nat): AggState
    requires k <= |rows|
  {
    if k == 0 then s else ReplayStep(ReplayPrefix(s, rows, k - 1), rows, k - 1)
  }

  /** The replay loop never touches identity, snapshot and stream versions or business fields. */
  lemma {:induction false} ReplayKeeps(s: AggState, rows: seq<Row>, k: nat)
    requires k <= |rows|
    ensures var r := ReplayPrefix(s, rows, k);
            && r.uuid == s.uuid && r.aggregateClass == s.aggregateClass
            && r.snapshotVersion == s.snapshotVersion && r.streamVersion == s.streamVersion
            && r.title == s.title
    decreases k
  {
    if k > 0 {
      ReplayKeeps(s, rows, k - 1);
      StepFacts(ReplayPrefix(s, rows, k - 1), rows, k - 1);
    }
  }

  /** Each replayed row of this aggregate adds its history entry, in order. */
  lemma {:induction false} ReplayHistory(s: AggState, rows: seq<Row>, k: nat)
    requires k <= |rows|
    ensures ReplayPrefix(s, rows, k).history == s.history + Entries(Matching(rows[..k], s.uuid))
    decreases k
  {
    if k == 0 {
      assert rows[..0] == [];
    } else {
      ReplayHistory(s, rows, k - 1);
      ReplayKeeps(s, rows, k - 1);
      StepFacts(ReplayPrefix(s, rows, k - 1), rows, k - 1);
      MatchingSnoc(rows, k, s.uuid);
      RowsAppend(Matching(rows[..k - 1], s.uuid), if rows[k - 1].uuid == s.uuid then [rows[k - 1]] else []);
    }
  }

  /** Each replayed row of this aggregate adds its event to pending, in order. */
  lemma {:induction false} ReplayPending(s: AggState, rows: seq<Row>, k: nat)
    requires k <= |rows|
    ensures ReplayPrefix(s, rows, k).pendingEvents == s.pendingEvents + EventsOf(Matching(rows[..k], s.uuid))
    decreases k
  {
    if k == 0 {
      assert rows[..0] == [];
    } else {
      ReplayPending(s, rows, k - 1);
      ReplayKeeps(s, rows, k - 1);
      StepFacts(ReplayPrefix(s, rows, k - 1), rows, k - 1);
      MatchingSnoc(rows, k, s.uuid);
      RowsAppend(Matching(rows[..k - 1], s.uuid), if rows[k - 1].uuid == s.uuid then [rows[k - 1]] else []);
    }
  }

  /** The version is that of the last replayed row of this aggregate, if any. */
  lemma {:induction false} ReplayVersion(s: AggState, rows: seq<Row>, k: nat)
    requires k <= |rows|
    ensures var m := Matching(rows[..k], s.uuid);
            ReplayPrefix(s, rows, k).version == (if m == [] then s.version else m[|m| - 1].version)
    decreases k
  {
    if k == 0 {
      assert rows[..0] == [];
    } else {
      ReplayVersion(s, rows, k - 1);
      ReplayKeeps(s, rows, k - 1);
      StepFacts(ReplayPrefix(s, rows, k - 1), rows, k - 1);
      MatchingSnoc(rows, k, s.uuid);
    }
  }

  /**
    The log the replay loop keeps after `k` rows: of the rows seen, exactly
    those of this aggregate each add one history entry and one pending event,
    in order, and the version is that of the last of them.
  */
  lemma ReplayLog(s: AggState, rows: seq<Row>, k: nat)
    requires k <= |rows|
    ensures var r := ReplayPrefix(s, rows, k);
            var m := Matching(rows[..k], s.uuid);
            && r.history == s.history + Entries(m)
            && r.pendingEvents == s.pendingEvents + EventsOf(m)
            && r.version == (if m == [] then s.version else m[|m| - 1].version)
  {
    ReplayHistory(s, rows, k);
    ReplayPending(s, rows, k);
    ReplayVersion(s, rows, k);
  }

  /** The rows of `u` among the first `k` rows extend those among the first `k - 1` by row `k - 1` if it is `u`'s. */
  lemma MatchingSnoc(rows: seq<Row>, k: nat, u: string)
    requires 0 < k <= |rows|
    ensures Matching(rows[..k], u) == Matching(rows[..k - 1], u) + (if rows[k - 1].uuid == u then [rows[k - 1]] else [])
  {
    assert rows[..k][..k - 1] == rows[..k - 1];
  }

  /** History entries and events of a concatenation are the concatenations. */
  lemma RowsAppend(a: seq<Row>, b: seq<Row>)
    ensures Entries(a + b) == Entries(a) + Entries(b)
    ensures EventsOf(a + b) == EventsOf(a) + EventsOf(b)
  {
  }

  /** `created` comes only from the row at index 0 and only when it was null; `modified` only from the last index. */
  lemma {:induction false} ReplayTimestamps(s: AggState, rows: seq<Row>, k: nat)
    requires k <= |rows|
    ensures var r := ReplayPrefix(s, rows, k);
            && r.uuid == s.uuid
            && r.created == (if s.created.None? && 0 < k && rows[0].uuid == s.uuid then Some(rows[0].created) else s.created)
            && r.modified == (if k == |rows| && 0 < k && rows[k - 1].uuid == s.uuid then Some(rows[k - 1].created) else s.modified)
    decreases k
  {
    if k > 0 {
      ReplayTimestamps(s, rows, k - 1);
    }
  }

  /** `loadFromHistory`: the replay loop, then `applyChanges`. */
  function LoadFromHistorySpec(s: AggState, rows: seq<Row>): (r: AggState)
    ensures r.pendingEvents == []
    ensures r.uuid == s.uuid && r.aggregateClass == s.aggregateClass
    ensures r.snapshotVersion == s.snapshotVersion && r.streamVersion == s.streamVersion
  {
    var replayed := ReplayPrefix(s, rows, |rows|);
    ReplayKeeps(s, rows, |rows|);
    ApplyChangesEffect(replayed);
    ApplyChangesSpec(replayed)
  }

  /**
    Replaying a non-empty list of rows all of this aggregate, with nothing
    pending before: the version is the last row's, which for an ascending list
    is the highest; pending is empty; the history grows by one entry per row,
    in order; the title is the last row's payload title.
  */
  lemma LoadFromHistoryOfMatchingRows(s: AggState, rows: seq<Row>)
    requires rows != [] && s.pendingEvents == []
    requires forall x :: x in rows ==> x.uuid == s.uuid
    ensures var r := LoadFromHistorySpec(s, rows);
            && r.version == rows[|rows| - 1].version
            && r.pendingEvents == []
            && r.history == s.history + Entries(rows)
            && r.title == Title(rows[|rows| - 1].payload)
            && r.modified == Some(rows[|rows| - 1].created)
            && (Ascending(rows) ==> forall x :: x in rows ==> x.version <= r.version)
  {
    ReplayLog(s, rows, |rows|);
    ReplayKeeps(s, rows, |rows|);
    ReplayTimestamps(s, rows, |rows|);
    assert rows[..|rows|] == rows;
    assert forall i :: 0 <= i < |rows| ==> rows[i].uuid == s.uuid by {
      forall i | 0 <= i < |rows| ensures rows[i].uuid == s.uuid {
        assert rows[i] in rows;
      }
    }
    MatchingAll(rows, s.uuid);
    var replayed := ReplayPrefix(s, rows, |rows|);
    ApplyChangesEffect(replayed);
    if Ascending(rows) {
      forall x | x in rows
        ensures x.version <= rows[|rows| - 1].version
      {
        var i :| 0 <= i < |rows| && rows[i] == x;
      }
    }
  }

  // ---------------------------------------------------------------------------
  // loadFromSnapshot

  /** The public properties of the aggregate's class: `title` exists on Page only. */
  predicate HasTitle(c: ClassName)
  {
    c == Page
  }

  /**
    `loadFromSnapshot`: the public properties present on both the aggregate and
    the snapshot's aggregate are copied over, then version, snapshot version,
    timestamps, uuid and history are taken from the snapshot.
  */
  function LoadFromSnapshotSpec(s: AggState, snap: SnapshotRow): (r: AggState)
    ensures r.version == snap.version && r.snapshotVersion == Some(snap.version)
    ensures r.uuid == snap.uuid && r.history == snap.history
    ensures r.created == Some(snap.aggregateCreated) && r.modified == Some(snap.aggregateModified)
    ensures r.title == if HasTitle(s.aggregateClass) && HasTitle(snap.aggregateData.aggregateClass) then snap.aggregateData.title else s.title
    ensures r.aggregateClass == s.aggregateClass && r.pendingEvents == s.pendingEvents && r.streamVersion == s.streamVersion
  {
    var d := snap.aggregateData;
    var overlaid := s.(uuid := d.uuid, created := d.created, modified := d.modified,
                       title := if HasTitle(s.aggregateClass) && HasTitle(d.aggregateClass) then d.title else s.title);
    overlaid.(version := snap.version, snapshotVersion := Some(snap.version),
              created := Some(snap.aggregateCreated), modified := Some(snap.aggregateModified),
              uuid := snap.uuid, history := snap.history)
  }

  // ---------------------------------------------------------------------------
  // build

  /** The three tables the factory reads. */
  datatype Stores = Stores(stream: seq<Row>, queue: seq<Row>, snapshots: seq<SnapshotRow>)

  /** What `build` returns, with the messages it logs. */
  datatype Built = Built(state: AggState, messages: seq<Message>)

  /** The message `build` logs for a class that is not an aggregate. */
  function NotAnAggregate(cls: ClassName, uuid: string, now: Time): Message
  {
    Message(Name(cls) + " must implement " + AGGREGATE_INTERFACE, Codes.Code.Error.Value(), None, Some(uuid), now,
            Some(AggregateException))
  }

  /** The lower version bound of the stream query: one above the snapshot, or none. */
  function MinAbove(snap: Option<SnapshotRow>): Option<int>
  {
    if snap.Some? then Some(snap.value.version + 1) else None
  }

  /** The aggregate after the snapshot overlay and the canonical replay, before `streamVersion` is set. */
  function CanonicalState(st: Stores, uuid: string, cls: ClassName, maxVersion: Option<int>): (c: AggState)
    ensures c.uuid == uuid && c.aggregateClass == cls && c.pendingEvents == []
  {
    var snap := Latest(st.snapshots, uuid, maxVersion);
    var s0 := NewState(cls, uuid);
    var s1 := if snap.Some? then LoadFromSnapshotSpec(s0, snap.value) else s0;
    var rows := FindEventObjects(st.stream, uuid, maxVersion, MinAbove(snap), None);
    if rows != [] then LoadFromHistorySpec(s1, rows) else s1
  }

  /** The queued rows `build` replays for `user`: those above the canonical version. */
  function QueuedRows(st: Stores, uuid: string, maxVersion: Option<int>, user: int, canonicalVersion: int): seq<Row>
  {
    FindEventObjects(st.queue, uuid, maxVersion, Some(canonicalVersion + 1), Some(user))
  }

  /**
    `build`: for an aggregate class, the canonical state with `streamVersion`
    recording its version, then one user's queued rows replayed on top when a
    user is given. For any other class, a generic aggregate and one error
    message correlated to the aggregate; never null.
  */
  function BuildSpec(st: Stores, uuid: string, cls: ClassName, maxVersion: Option<int>, user: Option<int>, now: Time): (b: Built)
    ensures b.state.pendingEvents == [] && b.state.uuid == uuid
    ensures !ImplementsAggregate(cls) ==> b.state == NewState(BaseAggregate, uuid) && b.messages == [NotAnAggregate(cls, uuid, now)]
    ensures ImplementsAggregate(cls) ==> b.messages == [] && b.state.aggregateClass == cls
  {
    if !ImplementsAggregate(cls) then Built(NewState(BaseAggregate, uuid), [NotAnAggregate(cls, uuid, now)])
    else
      var c := CanonicalState(st, uuid, cls, maxVersion);
      var s3 := c.(streamVersion := Some(c.version));
      if user.None? then Built(s3, [])
      else
        var queued := QueuedRows(st, uuid, maxVersion, user.value, s3.version);
        Built(if queued != [] then LoadFromHistorySpec(s3, queued) else s3, [])
  }

  // ---------------------------------------------------------------------------
  // loadFromSnapshot and build, as written

  /** The snapshot getters `loadFromSnapshot` calls, in order, as written: the first one is not defined. */
  const LOAD_SNAPSHOT_CALLS: seq<string> := ["getAggregate", "getVersion", "getVersion", "getAggregateCreated",
                                             "getAggregateModified", "getUuid", "getHistory"]

  /** The same calls with the aggregate read through the getter the record does define. */
  const INTENDED_LOAD_SNAPSHOT_CALLS: seq<string> := ["getAggregateData"] + LOAD_SNAPSHOT_CALLS[1..]

  /**
    `loadFromSnapshot` run with the given getter calls: calling a getter the
    record does not define raises a PHP `Error`; otherwise the overlay goes ahead.
  */
  function LoadFromSnapshotWithCalls(calls: seq<string>, s: AggState, snap: SnapshotRow): (r: Result<AggState, string>)
    ensures r.Err? <==> exists i :: 0 <= i < |calls| && calls[i] !in SNAPSHOT_METHODS
    ensures r.Err? ==> r.error in calls && r.error !in SNAPSHOT_METHODS
    ensures r.Ok? ==> r.value == LoadFromSnapshotSpec(s, snap)
  {
    var u := FirstUndefined(calls, SNAPSHOT_METHODS);
    if u.Some? then Err(calls[u.value]) else Ok(LoadFromSnapshotSpec(s, snap))
  }

  /**
    `build` with the given getter calls in `loadFromSnapshot`: the `Error` is
    not an `AggregateException`, so `build`'s catch lets it through to the
    caller whenever a snapshot is found; otherwise the intended build.
  */
  function BuildWithCalls(calls: seq<string>, st: Stores, uuid: string, cls: ClassName, maxVersion: Option<int>,
                          user: Option<int>, now: Time): (r: Result<Built, string>)
    ensures r.Err? <==> ImplementsAggregate(cls) && Latest(st.snapshots, uuid, maxVersion).Some?
                        && exists i :: 0 <= i < |calls| && calls[i] !in SNAPSHOT_METHODS
    ensures r.Ok? ==> r.value == BuildSpec(st, uuid, cls, maxVersion, user, now)
  {
    var snap := Latest(st.snapshots, uuid, maxVersion);
    if ImplementsAggregate(cls) && snap.Some? && LoadFromSnapshotWithCalls(calls, NewState(cls, uuid), snap.value).Err? then
      Err(LoadFromSnapshotWithCalls(calls, NewState(cls, uuid), snap.value).error)
    else Ok(BuildSpec(st, uuid, cls, maxVersion, user, now))
  }

  /** As written, `loadFromSnapshot` always ends in an `Error` on `getAggregate`, before any field is overlaid. */
  lemma LoadFromSnapshotAsWrittenRaises(s: AggState, snap: SnapshotRow)
    ensures LoadFromSnapshotWithCalls(LOAD_SNAPSHOT_CALLS, s, snap) == Err("getAggregate")
  {
    assert LOAD_SNAPSHOT_CALLS[0] !in SNAPSHOT_METHODS;
  }

  /**
    As written, building an aggregate fails whenever a snapshot at or below the
    ceiling exists, although the intended build then starts from that snapshot.
  */
  lemma BuildAsWrittenRaisesOnSnapshot(st: Stores, uuid: string, cls: ClassName, maxVersion: Option<int>,
                                       user: Option<int>, now: Time)
    requires ImplementsAggregate(cls) && Latest(st.snapshots, uuid, maxVersion).Some?
    ensures BuildWithCalls(LOAD_SNAPSHOT_CALLS, st, uuid, cls, maxVersion, user, now) == Err("getAggregate")
    ensures CanonicalState(st, uuid, cls, maxVersion).snapshotVersion == Some(Latest(st.snapshots, uuid, maxVersion).value.version)
  {
    LoadFromSnapshotAsWrittenRaises(NewState(cls, uuid), Latest(st.snapshots, uuid, maxVersion).value);
    CanonicalVersion(st, uuid, cls, maxVersion);
  }

  /** With the defined getter, `build` always returns the intended aggregate. */
  lemma IntendedBuildRuns(st: Stores, uuid: string, cls: ClassName, maxVersion: Option<int>, user: Option<int>, now: Time)
    ensures BuildWithCalls(INTENDED_LOAD_SNAPSHOT_CALLS, st, uuid, cls, maxVersion, user, now)
         == Ok(BuildSpec(st, uuid, cls, maxVersion, user, now))
  {
    assert forall i :: 0 <= i < |INTENDED_LOAD_SNAPSHOT_CALLS| ==> INTENDED_LOAD_SNAPSHOT_CALLS[i] in SNAPSHOT_METHODS;
  }

  /** Every row the canonical query returns belongs to the aggregate and lies above the snapshot. */
  lemma CanonicalRowsMatch(st: Stores, uuid: string, maxVersion: Option<int>)
    ensures var snap := Latest(st.snapshots, uuid, maxVersion);
            forall x :: x in FindEventObjects(st.stream, uuid, maxVersion, MinAbove(snap), None) ==>
              x.uuid == uuid && (snap.Some? ==> x.version > snap.value.version)
  {
  }

  /**
    The canonical version: that of the last canonical row when there is one,
    else the snapshot's version, else 0. It is at least the snapshot's version,
    and the snapshot's version is recorded as `snapshotVersion`.
  */
  lemma {:induction false} CanonicalVersion(st: Stores, uuid: string, cls: ClassName, maxVersion: Option<int>)
    ensures var snap := Latest(st.snapshots, uuid, maxVersion);
            var rows := FindEventObjects(st.stream, uuid, maxVersion, MinAbove(snap), None);
            var c := CanonicalState(st, uuid, cls, maxVersion);
            && c.version == (if rows != [] then rows[|rows| - 1].version else if snap.Some? then snap.value.version else 0)
            && c.snapshotVersion == (if snap.Some? then Some(snap.value.version) else None)
            && (snap.Some? ==> c.version >= snap.value.version)
            && (forall x :: x in rows ==> x.version <= c.version)
  {
    var snap := Latest(st.snapshots, uuid, maxVersion);
    var s0 := NewState(cls, uuid);
    var s1 := if snap.Some? then LoadFromSnapshotSpec(s0, snap.value) else s0;
    var rows := FindEventObjects(st.stream, uuid, maxVersion, MinAbove(snap), None);
    var c := CanonicalState(st, uuid, cls, maxVersion);
    assert s1.uuid == uuid && s1.pendingEvents == [];
    assert s1.version == if snap.Some? then snap.value.version else 0;
    assert s1.snapshotVersion == if snap.Some? then Some(snap.value.version) else None;
    if rows == [] {
      assert c == s1;
    } else {
      assert c == LoadFromHistorySpec(s1, rows);
      CanonicalRowsMatch(st, uuid, maxVersion);
      CanonicalReplay(s1, rows);
      assert rows[|rows| - 1] in rows;
    }
  }

  /** Replaying ascending rows of this aggregate: the version is the last row's and bounds every row's. */
  lemma CanonicalReplay(s1: AggState, rows: seq<Row>)
    requires rows != [] && s1.pendingEvents == [] && Ascending(rows)
    requires forall x :: x in rows ==> x.uuid == s1.uuid
    ensures var r := LoadFromHistorySpec(s1, rows);
            && r.version == rows[|rows| - 1].version
            && r.snapshotVersion == s1.snapshotVersion
            && forall x :: x in rows ==> x.version <= r.version
  {
    LoadFromHistoryOfMatchingRows(s1, rows);
  }

  /**
    The watermark: `streamVersion` is the version reached before any queued
    row is replayed. Without a user the version stays there; with a user it
    rises above it exactly when queued rows above it exist, and then is the
    last queued row's version.
  */
  lemma {:induction false} BuildWatermark(st: Stores, uuid: string, cls: ClassName, maxVersion: Option<int>,
                                          user: Option<int>, now: Time)
    requires ImplementsAggregate(cls)
    ensures var b := BuildSpec(st, uuid, cls, maxVersion, user, now).state;
            var c := CanonicalState(st, uuid, cls, maxVersion);
            && b.streamVersion == Some(c.version)
            && (user.None? ==> b.version == c.version)
            && (user.Some? ==>
                  var q := QueuedRows(st, uuid, maxVersion, user.value, c.version);
                  && (q == [] ==> b.version == c.version)
                  && (q != [] ==> b.version == q[|q| - 1].version && b.version > c.version))
  {
    var b := BuildSpec(st, uuid, cls, maxVersion, user, now).state;
    var c := CanonicalState(st, uuid, cls, maxVersion);
    var s3 := c.(streamVersion := Some(c.version));
    if user.None? {
      assert b == s3;
    } else {
      var q := QueuedRows(st, uuid, maxVersion, user.value, c.version);
      if q == [] {
        assert b == s3;
      } else {
        QueuedReplay(st, uuid, maxVersion, user.value, s3);
      }
    }
  }

  /** Replaying a user's queued rows above the watermark raises the version to the last of them. */
  lemma QueuedReplay(st: Stores, uuid: string, maxVersion: Option<int>, user: int, s3: AggState)
    requires s3.uuid == uuid && s3.pendingEvents == []
    requires QueuedRows(st, uuid, maxVersion, user, s3.version) != []
    ensures var q := QueuedRows(st, uuid, maxVersion, user, s3.version);
            var r := LoadFromHistorySpec(s3, q);
            && r.streamVersion == s3.streamVersion
            && r.version == q[|q| - 1].version && r.version > s3.version
  {
    var q := QueuedRows(st, uuid, maxVersion, user, s3.version);
    assert forall x :: x in q ==> x.uuid == s3.uuid;
    LoadFromHistoryOfMatchingRows(s3, q);
    assert q[|q| - 1] in q;
  }

  // ---------------------------------------------------------------------------
  // The factory

  class AggregateFactory {
    const messageBus: MessageBus
    const eventStore: EventStore
    const snapshotStore: SnapshotStore

    constructor (bus: MessageBus, events: EventStore, snapshots: SnapshotStore)
      ensures messageBus == bus && eventStore == events && snapshotStore == snapshots
    {
      messageBus, eventStore, snapshotStore := bus, events, snapshots;
    }

    /** The tables as the factory reads them. */
    function StoresOf(): Stores
      reads this, eventStore, snapshotStore
    {
      Stores(eventStore.stream, eventStore.queue, snapshotStore.snapshots)
    }

    /** `apply`: changes the aggregate in place and returns it. */
    method Apply(a: Aggregate, e: Event) returns (r: Aggregate)
      modifies a
      ensures r == a && a.State() == ApplySpec(old(a.State()), e)
    {
      a.SetVersion(e.version);
      a.AddPendingEvent(e);
      r := a;
    }

    /** `applyChanges`: each pending event's handler executes on the aggregate, in order; then pending is emptied. */
    method ApplyChanges(a: Aggregate) returns (r: Aggregate)
      modifies a
      ensures r == a && a.State() == ApplyChangesSpec(old(a.State()))
    {
      var pending := a.pendingEvents;
      var i := 0;
      while i < |pending|
        invariant 0 <= i <= |pending|
        invariant a.State() == ExecuteAll(old(a.State()), pending[..i])
      {
        var e := pending[i];
        var _ := ExecuteOn(HandlerOf(e.eventClass), e, a);
        assert pending[..i + 1][..i] == pending[..i];
        i := i + 1;
      }
      assert pending[..i] == pending;
      a.SetPendingEvents([]);
      r := a;
    }

    /** `loadFromHistory`: the replay loop over the rows, then `applyChanges`. */
    method LoadFromHistory(a: Aggregate, rows: seq<Row>) returns (r: Aggregate)
      modifies a
      ensures r == a && a.State() == LoadFromHistorySpec(old(a.State()), rows)
    {
      var count := |rows| - 1;
      var key := 0;
      while key < |rows|
        invariant 0 <= key <= |rows|
        invariant a.State() == ReplayPrefix(old(a.State()), rows, key)
      {
        var row := rows[key];
        if row.uuid == a.uuid {
          if key == 0 && a.created.None? {
            a.SetCreated(row.created);
          }
          if key == count {
            a.SetModified(row.created);
          }
          var _ := Apply(a, BuildEvent(row));
          a.AddToHistory(EntryOf(row));
        }
        key := key + 1;
      }
      r := ApplyChanges(a);
    }

    /** `loadFromSnapshot`, corrected (the aggregate read through `getAggregateData`): overlays the snapshot in place. */
    method LoadFromSnapshot(a: Aggregate, snap: SnapshotRow) returns (r: Aggregate)
      modifies a
      ensures r == a && a.State() == LoadFromSnapshotSpec(old(a.State()), snap)
    {
      var d := snap.aggregateData;
      a.SetUuid(d.uuid);
      a.created := d.created;
      a.modified := d.modified;
      if HasTitle(a.aggregateClass) && HasTitle(d.aggregateClass) {
        a.SetTitle(d.title);
      }
      a.SetVersion(snap.version);
      a.SetSnapshotVersion(Some(snap.version));
      a.SetCreated(snap.aggregateCreated);
      a.SetModified(snap.aggregateModified);
      a.SetUuid(snap.uuid);
      a.SetHistory(snap.history);
      r := a;
    }

    /** The first half of `build` for an aggregate class: snapshot overlay, then the canonical replay. */
    method LoadCanonical(uuid: string, cls: ClassName, maxVersion: Option<int>) returns (a: Aggregate)
      ensures fresh(a)
      ensures a.State() == CanonicalState(StoresOf(), uuid, cls, maxVersion)
    {
      a := new Aggregate(cls, uuid);
      var snap := snapshotStore.Find(uuid, maxVersion);
      if snap.Some? {
        a := LoadFromSnapshot(a, snap.value);
      }
      ghost var s1 := a.State();
      assert s1 == if snap.Some? then LoadFromSnapshotSpec(NewState(cls, uuid), snap.value) else NewState(cls, uuid);
      var rows := eventStore.Find(uuid, maxVersion, MinAbove(snap));
      if rows != [] {
        a := LoadFromHistory(a, rows);
      }
    }

    /** The second half of `build` for a user: the user's queued rows above the current version, replayed. */
    method LoadQueued(a: Aggregate, uuid: string, user: int, maxVersion: Option<int>) returns (r: Aggregate)
      modifies a
      ensures r == a
      ensures var q := QueuedRows(StoresOf(), uuid, maxVersion, user, old(a.version));
              a.State() == if q != [] then LoadFromHistorySpec(old(a.State()), q) else old(a.State())
    {
      var queued := eventStore.FindQueued(uuid, user, maxVersion, Some(a.version + 1));
      r := a;
      if queued != [] {
        r := LoadFromHistory(a, queued);
      }
    }

    /** `build`: a new aggregate object in the state `BuildSpec` gives; only the log may change. */
    method Build(uuid: string, cls: ClassName, maxVersion: Option<int>, user: Option<int>, now: Time) returns (a: Aggregate)
      modifies messageBus
      ensures fresh(a)
      ensures a.State() == BuildSpec(StoresOf(), uuid, cls, maxVersion, user, now).state
      ensures messageBus.messages == old(messageBus.messages) + BuildSpec(StoresOf(), uuid, cls, maxVersion, user, now).messages
    {
      if ImplementsAggregate(cls) {
        a := LoadCanonical(uuid, cls, maxVersion);
        a.SetStreamVersion(Some(a.version));
        if user.Some? {
          a := LoadQueued(a, uuid, user.value, maxVersion);
        }
      } else {
        a := new Aggregate(BaseAggregate, uuid);
        messageBus.Dispatch(NotAnAggregate(cls, uuid, now));
      }
    }

    /** One step of `findAggregates`' loop: build the aggregate of row `i` and append it to `r`. */
    method BuildRow(ghost st: Stores, rows: seq<Row>, i: nat, now: Time, ghost start: seq<Message>, r: seq<Aggregate>)
      returns (r': seq<Aggregate>)
      requires i < |rows| && |r| == i && StoresOf() == st
      requires StatesOf(r) == BuildEach(st, rows[..i], now).states
      requires messageBus.messages == start + BuildEach(st, rows[..i], now).messages
      modifies messageBus
      ensures |r'| == i + 1 && StoresOf() == st
      ensures r' == r + [r'[i]] && fresh(r'[i])
      ensures StatesOf(r') == BuildEach(st, rows[..i + 1], now).states
      ensures messageBus.messages == start + BuildEach(st, rows[..i + 1], now).messages
    {
      ghost var states := StatesOf(r);
      ghost var logged := messageBus.messages;
      var a := Build(rows[i].uuid, rows[i].aggregateClass, None, None, now);
      assert StatesOf(r) == states;
      BuildEachStep(st, rows, i, now, start, logged, states, a.State(), messageBus.messages);
      r' := r + [a];
    }

    /** `findAggregates`' loop over the rows already found. */
    method BuildRows(ghost st: Stores, rows: seq<Row>, now: Time) returns (r: seq<Aggregate>)
      requires StoresOf() == st
      modifies messageBus
      ensures forall a :: a in r ==> fresh(a)
      ensures StoresOf() == st
      ensures StatesOf(r) == BuildEach(st, rows, now).states
      ensures messageBus.messages == old(messageBus.messages) + BuildEach(st, rows, now).messages
    {
      ghost var start := messageBus.messages;
      r := [];
      var i := 0;
      while i < |rows|
        invariant 0 <= i <= |rows| && |r| == i
        invariant StoresOf() == st
        invariant forall a :: a in r ==> fresh(a)
        invariant StatesOf(r) == BuildEach(st, rows[..i], now).states
        invariant messageBus.messages == start + BuildEach(st, rows[..i], now).messages
      {
        r := BuildRow(st, rows, i, now, start, r);
        i := i + 1;
      }
      assert rows[..i] == rows;
    }

    /** `findAggregates`: one aggregate per first row in the stream (of one class when given), built in table order. */
    method FindAggregates(cls: Option<ClassName>, now: Time) returns (r: seq<Aggregate>)
      modifies messageBus
      ensures forall a :: a in r ==> fresh(a)
      ensures StatesOf(r) == BuildEach(StoresOf(), FindAggregateRows(eventStore.stream, cls), now).states
      ensures messageBus.messages == old(messageBus.messages) + BuildEach(StoresOf(), FindAggregateRows(eventStore.stream, cls), now).messages
    {
      var rows := eventStore.FindAggregates(cls);
      r := BuildRows(StoresOf(), rows, now);
    }
  }

  /** One more row built: its state and its messages are appended. */
  lemma BuildEachStep(st: Stores, rows: seq<Row>, i: nat, now: Time, start: seq<Message>,
                      logged: seq<Message>, states: seq<AggState>, built: AggState, after: seq<Message>)
    requires i < |rows|
    requires states == BuildEach(st, rows[..i], now).states
    requires logged == start + BuildEach(st, rows[..i], now).messages
    requires built == BuildSpec(st, rows[i].uuid, rows[i].aggregateClass, None, None, now).state
    requires after == logged + BuildSpec(st, rows[i].uuid, rows[i].aggregateClass, None, None, now).messages
    ensures states + [built] == BuildEach(st, rows[..i + 1], now).states
    ensures after == start + BuildEach(st, rows[..i + 1], now).messages
  {
    assert rows[..i + 1][..i] == rows[..i];
  }

  /** The values of a list of aggregate objects. */
  function StatesOf(r: seq<Aggregate>): (s: seq<AggState>)
    reads set a | a in r
    ensures |s| == |r|
    decreases |r|
  {
    if r == [] then [] else StatesOf(r[..|r| - 1]) + [r[|r| - 1].State()]
  }

  /** What building one aggregate per row gives: the states and the messages logged, in row order. */
  datatype BuiltAll = BuiltAll(states: seq<AggState>, messages: seq<Message>)

  function BuildEach(st: Stores, rows: seq<Row>, now: Time): (b: BuiltAll)
    ensures |b.states| == |rows|
    decreases |rows|
  {
    if rows == [] then BuiltAll([], [])
    else
      var n := |rows| - 1;
      var front := BuildEach(st, rows[..n], now);
      var one := BuildSpec(st, rows[n].uuid, rows[n].aggregateClass, None, None, now);
      BuiltAll(front.states + [one.state], front.messages + one.messages)
  }

  /** Each aggregate `findAggregates` returns is the one `build` gives for its first row. */
  lemma {:induction false} BuildEachFacts(st: Stores, rows: seq<Row>, now: Time, i: nat)
    requires i < |rows|
    ensures BuildEach(st, rows, now).states[i] == BuildSpec(st, rows[i].uuid, rows[i].aggregateClass, None, None, now).state
    ensures BuildEach(st, rows, now).states[i].pendingEvents == []
    decreases |rows|
  {
    if i < |rows| - 1 {
      BuildEachFacts(st, rows[..|rows| - 1], now, i);
    }
  }
}
