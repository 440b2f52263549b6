/**
  The event bus: writes published events to the stream (or the queue), logs
  one message per event, then hands the events to the application's event
  dispatcher, and after persisting sends one "aggregate updated"
  notification per aggregate carrying that aggregate's last event.

  The dispatcher and the listeners behind it are outside the model: each
  dispatch is recorded in `notifications`, and `dispatchFault` says which
  dispatches end in an exception.
*/
module EventBusService {
  import opened Wrappers
  import opened Values
  import opened Events
  import Codes
  import opened Messages
  import opened MessageBusService
  import opened StreamObjects
  import opened QueueObjects
  import opened EventStoreService

  /** What is handed to the dispatcher: an event itself, or an `AggregateUpdatedEvent` wrapping one. */
  datatype Dispatched = EventDispatched(event: Event) | AggregateUpdated(event: Event)

  // ---------------------------------------------------------------------------
  // Rows and messages for published events

  /** The stream row `publish` fills in from an event through the setters. */
  function StreamRowOf(e: Event, now: Time): (r: Row)
    ensures BuildEvent(r) == e
    ensures r.created == now && r.aggregateClass == AggregateClassOf(e.eventClass) && r.message == MessageOf(e.eventClass)
  {
    Row(e.aggregateUuid, e.commandUuid, e.version, now, e.eventClass, AggregateClassOf(e.eventClass), e.user, e.payload, MessageOf(e.eventClass))
  }

  /** The rows of a list of events, in order. */
  function StreamRowsOf(events: seq<Event>, now: Time): (rs: seq<Row>)
    ensures |rs| == |events| && forall i :: 0 <= i < |events| ==> rs[i] == StreamRowOf(events[i], now)
  {
    seq(|events|, i requires 0 <= i < |events| => StreamRowOf(events[i], now))
  }

  /** The change `publish` stages for one event: a queue row or a stream row. */
  function StagedChange(e: Event, queueEvents: bool, now: Time): Change
  {
    if queueEvents then Enqueue(StreamRowOf(e, now)) else Persist(StreamRowOf(e, now))
  }

  function StagedChanges(events: seq<Event>, queueEvents: bool, now: Time): (cs: seq<Change>)
    ensures |cs| == |events| && forall i :: 0 <= i < |events| ==> cs[i] == StagedChange(events[i], queueEvents, now)
  {
    seq(|events|, i requires 0 <= i < |events| => StagedChange(events[i], queueEvents, now))
  }

  /** The changes that write rows to the stream. */
  function Persists(rs: seq<Row>): (cs: seq<Change>)
    ensures |cs| == |rs| && forall i :: 0 <= i < |rs| ==> cs[i] == Persist(rs[i])
  {
    seq(|rs|, i requires 0 <= i < |rs| => Persist(rs[i]))
  }

  /** The OK message `publish` logs for one event. */
  function PublishMessage(e: Event, queueEvents: bool, now: Time): (m: Message)
    ensures m.code == Codes.Code.Ok.Value() && m.exception.None?
    ensures m.commandUuid == Some(e.commandUuid) && m.aggregateUuid == Some(e.aggregateUuid)
    ensures m.text == (if queueEvents then "Queued event: " else "Persisted event: ") + MessageOf(e.eventClass)
  {
    Message((if queueEvents then "Queued event: " else "Persisted event: ") + MessageOf(e.eventClass),
            Codes.Code.Ok.Value(), Some(e.commandUuid), Some(e.aggregateUuid), now, None)
  }

  function PublishMessages(events: seq<Event>, queueEvents: bool, now: Time): (ms: seq<Message>)
    ensures |ms| == |events| && forall i :: 0 <= i < |events| ==> ms[i] == PublishMessage(events[i], queueEvents, now)
  {
    seq(|events|, i requires 0 <= i < |events| => PublishMessage(events[i], queueEvents, now))
  }

  /** The message a caught exception becomes, if there was one. */
  function Reported(f: Option<Fault>, kind: ExceptionKind, now: Time): (ms: seq<Message>)
    ensures f.None? ==> ms == []
    ensures f.Some? ==> ms == [FaultMessage(f.value, kind, now)]
  {
    if f.Some? then [FaultMessage(f.value, kind, now)] else []
  }

  /** The fault `save` reports when the flush fails. */
  function FlushFault(ok: bool, f: Fault): Option<Fault>
  {
    if ok then None else Some(f)
  }

  // ---------------------------------------------------------------------------
  // Dispatching

  /**
    Dispatching `ds` in order. A dispatch whose listeners throw ends the
    sequence: it is the last one made, and its exception is returned.
  */
  function Deliver(ds: seq<Dispatched>, fault: Dispatched -> Option<Fault>): (seq<Dispatched>, Option<Fault>)
    decreases |ds|
  {
    if ds == [] then ([], None)
    else
      var prev := Deliver(ds[..|ds| - 1], fault);
      if prev.1.Some? then prev
      else (prev.0 + [ds[|ds| - 1]], fault(ds[|ds| - 1]))
  }

  /**
    The dispatches made are a prefix of `ds`, none but the last of them
    throwing; an exception is returned exactly when the last one made threw,
    and otherwise every dispatch was made.
  */
  lemma {:induction false} DeliverFacts(ds: seq<Dispatched>, fault: Dispatched -> Option<Fault>)
    ensures var r := Deliver(ds, fault);
            && |r.0| <= |ds| && r.0 == ds[..|r.0|]
            && (forall i :: 0 <= i < |r.0| - 1 ==> fault(ds[i]).None?)
            && (r.1.None? ==> r.0 == ds && forall i :: 0 <= i < |ds| ==> fault(ds[i]).None?)
            && (r.1.Some? ==> r.0 != [] && r.1 == fault(r.0[|r.0| - 1]))
    decreases |ds|
  {
    if ds != [] {
      var n := |ds| - 1;
      DeliverFacts(ds[..n], fault);
      var prev := Deliver(ds[..n], fault);
      assert ds[..n][..|prev.0|] == ds[..|prev.0|];
      if prev.1.None? {
        assert prev.0 + [ds[n]] == ds;
      }
    }
  }

  /** Once a dispatch has thrown, later dispatches change nothing: the list stops there. */
  lemma {:induction false} DeliverStops(ds: seq<Dispatched>, i: nat, fault: Dispatched -> Option<Fault>)
    requires i <= |ds| && Deliver(ds[..i], fault).1.Some?
    ensures Deliver(ds, fault) == Deliver(ds[..i], fault)
    decreases |ds| - i
  {
    if i < |ds| {
      assert ds[..i + 1][..i] == ds[..i];
      DeliverStops(ds, i + 1, fault);
    } else {
      assert ds[..i] == ds;
    }
  }

  /** One more dispatch, made while nothing has thrown. */
  lemma DeliverSnoc(ds: seq<Dispatched>, i: nat, fault: Dispatched -> Option<Fault>)
    requires i < |ds| && Deliver(ds[..i], fault).1.None?
    ensures Deliver(ds[..i + 1], fault) == (Deliver(ds[..i], fault).0 + [ds[i]], fault(ds[i]))
  {
    assert ds[..i + 1][..i] == ds[..i];
  }

  /** What `invokeListeners` dispatches: every event, in order. */
  function Listened(events: seq<Event>): (ds: seq<Dispatched>)
    ensures |ds| == |events| && forall i :: 0 <= i < |events| ==> ds[i] == EventDispatched(events[i])
  {
    seq(|events|, i requires 0 <= i < |events| => EventDispatched(events[i]))
  }

  /** What `sendAggregateUpdates` dispatches for the rows it kept: the event rebuilt from each. */
  function Updates(rows: seq<Row>): (ds: seq<Dispatched>)
    ensures |ds| == |rows| && forall i :: 0 <= i < |rows| ==> ds[i] == AggregateUpdated(BuildEvent(rows[i]))
  {
    seq(|rows|, i requires 0 <= i < |rows| => AggregateUpdated(BuildEvent(rows[i])))
  }

  // ---------------------------------------------------------------------------
  // The last row of each aggregate

  /** The position of the entry keyed `u` in an array keyed by uuid, or -1. */
  function KeyIndex(acc: seq<Row>, u: string): (k: int)
    ensures -1 <= k < |acc|
    ensures k >= 0 ==> acc[k].uuid == u
    ensures k == -1 <==> forall x :: x in acc ==> x.uuid != u
  {
    if acc == [] then -1
    else if acc[0].uuid == u then 0
    else
      var k := KeyIndex(acc[1..], u);
      assert forall x :: x in acc ==> x == acc[0] || x in acc[1..];
      if k == -1 then -1 else k + 1
  }

  /** `$aggregates[$row->getUuid()] = $row`: an existing key keeps its place and takes the new row; a new key goes last. */
  function Assign(acc: seq<Row>, r: Row): seq<Row>
  {
    var k := KeyIndex(acc, r.uuid);
    if k == -1 then acc + [r] else acc[k := r]
  }

  /** The array `sendAggregateUpdates` builds from the rows, in insertion order. */
  function LastRows(rows: seq<Row>): seq<Row>
    decreases |rows|
  {
    if rows == [] then [] else Assign(LastRows(rows[..|rows| - 1]), rows[|rows| - 1])
  }

  /** No row with the same uuid comes after position `k`. */
  predicate LastAt(rows: seq<Row>, k: int)
    requires 0 <= k < |rows|
  {
    forall m :: k < m < |rows| ==> rows[m].uuid != rows[k].uuid
  }

  /** `y` is the last of the rows with its uuid. */
  predicate IsLastOf(rows: seq<Row>, y: Row)
  {
    exists k :: 0 <= k < |rows| && rows[k] == y && LastAt(rows, k)
  }

  /** No two entries share a key. */
  predicate DistinctKeys(l: seq<Row>)
  {
    forall i, j :: 0 <= i < j < |l| ==> l[i].uuid != l[j].uuid
  }

  /** Every row's key has an entry in `l`. */
  predicate Covers(l: seq<Row>, rows: seq<Row>)
  {
    forall x :: x in rows ==> exists y :: y in l && y.uuid == x.uuid
  }

  /** Assigning keeps keys distinct; every entry is the new row or an old entry of another key. */
  lemma AssignEntries(l: seq<Row>, r: Row)
    requires DistinctKeys(l)
    ensures DistinctKeys(Assign(l, r)) && r in Assign(l, r)
    ensures forall y :: y in Assign(l, r) ==> y == r || (y in l && y.uuid != r.uuid)
  {
    var k := KeyIndex(l, r.uuid);
    var a := Assign(l, r);
    if k != -1 {
      assert a[k] == r;
      forall y | y in a
        ensures y == r || (y in l && y.uuid != r.uuid)
      {
        var j :| 0 <= j < |a| && a[j] == y;
        if j != k {
          assert l[j] == y && l[k].uuid == r.uuid;
        }
      }
    }
  }

  /** Assigning keeps every old key present. */
  lemma AssignCovers(l: seq<Row>, rows: seq<Row>, r: Row)
    requires Covers(l, rows)
    ensures Covers(Assign(l, r), rows + [r])
  {
    var k := KeyIndex(l, r.uuid);
    var a := Assign(l, r);
    assert r in a by {
      if k != -1 {
        assert a[k] == r;
      }
    }
    forall x | x in rows + [r]
      ensures exists y :: y in a && y.uuid == x.uuid
    {
      if x != r {
        assert x in rows;
        var y0 :| y0 in l && y0.uuid == x.uuid;
        var j :| 0 <= j < |l| && l[j] == y0;
        assert a[j] in a && a[j].uuid == x.uuid;
      }
    }
  }

  /** A last row stays last when a row of another aggregate is appended. */
  lemma LastOfAppend(rows: seq<Row>, r: Row, y: Row)
    requires IsLastOf(rows, y) && y.uuid != r.uuid
    ensures IsLastOf(rows + [r], y)
  {
    var k :| 0 <= k < |rows| && rows[k] == y && LastAt(rows, k);
    assert (rows + [r])[k] == y && LastAt(rows + [r], k);
  }

  /**
    What `sendAggregateUpdates` keeps: one row per aggregate (uuid) among the
    rows, none repeated, and for each aggregate the last of its rows.
  */
  lemma {:induction false} LastRowsFacts(rows: seq<Row>)
    ensures var l := LastRows(rows);
            && DistinctKeys(l)
            && (forall y :: y in l ==> IsLastOf(rows, y))
            && Covers(l, rows)
    decreases |rows|
  {
    if rows != [] {
      var n := |rows| - 1;
      var front := rows[..n];
      var r := rows[n];
      assert rows == front + [r];
      LastRowsFacts(front);
      var l0 := LastRows(front);
      AssignEntries(l0, r);
      AssignCovers(l0, front, r);
      forall y | y in LastRows(rows)
        ensures IsLastOf(rows, y)
      {
        if y == r {
          assert rows[n] == y && LastAt(rows, n);
        } else {
          LastOfAppend(front, r, y);
        }
      }
    }
  }

  // ---------------------------------------------------------------------------
  // What publishing commits

  /** The changes that write rows to the queue. */
  function Enqueues(rs: seq<Row>): (cs: seq<Change>)
    ensures |cs| == |rs| && forall i :: 0 <= i < |rs| ==> cs[i] == Enqueue(rs[i])
  {
    seq(|rs|, i requires 0 <= i < |rs| => Enqueue(rs[i]))
  }

  /** Writing stream rows appends them to the stream, in order; the queue is untouched. */
  lemma {:induction false} CommitPersists(t: Tables, rs: seq<Row>)
    ensures Commit(t, Persists(rs)) == Tables(t.stream + rs, t.queue)
    decreases |rs|
  {
    if rs != [] {
      var n := |rs| - 1;
      assert Persists(rs)[..n] == Persists(rs[..n]);
      CommitPersists(t, rs[..n]);
      assert t.stream + rs == (t.stream + rs[..n]) + [rs[n]];
    } else {
      assert t.stream + rs == t.stream;
    }
  }

  /** Writing queue rows appends them to the queue, in order; the stream is untouched. */
  lemma {:induction false} CommitEnqueues(t: Tables, rs: seq<Row>)
    ensures Commit(t, Enqueues(rs)) == Tables(t.stream, t.queue + rs)
    decreases |rs|
  {
    if rs != [] {
      var n := |rs| - 1;
      assert Enqueues(rs)[..n] == Enqueues(rs[..n]);
      CommitEnqueues(t, rs[..n]);
      assert t.queue + rs == (t.queue + rs[..n]) + [rs[n]];
    } else {
      assert t.queue + rs == t.queue;
    }
  }

  /**
    What `publish` stages, once flushed on its own: the events' rows appended
    to the stream (or, when queueing, to the queue), each row giving back its
    event when rebuilt.
  */
  lemma PublishCommits(t: Tables, events: seq<Event>, queueEvents: bool, now: Time)
    ensures var rs := StreamRowsOf(events, now);
            && Commit(t, StagedChanges(events, queueEvents, now))
               == (if queueEvents then Tables(t.stream, t.queue + rs) else Tables(t.stream + rs, t.queue))
            && forall i :: 0 <= i < |events| ==> BuildEvent(rs[i]) == events[i]
  {
    var rs := StreamRowsOf(events, now);
    if queueEvents {
      assert StagedChanges(events, queueEvents, now) == Enqueues(rs);
      CommitEnqueues(t, rs);
    } else {
      assert StagedChanges(events, queueEvents, now) == Persists(rs);
      CommitPersists(t, rs);
    }
  }

  /** What `publishQueued` does, on values: its result, the dispatches, the tables after, the messages logged. */
  datatype QueuedOutcome = QueuedOutcome(ok: bool, dispatched: seq<Dispatched>, tables: Tables, messages: seq<Message>)

  /**
    `publishQueued` on values: a first flush adding the rows to the stream;
    the aggregate updates; on a listener exception, false and that
    exception's message; otherwise a second flush removing the rows from the
    queue, and true.
  */
  function PublishQueuedSpec(t: Tables, staged: seq<Change>, rows: seq<Row>, fault: Dispatched -> Option<Fault>,
                             flushFault: Fault, now: Time): (o: QueuedOutcome)
    ensures Consistent(t) ==> Consistent(o.tables)
  {
    var f1 := Flush(t, staged + Persists(rows));
    var m1 := Reported(FlushFault(f1.1, flushFault), StoreException, now);
    var u := Deliver(Updates(LastRows(rows)), fault);
    if u.1.Some? then QueuedOutcome(false, u.0, f1.0, m1 + Reported(u.1, ListenerException, now))
    else
      var f2 := Flush(f1.0, Discards(rows));
      QueuedOutcome(true, u.0, f2.0, m1 + Reported(FlushFault(f2.1, flushFault), StoreException, now))
  }

  /**
    `publishQueued` with nothing else staged, when the rows fit in the stream
    and no listener throws: the result is true, the rows are appended to the
    stream and gone from the queue, one update per aggregate is dispatched and
    nothing is logged. The second flush cannot fail, since removing rows
    keeps both tables unique.
  */
  lemma PublishQueuedMoves(t: Tables, rows: seq<Row>, fault: Dispatched -> Option<Fault>, flushFault: Fault, now: Time)
    requires Consistent(Tables(t.stream + rows, t.queue))
    requires forall x :: fault(x).None?
    ensures var o := PublishQueuedSpec(t, [], rows, fault, flushFault, now);
            && o.ok
            && o.tables == Tables(t.stream + rows, Filter(t.queue, NotIn(rows)))
            && o.dispatched == Updates(LastRows(rows))
            && o.messages == []
  {
    assert [] + Persists(rows) == Persists(rows);
    CommitPersists(t, rows);
    var t1 := Tables(t.stream + rows, t.queue);
    CommitDiscards(t1, rows);
    FilterKeepsQueueUnique(t.queue, NotIn(rows));
    DeliverFacts(Updates(LastRows(rows)), fault);
  }

  // ---------------------------------------------------------------------------
  // What publishing dispatches

  /**
    `publish` hands every event to the listeners, in order; then, when the
    events were persisted rather than queued and no listener threw, one
    `AggregateUpdatedEvent` per aggregate with its last event.
  */
  function PublishDispatch(events: seq<Event>, queueEvents: bool, now: Time, fault: Dispatched -> Option<Fault>)
    : (r: (seq<Dispatched>, Option<Fault>))
  {
    var l := Deliver(Listened(events), fault);
    if l.1.Some? || queueEvents then l
    else
      var u := Deliver(Updates(LastRows(StreamRowsOf(events, now))), fault);
      (l.0 + u.0, u.1)
  }

  /**
    When no listener throws, `publish` dispatches exactly the events, then
    (unless queueing) the aggregate updates; a listener exception on one of
    the events leaves the aggregate updates out.
  */
  lemma PublishDispatchFacts(events: seq<Event>, queueEvents: bool, now: Time, fault: Dispatched -> Option<Fault>)
    ensures var d := PublishDispatch(events, queueEvents, now, fault);
            var l := Deliver(Listened(events), fault);
            && (l.1.Some? ==> d == l && forall x :: x in d.0 ==> x.EventDispatched?)
            && (queueEvents ==> d == l && forall x :: x in d.0 ==> x.EventDispatched?)
            && ((forall x :: fault(x).None?) ==>
                  d == (Listened(events) + (if queueEvents then [] else Updates(LastRows(StreamRowsOf(events, now)))), None))
  {
    var l := Deliver(Listened(events), fault);
    DeliverFacts(Listened(events), fault);
    assert Listened(events) + [] == Listened(events);
    if !queueEvents && l.1.None? {
      var u := Deliver(Updates(LastRows(StreamRowsOf(events, now))), fault);
      DeliverFacts(Updates(LastRows(StreamRowsOf(events, now))), fault);
      if u.1.Some? {
        assert u.1 == fault(u.0[|u.0| - 1]);
      }
    }
  }

  class EventBus {
    const eventStore: EventStore
    const messageBus: MessageBus
    /** Which dispatches make a listener throw, and with what. */
    const dispatchFault: Dispatched -> Option<Fault>
    /** Everything handed to the event dispatcher, in order. */
    var notifications: seq<Dispatched>

    constructor (store: EventStore, bus: MessageBus, fault: Dispatched -> Option<Fault>)
      ensures eventStore == store && messageBus == bus && dispatchFault == fault
      ensures notifications == []
    {
      eventStore, messageBus, dispatchFault := store, bus, fault;
      notifications := [];
    }

    /** One call of the dispatcher. */
    method Notify(d: Dispatched) returns (f: Option<Fault>)
      modifies this
      ensures notifications == old(notifications) + [d] && f == dispatchFault(d)
    {
      notifications := notifications + [d];
      f := dispatchFault(d);
    }

    /** A `foreach` over dispatches, left by the first exception. */
    method DispatchAll(ds: seq<Dispatched>) returns (f: Option<Fault>)
      modifies this
      ensures notifications == old(notifications) + Deliver(ds, dispatchFault).0
      ensures f == Deliver(ds, dispatchFault).1
    {
      f := None;
      var i := 0;
      while i < |ds| && f.None?
        invariant 0 <= i <= |ds|
        invariant notifications == old(notifications) + Deliver(ds[..i], dispatchFault).0
        invariant f == Deliver(ds[..i], dispatchFault).1
      {
        DeliverSnoc(ds, i, dispatchFault);
        var g := Notify(ds[i]);
        f := g;
        i := i + 1;
      }
      if f.Some? {
        DeliverStops(ds, i, dispatchFault);
      } else {
        assert ds[..i] == ds;
      }
    }

    /** `invokeListeners`: dispatches each event. */
    method InvokeListeners(events: seq<Event>) returns (f: Option<Fault>)
      modifies this
      ensures notifications == old(notifications) + Deliver(Listened(events), dispatchFault).0
      ensures f == Deliver(Listened(events), dispatchFault).1
    {
      f := DispatchAll(Listened(events));
    }

    /** `sendAggregateUpdates`: keeps the last row of each aggregate, then dispatches an update for each. */
    method SendAggregateUpdates(rows: seq<Row>) returns (f: Option<Fault>)
      modifies this
      ensures notifications == old(notifications) + Deliver(Updates(LastRows(rows)), dispatchFault).0
      ensures f == Deliver(Updates(LastRows(rows)), dispatchFault).1
    {
      var last: seq<Row> := [];
      var i := 0;
      while i < |rows|
        invariant 0 <= i <= |rows|
        invariant last == LastRows(rows[..i])
      {
        assert rows[..i + 1][..i] == rows[..i];
        last := Assign(last, rows[i]);
        i := i + 1;
      }
      assert rows[..i] == rows;
      f := DispatchAll(Updates(last));
    }

    /** The body of `publish`'s first loop for one event: fill a stream row, stage it, log it. */
    method StageEvent(e: Event, queueEvents: bool, now: Time) returns (row: Row)
      requires eventStore.messageBus == messageBus
      modifies eventStore, messageBus
      ensures row == StreamRowOf(e, now)
      ensures eventStore.staged == old(eventStore.staged) + [StagedChange(e, queueEvents, now)]
      ensures eventStore.TablesOf() == old(eventStore.TablesOf())
      ensures messageBus.messages == old(messageBus.messages) + [PublishMessage(e, queueEvents, now)]
    {
      var o := new EventStreamObject(now);
      o.SetEvent(e.eventClass);
      o.SetAggregateClass(AggregateClassOf(e.eventClass));
      o.SetMessage(MessageOf(e.eventClass));
      o.SetUuid(e.aggregateUuid);
      o.SetCommandUuid(e.commandUuid);
      o.SetPayload(e.payload);
      o.SetVersion(e.version);
      o.SetUser(e.user);
      row := o.Value();
      if queueEvents {
        var q := new EventQueueObject(o);
        eventStore.Queue(q);
      } else {
        eventStore.Add(o);
      }
      messageBus.Dispatch(PublishMessage(e, queueEvents, now));
    }

    /** `publish`'s first loop: stages and logs every event, collecting their rows. */
    method StageEvents(events: seq<Event>, queueEvents: bool, now: Time) returns (rows: seq<Row>)
      requires eventStore.messageBus == messageBus
      modifies eventStore, messageBus
      ensures rows == StreamRowsOf(events, now)
      ensures eventStore.staged == old(eventStore.staged) + StagedChanges(events, queueEvents, now)
      ensures eventStore.TablesOf() == old(eventStore.TablesOf())
      ensures messageBus.messages == old(messageBus.messages) + PublishMessages(events, queueEvents, now)
    {
      rows := [];
      var i := 0;
      while i < |events|
        invariant 0 <= i <= |events|
        invariant rows == StreamRowsOf(events[..i], now)
        invariant eventStore.staged == old(eventStore.staged) + StagedChanges(events[..i], queueEvents, now)
        invariant eventStore.TablesOf() == old(eventStore.TablesOf())
        invariant messageBus.messages == old(messageBus.messages) + PublishMessages(events[..i], queueEvents, now)
      {
        var row := StageEvent(events[i], queueEvents, now);
        assert StreamRowsOf(events[..i + 1], now) == StreamRowsOf(events[..i], now) + [row];
        assert StagedChanges(events[..i + 1], queueEvents, now)
            == StagedChanges(events[..i], queueEvents, now) + [StagedChange(events[i], queueEvents, now)];
        assert PublishMessages(events[..i + 1], queueEvents, now)
            == PublishMessages(events[..i], queueEvents, now) + [PublishMessage(events[i], queueEvents, now)];
        rows := rows + [row];
        i := i + 1;
      }
      assert events[..i] == events;
    }

    /**
      `publish`: stages and logs the events, saves (a failed flush is logged by
      the store and does not stop anything), dispatches the events to the
      listeners and, for persisted events, the aggregate updates. A listener
      exception is logged and ends the dispatching.
    */
    method Publish(events: seq<Event>, queueEvents: bool, now: Time)
      requires eventStore.messageBus == messageBus && eventStore.Valid()
      modifies this, eventStore, messageBus
      ensures eventStore.Valid() && eventStore.staged == []
      ensures var fl := Flush(old(eventStore.TablesOf()), old(eventStore.staged) + StagedChanges(events, queueEvents, now));
              var d := PublishDispatch(events, queueEvents, now, dispatchFault);
              && eventStore.TablesOf() == fl.0
              && notifications == old(notifications) + d.0
              && messageBus.messages == old(messageBus.messages) + PublishMessages(events, queueEvents, now)
                   + Reported(FlushFault(fl.1, eventStore.flushFault), StoreException, now)
                   + Reported(d.1, ListenerException, now)
    {
      ghost var t0 := eventStore.TablesOf();
      ghost var cs := eventStore.staged + StagedChanges(events, queueEvents, now);
      ghost var logged := messageBus.messages + PublishMessages(events, queueEvents, now);
      var rows := StageEvents(events, queueEvents, now);
      assert eventStore.staged == cs && eventStore.TablesOf() == t0;
      eventStore.Save(now);
      ghost var fl := Flush(t0, cs);
      assert eventStore.TablesOf() == fl.0;
      assert messageBus.messages == logged + Reported(FlushFault(fl.1, eventStore.flushFault), StoreException, now);
      var f := DispatchPublished(events, rows, queueEvents, now);
      if f.Some? {
        messageBus.Dispatch(FaultMessage(f.value, ListenerException, now));
      }
    }

    /** `publish`'s dispatching: the listeners, then (for persisted events) the aggregate updates. */
    method DispatchPublished(events: seq<Event>, rows: seq<Row>, queueEvents: bool, now: Time) returns (f: Option<Fault>)
      requires rows == StreamRowsOf(events, now)
      modifies this
      ensures notifications == old(notifications) + PublishDispatch(events, queueEvents, now, dispatchFault).0
      ensures f == PublishDispatch(events, queueEvents, now, dispatchFault).1
    {
      f := InvokeListeners(events);
      if f.None? && !queueEvents {
        f := SendAggregateUpdates(rows);
      }
    }

    /**
      `publishQueued`: stages the queue rows as stream rows and saves, sends
      the aggregate updates; a listener exception is logged and gives false,
      leaving the queue rows in place. Otherwise the queue rows are removed,
      saved, and the result is true whatever the flushes did, since `save`
      does not rethrow.
    */
    method PublishQueued(objs: seq<EventQueueObject>, now: Time) returns (ok: bool)
      requires eventStore.messageBus == messageBus && eventStore.Valid()
      modifies this, eventStore, messageBus
      ensures eventStore.Valid() && eventStore.staged == []
      ensures var o := PublishQueuedSpec(old(eventStore.TablesOf()), old(eventStore.staged), old(QueueRows(objs)),
                                         dispatchFault, eventStore.flushFault, now);
              && ok == o.ok
              && notifications == old(notifications) + o.dispatched
              && eventStore.TablesOf() == o.tables
              && messageBus.messages == old(messageBus.messages) + o.messages
    {
      var rows := PersistQueued(objs, now);
      var f := SendAggregateUpdates(rows);
      if f.Some? {
        messageBus.Dispatch(FaultMessage(f.value, ListenerException, now));
        return false;
      }
      RemoveQueued(rows, now);
      ok := true;
    }

    /** `publishQueued` up to its first save: the rows staged for the stream and flushed. */
    method PersistQueued(objs: seq<EventQueueObject>, now: Time) returns (rows: seq<Row>)
      requires eventStore.messageBus == messageBus && eventStore.Valid()
      modifies eventStore, messageBus
      ensures rows == old(QueueRows(objs))
      ensures eventStore.Valid() && eventStore.staged == []
      ensures var f1 := Flush(old(eventStore.TablesOf()), old(eventStore.staged) + Persists(rows));
              && eventStore.TablesOf() == f1.0
              && messageBus.messages == old(messageBus.messages) + Reported(FlushFault(f1.1, eventStore.flushFault), StoreException, now)
    {
      rows := AddQueued(objs, now);
      eventStore.Save(now);
    }

    /** `publishQueued` after the updates: the queue rows removed and flushed. */
    method RemoveQueued(rows: seq<Row>, now: Time)
      requires eventStore.messageBus == messageBus && eventStore.Valid() && eventStore.staged == []
      modifies eventStore, messageBus
      ensures eventStore.Valid() && eventStore.staged == []
      ensures var f2 := Flush(old(eventStore.TablesOf()), Discards(rows));
              && eventStore.TablesOf() == f2.0
              && messageBus.messages == old(messageBus.messages) + Reported(FlushFault(f2.1, eventStore.flushFault), StoreException, now)
    {
      eventStore.RemoveAll(rows);
      assert eventStore.staged == Discards(rows);
      eventStore.Save(now);
    }

    /** `publishQueued`'s first loop: each queue row, as a stream row, is staged for the stream. */
    method AddQueued(objs: seq<EventQueueObject>, now: Time) returns (rows: seq<Row>)
      modifies eventStore
      ensures rows == old(QueueRows(objs))
      ensures eventStore.staged == old(eventStore.staged) + Persists(rows)
      ensures eventStore.TablesOf() == old(eventStore.TablesOf())
    {
      rows := [];
      var i := 0;
      while i < |objs|
        invariant 0 <= i <= |objs|
        invariant rows == old(QueueRows(objs[..i]))
        invariant eventStore.staged == old(eventStore.staged) + Persists(rows)
        invariant eventStore.TablesOf() == old(eventStore.TablesOf())
      {
        var o := objs[i].GetEventStreamObject(now);
        eventStore.Add(o);
        assert old(QueueRows(objs[..i + 1])) == old(QueueRows(objs[..i])) + [objs[i].Value()];
        assert Persists(rows + [o.Value()]) == Persists(rows) + [Persist(o.Value())];
        rows := rows + [o.Value()];
        i := i + 1;
      }
      assert objs[..i] == objs;
    }
  }

  /** The rows of a list of queue objects. */
  function QueueRows(objs: seq<EventQueueObject>): (rs: seq<Row>)
    reads set o | o in objs
    ensures |rs| == |objs| && forall i :: 0 <= i < |objs| ==> rs[i] == objs[i].Value()
  {
    seq(|objs|, i reads objs requires 0 <= i < |objs| => objs[i].Value())
  }
}
