/**
  The event store over two in-memory tables, the canonical stream and the
  per-user queue. Queries are pure filters sorted by version; add, queue and
  remove only stage changes, which `Save` commits in one flush.
*/
module EventStoreService {
  import opened Wrappers
  import opened Values
  import opened Classes
  import opened Events
  import opened Messages
  import opened StreamObjects
  import opened QueueObjects
  import opened MessageBusService

  // ---------------------------------------------------------------------------
  // Rows to events

  /** `buildEventFromEventStreamObject`: an event of the row's class carrying the row's fields. */
  function BuildEvent(r: Row): (e: Event)
    ensures e.eventClass == r.event && e.aggregateUuid == r.uuid && e.commandUuid == r.commandUuid
    ensures e.version == r.version && e.user == r.user && e.payload == r.payload
  {
    Event(r.event, r.uuid, r.commandUuid, r.version, r.user, r.payload)
  }

  // ---------------------------------------------------------------------------
  // Order-preserving filters over rows

  function Filter(s: seq<Row>, p: Row -> bool): (r: seq<Row>)
    ensures |r| <= |s|
    ensures forall x :: x in r <==> x in s && p(x)
  {
    if s == [] then []
    else
      assert s == [s[0]] + s[1..];
      (if p(s[0]) then [s[0]] else []) + Filter(s[1..], p)
  }

  /** Filtering keeps each selected row as often as it occurs, and no other row. */
  lemma {:induction false} FilterCounts(s: seq<Row>, p: Row -> bool)
    ensures forall x :: multiset(Filter(s, p))[x] == if p(x) then multiset(s)[x] else 0
  {
    if s != [] {
      FilterCounts(s[1..], p);
      assert s == [s[0]] + s[1..];
    }
  }

  lemma {:induction false} FilterAppend(a: seq<Row>, b: seq<Row>, p: Row -> bool)
    ensures Filter(a + b, p) == Filter(a, p) + Filter(b, p)
  {
    if a == [] {
      assert a + b == b;
    } else {
      assert (a + b)[1..] == a[1..] + b;
      FilterAppend(a[1..], b, p);
    }
  }

  /** Two tests that agree on every element of `s` select the same rows. */
  lemma {:induction false} FilterExt(s: seq<Row>, p: Row -> bool, q: Row -> bool)
    requires forall x :: x in s ==> p(x) == q(x)
    ensures Filter(s, p) == Filter(s, q)
  {
    if s != [] {
      FilterExt(s[1..], p, q);
    }
  }

  lemma {:induction false} FilterKeepsStreamUnique(s: seq<Row>, p: Row -> bool)
    requires StreamUnique(s)
    ensures StreamUnique(Filter(s, p))
  {
    if s != [] {
      FilterKeepsStreamUnique(s[1..], p);
      var t := Filter(s[1..], p);
      var h: seq<Row> := if p(s[0]) then [s[0]] else [];
      var r := Filter(s, p);
      assert r == h + t;
      forall i, j | 0 <= i < j < |r|
        ensures r[i].version != r[j].version || r[i].uuid != r[j].uuid
      {
        if i < |h| {
          assert r[i] == s[0] && r[j] == t[j - |h|];
          assert t[j - |h|] in s[1..];
          var k :| 0 <= k < |s[1..]| && s[1..][k] == r[j];
          assert s[k + 1] == r[j];
        } else {
          assert r[i] == t[i - |h|] && r[j] == t[j - |h|];
        }
      }
    }
  }

  lemma {:induction false} FilterKeepsQueueUnique(s: seq<Row>, p: Row -> bool)
    requires QueueUnique(s)
    ensures QueueUnique(Filter(s, p))
  {
    if s != [] {
      FilterKeepsQueueUnique(s[1..], p);
      var t := Filter(s[1..], p);
      var h: seq<Row> := if p(s[0]) then [s[0]] else [];
      var r := Filter(s, p);
      assert r == h + t;
      forall i, j | 0 <= i < j < |r|
        ensures r[i].version != r[j].version || r[i].uuid != r[j].uuid || r[i].user != r[j].user
      {
        if i < |h| {
          assert r[i] == s[0] && r[j] == t[j - |h|];
          assert t[j - |h|] in s[1..];
          var k :| 0 <= k < |s[1..]| && s[1..][k] == r[j];
          assert s[k + 1] == r[j];
        } else {
          assert r[i] == t[i - |h|] && r[j] == t[j - |h|];
        }
      }
    }
  }

  // ---------------------------------------------------------------------------
  // Sorting by version (the ORDER BY version ASC of the queries)

  predicate Ascending(s: seq<Row>)
  {
    forall i, j :: 0 <= i < j < |s| ==> s[i].version <= s[j].version
  }

  /** A lower bound on `x` and on every row of `s` bounds every row of a permutation of `s + [x]`. */
  lemma BoundedPermutation(v: int, t: seq<Row>, x: Row, s: seq<Row>)
    requires multiset(t) == multiset(s) + multiset{x}
    requires v <= x.version
    requires forall y :: y in s ==> v <= y.version
    ensures forall k :: 0 <= k < |t| ==> v <= t[k].version
  {
    forall k | 0 <= k < |t|
      ensures v <= t[k].version
    {
      assert t[k] in multiset(t);
      assert t[k] == x || t[k] in multiset(s);
    }
  }

  lemma ConsAscending(h: Row, t: seq<Row>)
    requires Ascending(t)
    requires forall k :: 0 <= k < |t| ==> h.version <= t[k].version
    ensures Ascending([h] + t)
  {
    forall i, j | 0 <= i < j < |[h] + t|
      ensures ([h] + t)[i].version <= ([h] + t)[j].version
    {
      if i > 0 {
        assert ([h] + t)[i] == t[i - 1];
      }
      assert ([h] + t)[j] == t[j - 1];
    }
  }

  function Insert(x: Row, s: seq<Row>): (r: seq<Row>)
    requires Ascending(s)
    ensures Ascending(r)
    ensures multiset(r) == multiset(s) + multiset{x}
  {
    if s == [] then [x]
    else if x.version <= s[0].version then
      ConsAscending(x, s);
      [x] + s
    else
      var t := Insert(x, s[1..]);
      assert s == [s[0]] + s[1..];
      assert forall y :: y in s[1..] ==> s[0].version <= y.version;
      BoundedPermutation(s[0].version, t, x, s[1..]);
      ConsAscending(s[0], t);
      assert multiset([s[0]] + t) == multiset{s[0]} + multiset(t);
      [s[0]] + t
  }

  function SortByVersion(s: seq<Row>): (r: seq<Row>)
    ensures Ascending(r)
    ensures multiset(r) == multiset(s)
  {
    if s == [] then []
    else
      assert s == [s[0]] + s[1..];
      Insert(s[0], SortByVersion(s[1..]))
  }

  // ---------------------------------------------------------------------------
  // Queries

  /** The criteria of `findEventObjects`: uuid equal, version within the given bounds, user equal if given. */
  predicate InRange(r: Row, uuid: string, maxVersion: Option<int>, minVersion: Option<int>, user: Option<int>)
  {
    && r.uuid == uuid
    && (maxVersion.Some? ==> r.version <= maxVersion.value)
    && (minVersion.Some? ==> r.version >= minVersion.value)
    && (user.Some? ==> r.user == user.value)
  }

  function InRangeTest(uuid: string, maxVersion: Option<int>, minVersion: Option<int>, user: Option<int>): Row -> bool
  {
    (r: Row) => InRange(r, uuid, maxVersion, minVersion, user)
  }

  /**
    The matching rows of `table`, ascending by version: every row it returns
    matches, and every matching row of the table is returned, as often as it occurs.
  */
  function FindEventObjects(table: seq<Row>, uuid: string, maxVersion: Option<int>,
                            minVersion: Option<int>, user: Option<int>): (r: seq<Row>)
    ensures Ascending(r)
    ensures forall x :: x in r <==> x in table && InRange(x, uuid, maxVersion, minVersion, user)
  {
    var w := Filter(table, InRangeTest(uuid, maxVersion, minVersion, user));
    var r := SortByVersion(w);
    assert forall x :: x in r <==> x in w by {
      forall x ensures x in r <==> x in w {
        assert x in r <==> x in multiset(r);
        assert x in w <==> x in multiset(w);
      }
    }
    r
  }

  /** Every matching row of the table is returned as often as it occurs, and no other row. */
  lemma FindEventObjectsCounts(table: seq<Row>, uuid: string, maxVersion: Option<int>,
                               minVersion: Option<int>, user: Option<int>)
    ensures forall x :: multiset(FindEventObjects(table, uuid, maxVersion, minVersion, user))[x]
                     == if InRange(x, uuid, maxVersion, minVersion, user) then multiset(table)[x] else 0
  {
    FilterCounts(table, InRangeTest(uuid, maxVersion, minVersion, user));
  }

  /** The version-1 rows, restricted to one aggregate class when one is given, in table order. */
  function FindAggregateRows(table: seq<Row>, aggregateClass: Option<ClassName>): (r: seq<Row>)
    ensures forall x :: x in r <==> x in table && x.version == 1 && (aggregateClass.Some? ==> x.aggregateClass == aggregateClass.value)
  {
    Filter(table, (x: Row) => x.version == 1 && (aggregateClass.Some? ==> x.aggregateClass == aggregateClass.value))
  }

  // ---------------------------------------------------------------------------
  // The staged change set and its flush

  /** A change staged on the entity manager: persist a stream row, persist a queue row, remove a queue row. */
  datatype Change = Persist(row: Row) | Enqueue(row: Row) | Discard(row: Row)

  /** The two committed tables. */
  datatype Tables = Tables(stream: seq<Row>, queue: seq<Row>)

  /** Both unique constraints hold. */
  predicate Consistent(t: Tables)
  {
    StreamUnique(t.stream) && QueueUnique(t.queue)
  }

  function Other(r: Row): Row -> bool
  {
    (x: Row) => x != r
  }

  function NotIn(rs: seq<Row>): Row -> bool
  {
    (x: Row) => x !in rs
  }

  function Step(t: Tables, c: Change): Tables
  {
    match c
    case Persist(r) => t.(stream := t.stream + [r])
    case Enqueue(r) => t.(queue := t.queue + [r])
    case Discard(r) => t.(queue := Filter(t.queue, Other(r)))
  }

  /** The tables after the staged changes are written in the order they were staged. */
  function Commit(t: Tables, cs: seq<Change>): Tables
    decreases |cs|
  {
    if cs == [] then t else Step(Commit(t, cs[..|cs| - 1]), cs[|cs| - 1])
  }

  /**
    `flush`: all staged changes are written in one transaction, which fails
    (leaving the tables as they were) when a unique constraint would break.
    The flag says whether it succeeded.
  */
  function Flush(t: Tables, cs: seq<Change>): (r: (Tables, bool))
    ensures r.1 <==> Consistent(Commit(t, cs))
    ensures r.0 == if r.1 then Commit(t, cs) else t
    ensures Consistent(t) ==> Consistent(r.0)
  {
    var c := Commit(t, cs);
    if Consistent(c) then (c, true) else (t, false)
  }

  /** The changes that remove each of `rs` from the queue. */
  function Discards(rs: seq<Row>): (cs: seq<Change>)
    ensures |cs| == |rs| && forall i :: 0 <= i < |rs| ==> cs[i] == Discard(rs[i])
  {
    seq(|rs|, i requires 0 <= i < |rs| => Discard(rs[i]))
  }

  lemma {:induction false} FilterTwice(s: seq<Row>, p: Row -> bool, q: Row -> bool, pq: Row -> bool)
    requires forall x :: x in s ==> pq(x) == (p(x) && q(x))
    ensures Filter(Filter(s, p), q) == Filter(s, pq)
  {
    if s != [] {
      FilterTwice(s[1..], p, q, pq);
      var h: seq<Row> := if p(s[0]) then [s[0]] else [];
      var g: seq<Row> := if pq(s[0]) then [s[0]] else [];
      assert Filter(s, p) == h + Filter(s[1..], p);
      FilterAppend(h, Filter(s[1..], p), q);
      assert Filter(h, q) == g by {
        if p(s[0]) {
          assert Filter(h, q) == (if q(s[0]) then [s[0]] else []) + Filter([], q);
        }
      }
      assert Filter(s, pq) == g + Filter(s[1..], pq);
    }
  }

  /** Removing rows one by one removes exactly those rows from the queue and leaves the stream alone. */
  lemma {:induction false} CommitDiscards(t: Tables, rs: seq<Row>)
    ensures Commit(t, Discards(rs)) == Tables(t.stream, Filter(t.queue, NotIn(rs)))
    decreases |rs|
  {
    if rs == [] {
      FilterExt(t.queue, NotIn(rs), (x: Row) => true);
      FilterAll(t.queue);
    } else {
      var front := rs[..|rs| - 1];
      var last := rs[|rs| - 1];
      assert Discards(rs)[..|rs| - 1] == Discards(front);
      CommitDiscards(t, front);
      assert forall x :: x in rs <==> x in front || x == last by {
        assert rs == front + [last];
      }
      FilterTwice(t.queue, NotIn(front), Other(last), NotIn(rs));
    }
  }

  lemma {:induction false} FilterAll(s: seq<Row>)
    ensures Filter(s, (x: Row) => true) == s
  {
    if s != [] {
      FilterAll(s[1..]);
      assert s == [s[0]] + s[1..];
    }
  }

  /**
    Discarding the queue rows of one aggregate and one user from a given
    version on (from the start when `minVersion` is null) always flushes, and
    leaves exactly the other queue rows, in order.
  */
  lemma DiscardEffect(t: Tables, uuid: string, user: int, minVersion: Option<int>)
    requires Consistent(t)
    ensures Flush(t, Discards(FindEventObjects(t.queue, uuid, None, minVersion, Some(user))))
         == (Tables(t.stream, Filter(t.queue, (x: Row) => !InRange(x, uuid, None, minVersion, Some(user)))), true)
  {
    var found := FindEventObjects(t.queue, uuid, None, minVersion, Some(user));
    CommitDiscards(t, found);
    FilterExt(t.queue, NotIn(found), (x: Row) => !InRange(x, uuid, None, minVersion, Some(user)));
    FilterKeepsQueueUnique(t.queue, NotIn(found));
  }

  // ---------------------------------------------------------------------------
  // The store

  class EventStore {
    /** The log a failed flush is reported on. */
    const messageBus: MessageBus
    /** The exception the database raises when a flush breaks a unique constraint. */
    const flushFault: Fault
    /** The committed `event_stream` table. */
    var stream: seq<Row>
    /** The committed `event_qeue` table. */
    var queue: seq<Row>
    /** The changes staged since the last flush. */
    var staged: seq<Change>

    function TablesOf(): Tables
      reads this
    {
      Tables(stream, queue)
    }

    predicate Valid()
      reads this
    {
      Consistent(TablesOf())
    }

    constructor (bus: MessageBus, fault: Fault)
      ensures messageBus == bus && flushFault == fault
      ensures stream == [] && queue == [] && staged == []
      ensures Valid()
    {
      messageBus, flushFault := bus, fault;
      stream, queue, staged := [], [], [];
    }

    /** `find`: the aggregate's committed rows within the bounds, ascending by version. */
    function Find(uuid: string, maxVersion: Option<int>, minVersion: Option<int>): (r: seq<Row>)
      reads this
      ensures r == FindEventObjects(stream, uuid, maxVersion, minVersion, None)
    {
      FindEventObjects(stream, uuid, maxVersion, minVersion, None)
    }

    /** `findQueued`: one user's queue rows for the aggregate, as stream rows, ascending by version. */
    function FindQueued(uuid: string, user: int, maxVersion: Option<int>, minVersion: Option<int>): (r: seq<Row>)
      reads this
      ensures r == FindEventObjects(queue, uuid, maxVersion, minVersion, Some(user))
    {
      FindEventObjects(queue, uuid, maxVersion, minVersion, Some(user))
    }

    /** `findAggregates`: the first rows of every aggregate, of one class when given. */
    function FindAggregates(aggregateClass: Option<ClassName>): (r: seq<Row>)
      reads this
      ensures r == FindAggregateRows(stream, aggregateClass)
    {
      FindAggregateRows(stream, aggregateClass)
    }

    /** Stages a stream row; the tables do not change. */
    method Add(o: EventStreamObject)
      modifies this
      ensures staged == old(staged) + [Persist(o.Value())]
      ensures stream == old(stream) && queue == old(queue)
    {
      staged := staged + [Persist(o.Value())];
    }

    /** Stages a queue row; the tables do not change. */
    method Queue(o: EventQueueObject)
      modifies this
      ensures staged == old(staged) + [Enqueue(o.Value())]
      ensures stream == old(stream) && queue == old(queue)
    {
      staged := staged + [Enqueue(o.Value())];
    }

    /** Stages the removal of a queue row; the tables do not change. */
    method Remove(r: Row)
      modifies this
      ensures staged == old(staged) + [Discard(r)]
      ensures stream == old(stream) && queue == old(queue)
    {
      staged := staged + [Discard(r)];
    }

    /**
      `save`: flushes the staged changes. A failed flush is not rethrown: it
      becomes one message correlated to no command and no aggregate, and the
      tables stay as they were. Either way nothing is staged afterwards.
    */
    method Save(now: Time)
      requires Valid()
      modifies this, messageBus
      ensures Valid() && staged == []
      ensures TablesOf() == Flush(old(TablesOf()), old(staged)).0
      ensures messageBus.messages == old(messageBus.messages)
        + (if Flush(old(TablesOf()), old(staged)).1 then [] else [FaultMessage(flushFault, StoreException, now)])
    {
      var result := Flush(TablesOf(), staged);
      stream, queue, staged := result.0.stream, result.0.queue, [];
      if !result.1 {
        messageBus.Dispatch(FaultMessage(flushFault, StoreException, now));
      }
    }

    /** Stages the removal of every row of `rs`, in order. */
    method RemoveAll(rs: seq<Row>)
      modifies this
      ensures staged == old(staged) + Discards(rs)
      ensures stream == old(stream) && queue == old(queue)
    {
      var i := 0;
      while i < |rs|
        invariant 0 <= i <= |rs|
        invariant staged == old(staged) + Discards(rs[..i])
        invariant stream == old(stream) && queue == old(queue)
      {
        Remove(rs[i]);
        assert Discards(rs[..i + 1]) == Discards(rs[..i]) + [Discard(rs[i])];
        i := i + 1;
      }
      assert rs[..i] == rs;
    }

    /** `discardQueued`: removes all of one user's queue rows for the aggregate, then saves. */
    method DiscardQueued(uuid: string, user: int, now: Time)
      requires Valid()
      modifies this, messageBus
      ensures Valid() && staged == []
      ensures TablesOf() == Flush(old(TablesOf()), old(staged) + Discards(FindEventObjects(old(queue), uuid, None, None, Some(user)))).0
      ensures messageBus.messages == old(messageBus.messages)
        + (if Flush(old(TablesOf()), old(staged) + Discards(FindEventObjects(old(queue), uuid, None, None, Some(user)))).1
           then [] else [FaultMessage(flushFault, StoreException, now)])
    {
      var found := FindEventObjects(queue, uuid, None, None, Some(user));
      RemoveAll(found);
      Save(now);
    }

    /** `discardLatestQueued`: removes one user's queue rows for the aggregate from `version` on, then saves. */
    method DiscardLatestQueued(uuid: string, user: int, version: int, now: Time)
      requires Valid()
      modifies this, messageBus
      ensures Valid() && staged == []
      ensures TablesOf() == Flush(old(TablesOf()), old(staged) + Discards(FindEventObjects(old(queue), uuid, None, Some(version), Some(user)))).0
      ensures messageBus.messages == old(messageBus.messages)
        + (if Flush(old(TablesOf()), old(staged) + Discards(FindEventObjects(old(queue), uuid, None, Some(version), Some(user)))).1
           then [] else [FaultMessage(flushFault, StoreException, now)])
    {
      var found := FindEventObjects(queue, uuid, None, Some(version), Some(user));
      RemoveAll(found);
      Save(now);
    }
  }

  /**
    With nothing else staged, `discardQueued` removes exactly the user's rows
    of the aggregate: other users' rows and other aggregates' rows stay, in
    order, the stream is untouched and no message is logged.
  */
  lemma DiscardQueuedKeepsOthers(t: Tables, uuid: string, user: int)
    requires Consistent(t)
    ensures var r := Flush(t, [] + Discards(FindEventObjects(t.queue, uuid, None, None, Some(user))));
      && r.1 && r.0.stream == t.stream
      && (forall x :: x in r.0.queue <==> x in t.queue && (x.uuid != uuid || x.user != user))
  {
    assert [] + Discards(FindEventObjects(t.queue, uuid, None, None, Some(user)))
        == Discards(FindEventObjects(t.queue, uuid, None, None, Some(user)));
    DiscardEffect(t, uuid, user, None);
  }

  /**
    With nothing else staged, `discardLatestQueued` removes exactly the user's
    rows of the aggregate whose version is at least `version`.
  */
  lemma DiscardLatestQueuedRemovesFrom(t: Tables, uuid: string, user: int, version: int)
    requires Consistent(t)
    ensures var r := Flush(t, [] + Discards(FindEventObjects(t.queue, uuid, None, Some(version), Some(user))));
      && r.1 && r.0.stream == t.stream
      && (forall x :: x in r.0.queue <==> x in t.queue && (x.uuid != uuid || x.user != user || x.version < version))
  {
    assert [] + Discards(FindEventObjects(t.queue, uuid, None, Some(version), Some(user)))
        == Discards(FindEventObjects(t.queue, uuid, None, Some(version), Some(user)));
    DiscardEffect(t, uuid, user, Some(version));
  }
}
