/**
  The page-create flow on concrete stores: creating a new page is accepted,
  creating it again is refused with CONFLICT, and a page without a title is
  refused with BAD_REQUEST.
*/
module Scenarios {
  import opened Wrappers
  import opened Values
  import opened Classes
  import opened Events
  import Codes
  import opened Messages
  import opened MessageBusService
  import opened Commands
  import opened StreamObjects
  import opened EventStoreService
  import opened HandlerKinds
  import opened AggregateFactoryService
  import opened HandlerService
  import opened EventBusService
  import opened CommandBusService

  const PAGE_UUID := "page-1"

  /** Nothing stored yet. */
  const EMPTY := Stores([], [], [])

  /** A create command for `PAGE_UUID` with the given payload and target version. */
  function CreatePage(commandUuid: string, payload: Payload, onVersion: int): (c: Command)
    ensures c.commandClass == PAGE_CREATE_COMMAND && c.uuid == commandUuid
    ensures c.aggregateUuid == PAGE_UUID && c.onVersion == onVersion && c.payload == payload
  {
    NewCommand(PAGE_CREATE_COMMAND, 1, Some(commandUuid), commandUuid, PAGE_UUID, onVersion, payload, None)
  }

  /** The stream after the first create was persisted: one row, version 1, for the page. */
  function Persisted(first: Row): Stores
  {
    Stores([first], [], [])
  }

  /** An empty store builds a page at version 0. */
  lemma EmptyStoreBuildsVersionZero(c: Command, now: Time)
    requires c.commandClass == PAGE_CREATE_COMMAND
    ensures AggregateFor(EMPTY, c, now).state.version == 0
  {
    CanonicalVersion(EMPTY, c.aggregateUuid, Page, None);
    BuildWatermark(EMPTY, c.aggregateUuid, Page, None, Some(c.user), now);
    var cv := CanonicalState(EMPTY, c.aggregateUuid, Page, None).version;
    assert QueuedRows(EMPTY, c.aggregateUuid, None, c.user, cv) == [];
  }

  /** A stream holding the page's row at version 1 builds the page at version 1. */
  lemma PersistedBuildsVersionOne(first: Row, c: Command, now: Time)
    requires c.commandClass == PAGE_CREATE_COMMAND
    requires first.uuid == c.aggregateUuid && first.version == 1
    ensures AggregateFor(Persisted(first), c, now).state.version == 1
  {
    var st := Persisted(first);
    CanonicalVersion(st, c.aggregateUuid, Page, None);
    BuildWatermark(st, c.aggregateUuid, Page, None, Some(c.user), now);
    var rows := FindEventObjects(st.stream, c.aggregateUuid, None, None, None);
    assert first in rows;
    assert rows[|rows| - 1] in rows;
    var cv := CanonicalState(st, c.aggregateUuid, Page, None).version;
    assert QueuedRows(st, c.aggregateUuid, None, c.user, cv) == [];
  }

  /** The first create of a titled page, on empty stores, is accepted. */
  lemma FirstCreateAccepted(commandUuid: string, title: string, now: Time, prior: seq<Message>, rest: seq<Message>)
    requires title != "" && title != "0"
    requires ByCommand(prior, Some(commandUuid)) == []
    requires forall m :: m in rest ==> m.commandUuid.None?
    ensures var c := CreatePage(commandUuid, map["title" := title], 0);
            var b := AggregateFor(EMPTY, c, now);
            var h := HandleSpec(PageCreateHandler, b.state, c, now);
            && h.appended.Some? && h.appended.value.version == 1
            && Accepted(prior + b.messages + h.messages + PublishMessages(PendingOf(h), false, now) + rest, commandUuid)
  {
    var c := CreatePage(commandUuid, map["title" := title], 0);
    EmptyStoreBuildsVersionZero(c, now);
    HandleOutcomes(PageCreateHandler, AggregateFor(EMPTY, c, now).state, c, now);
    DispatchAcceptedIff(PageCreateHandler, EMPTY, c, false, now, prior, rest);
  }

  /**
    Creating the page again once it is persisted is refused whatever version
    the command targets, and the first message for it is a CONFLICT.
  */
  lemma SecondCreateConflicts(first: Row, commandUuid: string, title: string, onVersion: int, now: Time,
                              prior: seq<Message>, rest: seq<Message>)
    requires first.uuid == PAGE_UUID && first.version == 1
    requires title != "" && title != "0"
    requires ByCommand(prior, Some(commandUuid)) == []
    requires forall m :: m in rest ==> m.commandUuid.None?
    ensures var c := CreatePage(commandUuid, map["title" := title], onVersion);
            var b := AggregateFor(Persisted(first), c, now);
            var h := HandleSpec(PageCreateHandler, b.state, c, now);
            && h.appended.None?
            && h.messages[0].code == Codes.Code.Conflict.Value()
            && !Accepted(prior + b.messages + h.messages + PublishMessages(PendingOf(h), false, now) + rest, commandUuid)
  {
    var c := CreatePage(commandUuid, map["title" := title], onVersion);
    var s := AggregateFor(Persisted(first), c, now).state;
    PersistedBuildsVersionOne(first, c, now);
    RefusalCode(s, c, now);
    DispatchAcceptedIff(PageCreateHandler, Persisted(first), c, false, now, prior, rest);
  }

  /** A create without a title is refused on any stores, and the first message for it is a BAD_REQUEST. */
  lemma UntitledCreateRefused(st: Stores, commandUuid: string, onVersion: int, now: Time,
                              prior: seq<Message>, rest: seq<Message>)
    requires ByCommand(prior, Some(commandUuid)) == []
    requires forall m :: m in rest ==> m.commandUuid.None?
    ensures var c := CreatePage(commandUuid, map[], onVersion);
            var b := AggregateFor(st, c, now);
            var h := HandleSpec(PageCreateHandler, b.state, c, now);
            && h.appended.None?
            && h.messages[0].code == Codes.Code.BadRequest.Value()
            && !Accepted(prior + b.messages + h.messages + PublishMessages(PendingOf(h), false, now) + rest, commandUuid)
  {
    var c := CreatePage(commandUuid, map[], onVersion);
    var s := AggregateFor(st, c, now).state;
    RefusalCode(s, c, now);
    DispatchAcceptedIff(PageCreateHandler, st, c, false, now, prior, rest);
  }
}
