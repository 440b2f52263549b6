/**
  The abstract handler's own behaviour: `executeHandler`, `getAggregate` and
  `__invoke`, which builds the command's aggregate, validates the command,
  compares versions and either records the new event on the aggregate or
  logs why not.
*/
module HandlerService {
  import opened Wrappers
  import opened Values
  import opened Events
  import Codes
  import opened Messages
  import opened MessageBusService
  import opened Commands
  import opened Aggregates
  import opened HandlerKinds
  import opened AggregateFactoryService

  /**
    What `__invoke` does, on values: the aggregate it appends to the list
    (if any), the messages it logs, and the validation exception that leaves
    it uncaught (if any).
  */
  datatype Invoked = Invoked(appended: Option<AggState>, messages: seq<Message>, uncaught: Option<ValidationError>)

  /** The message logged when the aggregate's version is not the command's target version. */
  function VersionConflict(c: Command, now: Time): (m: Message)
    ensures m.code == Codes.Code.Conflict.Value() && m.exception.None?
    ensures m.commandUuid == Some(c.uuid) && m.aggregateUuid == Some(c.aggregateUuid)
  {
    Message("Aggregate target version is outdated or does not exist", Codes.Code.Conflict.Value(),
            Some(c.uuid), Some(c.aggregateUuid), now, None)
  }

  /** The message logged for a command its handler declares invalid. */
  function InvalidCommand(c: Command, now: Time): (m: Message)
    ensures m.code == Codes.Code.BadRequest.Value() && m.exception.None?
    ensures m.commandUuid == Some(c.uuid) && m.aggregateUuid == Some(c.aggregateUuid)
  {
    Message("Invalid Command", Codes.Code.BadRequest.Value(), Some(c.uuid), Some(c.aggregateUuid), now, None)
  }

  /** The aggregate `getAggregate` builds for a command: latest version, with the user's queued events. */
  function AggregateFor(st: Stores, c: Command, now: Time): Built
  {
    BuildSpec(st, c.aggregateUuid, c.commandClass.aggregateClass, None, Some(c.user), now)
  }

  /**
    `__invoke` on values, once `getAggregate` has built `s`. Validation runs
    first and its exception propagates; then a version mismatch is logged as
    CONFLICT; then a valid command's event is applied to the aggregate, which
    is appended; an invalid one is logged as BAD_REQUEST.
  */
  function InvokeSpec(k: HandlerKind, s: AggState, c: Command, now: Time): (o: Invoked)
    ensures o.uncaught.Some? ==> o.appended.None? && o.messages == []
    ensures o.appended.Some? ==> o.messages == [] && o.uncaught.None?
  {
    var v := ValidateCommand(k, c, s);
    if v.Err? then Invoked(None, [], Some(v.error))
    else if s.version != c.onVersion then Invoked(None, [VersionConflict(c, now)], None)
    else if v.value then Invoked(Some(ApplySpec(s, CreateEvent(k, c))), [], None)
    else Invoked(None, [InvalidCommand(c, now)], None)
  }

  /**
    The outcomes of `__invoke` and when each happens: the validation exception
    exactly when validation fails; the CONFLICT message exactly when validation
    passes but the versions differ; otherwise the built aggregate with the
    command's event applied: its version is the target version plus one and
    the event is its only pending event. "Invalid Command" is never logged.
  */
  lemma {:induction false} InvokeOutcomes(k: HandlerKind, st: Stores, c: Command, now: Time)
    ensures var s := AggregateFor(st, c, now).state;
            var o := InvokeSpec(k, s, c, now);
            && (o.uncaught.Some? <==> ValidateCommand(k, c, s).Err?)
            && (o.messages == [VersionConflict(c, now)] <==> ValidateCommand(k, c, s).Ok? && s.version != c.onVersion)
            && (o.appended.Some? <==> ValidateCommand(k, c, s) == Ok(true) && s.version == c.onVersion)
            && o.messages != [InvalidCommand(c, now)]
            && (o.appended.Some? ==>
                  && o.appended.value.version == c.onVersion + 1
                  && o.appended.value.pendingEvents == [CreateEvent(k, c)]
                  && o.appended.value.uuid == c.aggregateUuid)
  {
    var s := AggregateFor(st, c, now).state;
    assert s.pendingEvents == [] && s.uuid == c.aggregateUuid;
  }

  class Handler {
    const kind: HandlerKind
    const messageBus: MessageBus
    const aggregateFactory: AggregateFactory

    constructor (k: HandlerKind, bus: MessageBus, factory: AggregateFactory)
      ensures kind == k && messageBus == bus && aggregateFactory == factory
    {
      kind, messageBus, aggregateFactory := k, bus, factory;
    }

    /** `executeHandler`: this handler's `execute`, changing the aggregate in place. */
    method ExecuteHandler(e: Event, a: Aggregate) returns (r: Aggregate)
      modifies a
      ensures r == a && a.State() == Execute(kind, e, old(a.State()))
    {
      r := ExecuteOn(kind, e, a);
    }

    /** `getAggregate`: the factory's `build` at the latest version, with the user's queued events. */
    method GetAggregate(c: Command, now: Time) returns (a: Aggregate)
      modifies aggregateFactory.messageBus
      ensures fresh(a)
      ensures a.State() == AggregateFor(aggregateFactory.StoresOf(), c, now).state
      ensures aggregateFactory.messageBus.messages
              == old(aggregateFactory.messageBus.messages) + AggregateFor(aggregateFactory.StoresOf(), c, now).messages
    {
      a := aggregateFactory.Build(c.aggregateUuid, c.commandClass.aggregateClass, None, Some(c.user), now);
    }

    /** The part of `__invoke` after `getAggregate`: validate, compare versions, then apply or log. */
    method Decide(c: Command, a: Aggregate, aggregates: seq<Aggregate>, now: Time)
      returns (aggregates': seq<Aggregate>, uncaught: Option<ValidationError>)
      modifies messageBus, a
      ensures var o := InvokeSpec(kind, old(a.State()), c, now);
              && uncaught == o.uncaught
              && messageBus.messages == old(messageBus.messages) + o.messages
              && (o.appended.None? ==> aggregates' == aggregates)
              && (o.appended.Some? ==> aggregates' == aggregates + [a] && a.State() == o.appended.value)
    {
      var v := ValidateCommand(kind, c, a.State());
      aggregates' := aggregates;
      uncaught := None;
      if v.Err? {
        uncaught := Some(v.error);
      } else if a.version != c.onVersion {
        messageBus.Dispatch(VersionConflict(c, now));
      } else if v.value {
        var e := CreateEvent(kind, c);
        var applied := aggregateFactory.Apply(a, e);
        aggregates' := aggregates + [applied];
      } else {
        // PageCreateHandler's `validateCommand` returns true or throws, so its
        // "Invalid Command" branch is never taken.
        assert false;
      }
    }

    /**
      `__invoke`: `aggregates` is the caller's list, passed by reference; the
      new list is returned. A validation exception is returned as `uncaught`.
    */
    method Invoke(c: Command, aggregates: seq<Aggregate>, now: Time) returns (aggregates': seq<Aggregate>, uncaught: Option<ValidationError>)
      requires aggregateFactory.messageBus == messageBus
      modifies messageBus
      ensures var b := AggregateFor(aggregateFactory.StoresOf(), c, now);
              var o := InvokeSpec(kind, b.state, c, now);
              && uncaught == o.uncaught
              && messageBus.messages == old(messageBus.messages) + b.messages + o.messages
              && (o.appended.None? ==> aggregates' == aggregates)
              && (o.appended.Some? ==>
                    && |aggregates'| == |aggregates| + 1
                    && aggregates' == aggregates + [aggregates'[|aggregates|]]
                    && fresh(aggregates'[|aggregates|])
                    && aggregates'[|aggregates|].State() == o.appended.value)
    {
      var a := GetAggregate(c, now);
      aggregates', uncaught := Decide(c, a, aggregates, now);
    }
  }
}
