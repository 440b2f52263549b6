/**
  The command bus: `execute` builds a command against the aggregate's
  current version, `dispatch` resolves the command's handler, lets it
  validate the command and record an event on the aggregate, publishes the
  aggregates' pending events, and answers whether the command was accepted:
  the first message logged for the command has code OK.
*/
module CommandBusService {
  import opened Wrappers
  import opened Values
  import opened Classes
  import opened Events
  import Codes
  import opened Messages
  import opened MessageBusService
  import opened Commands
  import opened Aggregates
  import opened StreamObjects
  import opened EventStoreService
  import opened HandlerKinds
  import opened AggregateFactoryService
  import opened HandlerService
  import opened EventBusService

  // ---------------------------------------------------------------------------
  // The verdict

  /** "The command was accepted": the first message correlated to it exists and has code OK. */
  predicate Accepted(ms: seq<Message>, commandUuid: string)
  {
    var own := ByCommand(ms, Some(commandUuid));
    own != [] && own[0].code == Codes.Code.Ok.Value()
  }

  /** A log in which no message is correlated to `u` contributes nothing to its filter. */
  lemma {:induction false} NoneCorrelated(s: seq<Message>, u: Option<string>)
    requires u.Some?
    requires forall m :: m in s ==> m.commandUuid.None?
    ensures ByCommand(s, u) == []
  {
    if s != [] {
      NoneCorrelated(s[1..], u);
    }
  }

  /**
    Messages correlated to no command (a failed flush, a listener exception,
    a class that is not an aggregate) never change the verdict, wherever they
    are logged.
  */
  lemma VerdictIgnoresUncorrelated(before: seq<Message>, noise: seq<Message>, after: seq<Message>, commandUuid: string)
    requires forall m :: m in noise ==> m.commandUuid.None?
    ensures Accepted(before + noise + after, commandUuid) == Accepted(before + after, commandUuid)
  {
    var u := Some(commandUuid);
    ByCommandAppendSeq(before + noise, after, u);
    ByCommandAppendSeq(before, noise, u);
    ByCommandAppendSeq(before, after, u);
    NoneCorrelated(noise, u);
    assert ByCommand(before, u) + [] == ByCommand(before, u);
  }

  /**
    With nothing logged for the command before, and only uncorrelated
    messages around it, the verdict is decided by `own` alone.
  */
  lemma VerdictOfParts(prior: seq<Message>, built: seq<Message>, handled: seq<Message>, published: seq<Message>,
                       rest: seq<Message>, commandUuid: string)
    requires ByCommand(prior, Some(commandUuid)) == []
    requires forall m :: m in built ==> m.commandUuid.None?
    requires forall m :: m in rest ==> m.commandUuid.None?
    ensures Accepted(prior + built + handled + published + rest, commandUuid) == Accepted(handled + published, commandUuid)
  {
    var own := handled + published;
    assert prior + built + handled + published + rest == prior + built + own + rest;
    VerdictIgnoresUncorrelated(prior + built + own, rest, [], commandUuid);
    assert prior + built + own + rest + [] == prior + built + own + rest;
    assert prior + built + own + [] == prior + built + own;
    VerdictIgnoresUncorrelated(prior, built, own, commandUuid);
    ByCommandAppendSeq(prior, own, Some(commandUuid));
    assert ByCommand(prior, Some(commandUuid)) + ByCommand(own, Some(commandUuid)) == ByCommand(own, Some(commandUuid));
  }

  // ---------------------------------------------------------------------------
  // handleCommand

  /** The message a caught validation exception becomes: correlated to the exception's command. */
  function ValidationMessage(err: ValidationError, now: Time): (m: Message)
    ensures m.text == err.text && m.code == err.code && m.exception == Some(CommandValidationException)
    ensures m.commandUuid == Some(err.command.uuid) && m.aggregateUuid == Some(err.command.aggregateUuid)
  {
    Message(err.text, err.code, Some(err.command.uuid), Some(err.command.aggregateUuid), now, Some(CommandValidationException))
  }

  /** What `handleCommand` does, on values: the aggregate it keeps (if any) and the messages it logs. */
  datatype Handled = Handled(appended: Option<AggState>, messages: seq<Message>)

  /**
    `handleCommand` once the aggregate `s` is built. A validation exception is
    caught, logged, and counts as an invalid command; then a version mismatch
    is logged as CONFLICT; a valid command's event is applied and the
    aggregate kept; an invalid one is logged as BAD_REQUEST.
  */
  function HandleSpec(k: HandlerKind, s: AggState, c: Command, now: Time): (h: Handled)
    ensures forall m :: m in h.messages ==> m.commandUuid == Some(c.uuid)
    ensures h.appended.Some? ==> h.messages == []
  {
    var v := ValidateCommand(k, c, s);
    var caught := if v.Err? then [ValidationMessage(v.error, now)] else [];
    if s.version != c.onVersion then Handled(None, caught + [VersionConflict(c, now)])
    else if v == Ok(true) then Handled(Some(ApplySpec(s, CreateEvent(k, c))), caught)
    else Handled(None, caught + [InvalidCommand(c, now)])
  }

  /** The pending events of the aggregates kept, in order. */
  function AllPending(states: seq<AggState>): seq<Event>
    decreases |states|
  {
    if states == [] then [] else AllPending(states[..|states| - 1]) + states[|states| - 1].pendingEvents
  }

  /** The events `dispatch` publishes after `handleCommand`. */
  function PendingOf(h: Handled): (es: seq<Event>)
    ensures es == AllPending(if h.appended.Some? then [h.appended.value] else [])
  {
    if h.appended.Some? then
      assert [h.appended.value][..0] == [];
      h.appended.value.pendingEvents
    else []
  }

  /** The message logged when the command's handler class does not implement the handler interface. */
  function HandlerMissing(c: Command, now: Time): (m: Message)
    ensures m.code == Codes.Code.Error.Value() && m.exception == Some(InterfaceException)
    ensures m.commandUuid == Some(c.uuid) && m.aggregateUuid == Some(c.aggregateUuid)
  {
    Message(Name(c.commandClass.handlerClass) + " must implement " + HANDLER_INTERFACE, Codes.Code.Error.Value(),
            Some(c.uuid), Some(c.aggregateUuid), now, Some(InterfaceException))
  }

  /** What the handler makes of a built aggregate, by the command's outcome. */
  lemma {:induction false} HandleOutcomes(k: HandlerKind, s: AggState, c: Command, now: Time)
    requires s.pendingEvents == []
    ensures var h := HandleSpec(k, s, c, now);
            && (h.appended.Some? <==> ValidateCommand(k, c, s) == Ok(true) && s.version == c.onVersion)
            && (h.appended.Some? ==> PendingOf(h) == [CreateEvent(k, c)] && h.appended.value.version == c.onVersion + 1)
            && (h.appended.None? ==> h.messages != [] && PendingOf(h) == []
                                     && h.messages[0].code != Codes.Code.Ok.Value())
  {
    var v := ValidateCommand(k, c, s);
    if v.Err? {
      assert v.error.code == Codes.Code.BadRequest.Value() || v.error.code == Codes.Code.Conflict.Value();
    }
  }

  /** A kept aggregate: the only message for the command is the OK of its published event. */
  lemma KeptVerdict(k: HandlerKind, s: AggState, c: Command, queueEvents: bool, now: Time)
    requires s.pendingEvents == []
    requires ValidateCommand(k, c, s) == Ok(true) && s.version == c.onVersion
    ensures var h := HandleSpec(k, s, c, now);
            Accepted(h.messages + PublishMessages(PendingOf(h), queueEvents, now), c.uuid)
  {
    var h := HandleSpec(k, s, c, now);
    var first := PublishMessage(CreateEvent(k, c), queueEvents, now);
    assert PendingOf(h) == [CreateEvent(k, c)];
    assert h.messages + PublishMessages(PendingOf(h), queueEvents, now) == [] + [first];
    ByCommandAppend([], first, Some(c.uuid));
  }

  /** A refused command: the first message for it is its refusal, whose code is not OK. */
  lemma RefusedVerdict(k: HandlerKind, s: AggState, c: Command, queueEvents: bool, now: Time)
    requires s.pendingEvents == []
    requires !(ValidateCommand(k, c, s) == Ok(true) && s.version == c.onVersion)
    ensures var h := HandleSpec(k, s, c, now);
            !Accepted(h.messages + PublishMessages(PendingOf(h), queueEvents, now), c.uuid)
  {
    var h := HandleSpec(k, s, c, now);
    HandleOutcomes(k, s, c, now);
    assert h.messages + PublishMessages(PendingOf(h), queueEvents, now) == h.messages;
    var first := h.messages[0];
    ByCommandAppendSeq([first], h.messages[1..], Some(c.uuid));
    assert [first] + h.messages[1..] == h.messages;
    ByCommandAppend([], first, Some(c.uuid));
    assert [] + [first] == [first];
  }

  /** What the handler and publishing log for the command decide the verdict on their own. */
  lemma OwnVerdict(k: HandlerKind, s: AggState, c: Command, queueEvents: bool, now: Time)
    requires s.pendingEvents == []
    ensures var h := HandleSpec(k, s, c, now);
            Accepted(h.messages + PublishMessages(PendingOf(h), queueEvents, now), c.uuid)
            <==> ValidateCommand(k, c, s) == Ok(true) && s.version == c.onVersion
  {
    if ValidateCommand(k, c, s) == Ok(true) && s.version == c.onVersion {
      KeptVerdict(k, s, c, queueEvents, now);
    } else {
      RefusedVerdict(k, s, c, queueEvents, now);
    }
  }

  /**
    The verdict once the aggregate `s` is built with no pending events, with
    nothing logged for the command before and only uncorrelated messages
    logged by `build` and after publishing: accepted exactly when the command
    is valid for `s` and targets its version.
  */
  lemma HandledVerdict(k: HandlerKind, s: AggState, c: Command, queueEvents: bool, now: Time,
                       prior: seq<Message>, built: seq<Message>, rest: seq<Message>)
    requires s.pendingEvents == []
    requires ByCommand(prior, Some(c.uuid)) == []
    requires forall m :: m in built ==> m.commandUuid.None?
    requires forall m :: m in rest ==> m.commandUuid.None?
    ensures var h := HandleSpec(k, s, c, now);
            Accepted(prior + built + h.messages + PublishMessages(PendingOf(h), queueEvents, now) + rest, c.uuid)
            <==> ValidateCommand(k, c, s) == Ok(true) && s.version == c.onVersion
  {
    var h := HandleSpec(k, s, c, now);
    var tail := h.messages + PublishMessages(PendingOf(h), queueEvents, now);
    assert Accepted(tail, c.uuid) <==> ValidateCommand(k, c, s) == Ok(true) && s.version == c.onVersion by {
      OwnVerdict(k, s, c, queueEvents, now);
    }
    VerdictOfParts(prior, built, h.messages, PublishMessages(PendingOf(h), queueEvents, now), rest, c.uuid);
  }

  /**
    The verdict of `dispatch` for a resolved handler, with nothing logged for
    the command before: accepted exactly when the command is valid for the
    aggregate as `build` gives it and targets that aggregate's version, whatever
    uncorrelated messages (a failed flush, a listener exception) follow.
  */
  lemma DispatchAcceptedIff(k: HandlerKind, st: Stores, c: Command, queueEvents: bool, now: Time,
                            prior: seq<Message>, rest: seq<Message>)
    requires ByCommand(prior, Some(c.uuid)) == []
    requires forall m :: m in rest ==> m.commandUuid.None?
    ensures var b := AggregateFor(st, c, now);
            var h := HandleSpec(k, b.state, c, now);
            Accepted(prior + b.messages + h.messages + PublishMessages(PendingOf(h), queueEvents, now) + rest, c.uuid)
            <==> ValidateCommand(k, c, b.state) == Ok(true) && b.state.version == c.onVersion
  {
    var b := AggregateFor(st, c, now);
    assert forall m :: m in b.messages ==> m.commandUuid.None?;
    HandledVerdict(k, b.state, c, queueEvents, now, prior, b.messages, rest);
  }

  /**
    A refused page-create command's first message says why: BAD_REQUEST when
    its title is empty, CONFLICT otherwise (the page exists, or the command
    targets another version).
  */
  lemma RefusalCode(s: AggState, c: Command, now: Time)
    requires !(ValidateCommand(PageCreateHandler, c, s) == Ok(true) && s.version == c.onVersion)
    ensures var h := HandleSpec(PageCreateHandler, s, c, now);
            && h.messages != []
            && h.messages[0].code == if IsEmptyValue(Title(c.payload)) then Codes.Code.BadRequest.Value() else Codes.Code.Conflict.Value()
  {
  }

  /**
    For the page-create handler, a command is accepted exactly when its title
    is not empty and both the aggregate and the command's target version are 0:
    creating an existing page is refused.
  */
  lemma PageCreateAcceptedIff(st: Stores, c: Command, now: Time)
    ensures var s := AggregateFor(st, c, now).state;
            ValidateCommand(PageCreateHandler, c, s) == Ok(true) && s.version == c.onVersion
            <==> !IsEmptyValue(Title(c.payload)) && s.version == 0 && c.onVersion == 0
  {
  }

  // ---------------------------------------------------------------------------
  // dispatch and execute on values

  /** What `dispatch` leaves: the event store's tables, the notifications it adds and the messages it logs. */
  datatype Outcome = Outcome(tables: Tables, notified: seq<Dispatched>, logged: seq<Message>)

  /**
    `dispatch` for a resolved handler, on values: the command is handled on
    the aggregate built for its user, and the kept events are staged behind
    what was already staged, flushed, and passed to the listeners.
  */
  function HandledOutcome(k: HandlerKind, st: Stores, t: Tables, staged: seq<Change>, c: Command, queueEvents: bool,
                          now: Time, listenerFault: Dispatched -> Option<Fault>, flushFault: Fault): Outcome
  {
    var b := AggregateFor(st, c, now);
    var h := HandleSpec(k, b.state, c, now);
    var events := PendingOf(h);
    var fl := Flush(t, staged + StagedChanges(events, queueEvents, now));
    var d := PublishDispatch(events, queueEvents, now, listenerFault);
    Outcome(fl.0, d.0, b.messages + h.messages + PublishMessages(events, queueEvents, now)
                       + (Reported(FlushFault(fl.1, flushFault), StoreException, now) + Reported(d.1, ListenerException, now)))
  }

  /**
    `dispatch` on values: a handler class that does not resolve is logged and
    nothing else happens; otherwise `HandledOutcome`.
  */
  function DispatchSpec(st: Stores, t: Tables, staged: seq<Change>, c: Command, queueEvents: bool, now: Time,
                        listenerFault: Dispatched -> Option<Fault>, flushFault: Fault): (o: Outcome)
    ensures Resolve(c.commandClass.handlerClass).None? ==> o == Outcome(t, [], [HandlerMissing(c, now)])
  {
    match Resolve(c.commandClass.handlerClass)
    case None => Outcome(t, [], [HandlerMissing(c, now)])
    case Some(k) => HandledOutcome(k, st, t, staged, c, queueEvents, now, listenerFault, flushFault)
  }

  /** Regrouping a log assembled from five parts. */
  lemma LogRegroup(prior: seq<Message>, built: seq<Message>, handled: seq<Message>, published: seq<Message>,
                   rest: seq<Message>)
    ensures prior + (built + handled + published + rest) == prior + built + handled + published + rest
  {
  }

  /** The same, with the last part in two pieces. */
  lemma LogRegroupSplit(prior: seq<Message>, built: seq<Message>, handled: seq<Message>, published: seq<Message>,
                        r1: seq<Message>, r2: seq<Message>)
    ensures prior + (built + handled + published + (r1 + r2)) == prior + built + handled + published + r1 + r2
  {
  }

  /**
    The verdict of `dispatch`: accepted iff the handler class resolves and the
    aggregate built for the command's user validates it and has its target
    version. A missing handler is refused; the store and the listeners never
    change the verdict.
  */
  lemma DispatchVerdict(st: Stores, t: Tables, staged: seq<Change>, c: Command, queueEvents: bool, now: Time,
                        listenerFault: Dispatched -> Option<Fault>, flushFault: Fault, prior: seq<Message>)
    requires ByCommand(prior, Some(c.uuid)) == []
    ensures var o := DispatchSpec(st, t, staged, c, queueEvents, now, listenerFault, flushFault);
            var k := Resolve(c.commandClass.handlerClass);
            var b := AggregateFor(st, c, now);
            Accepted(prior + o.logged, c.uuid)
            <==> k.Some? && ValidateCommand(k.value, c, b.state) == Ok(true) && b.state.version == c.onVersion
  {
    match Resolve(c.commandClass.handlerClass)
    case None =>
      ByCommandAppend(prior, HandlerMissing(c, now), Some(c.uuid));
    case Some(k) =>
      HandledOutcomeVerdict(k, st, t, staged, c, queueEvents, now, listenerFault, flushFault, prior);
  }

  /** `DispatchVerdict` for a resolved handler. */
  lemma HandledOutcomeVerdict(k: HandlerKind, st: Stores, t: Tables, staged: seq<Change>, c: Command, queueEvents: bool,
                              now: Time, listenerFault: Dispatched -> Option<Fault>, flushFault: Fault, prior: seq<Message>)
    requires ByCommand(prior, Some(c.uuid)) == []
    ensures var b := AggregateFor(st, c, now);
            Accepted(prior + HandledOutcome(k, st, t, staged, c, queueEvents, now, listenerFault, flushFault).logged, c.uuid)
            <==> ValidateCommand(k, c, b.state) == Ok(true) && b.state.version == c.onVersion
  {
    var b := AggregateFor(st, c, now);
    var h := HandleSpec(k, b.state, c, now);
    var events := PendingOf(h);
    var fl := Flush(t, staged + StagedChanges(events, queueEvents, now));
    var d := PublishDispatch(events, queueEvents, now, listenerFault);
    var rest := Reported(FlushFault(fl.1, flushFault), StoreException, now) + Reported(d.1, ListenerException, now);
    var logged := HandledOutcome(k, st, t, staged, c, queueEvents, now, listenerFault, flushFault).logged;
    var pm := PublishMessages(events, queueEvents, now);
    assert logged == b.messages + h.messages + pm + rest;
    LogRegroup(prior, b.messages, h.messages, pm, rest);
    DispatchAcceptedIff(k, st, c, queueEvents, now, prior, rest);
  }

  /** The user `execute` builds the aggregate for: the given one only when queueing for a real user (-1 is none). */
  function ExecuteUser(user: int, queueEvents: bool): (u: Option<int>)
    ensures u.Some? <==> queueEvents && user != -1
    ensures u.Some? ==> u.value == user
  {
    if queueEvents && user != -1 then Some(user) else None
  }

  /** What `execute` builds before it creates the command. */
  function ExecuteBuild(st: Stores, cc: CommandClass, aggregateUuid: string, user: int, queueEvents: bool, now: Time): Built
  {
    BuildSpec(st, aggregateUuid, cc.aggregateClass, None, ExecuteUser(user, queueEvents), now)
  }

  /** The command `execute` dispatches: a fresh uuid, targeting the version of the aggregate `execute` built. */
  function ExecutedCommand(st: Stores, cc: CommandClass, aggregateUuid: string, payload: Payload, user: int,
                           queueEvents: bool, freshUuid: string, now: Time): (c: Command)
    ensures c.uuid == freshUuid && c.commandClass == cc && c.user == user
    ensures c.aggregateUuid == aggregateUuid && c.payload == payload && c.listener.None?
  {
    NewCommand(cc, user, Some(freshUuid), freshUuid, aggregateUuid,
               ExecuteBuild(st, cc, aggregateUuid, user, queueEvents, now).state.version, payload, None)
  }

  /**
    `handleCommand` builds for the command's user whatever `execute` did. So
    the command `execute` sends targets the version `handleCommand` finds iff
    the class is not an aggregate, `execute` built for the user, or the user
    has no queued rows above the canonical version.
  */
  lemma ExecuteTargetsHandledVersion(st: Stores, cc: CommandClass, aggregateUuid: string, payload: Payload, user: int,
                                     queueEvents: bool, freshUuid: string, now: Time)
    ensures var c := ExecutedCommand(st, cc, aggregateUuid, payload, user, queueEvents, freshUuid, now);
            var canonical := CanonicalState(st, aggregateUuid, cc.aggregateClass, None).version;
            AggregateFor(st, c, now).state.version == c.onVersion
            <==> || !ImplementsAggregate(cc.aggregateClass)
                 || ExecuteUser(user, queueEvents).Some?
                 || QueuedRows(st, aggregateUuid, None, user, canonical) == []
  {
    var c := ExecutedCommand(st, cc, aggregateUuid, payload, user, queueEvents, freshUuid, now);
    if ImplementsAggregate(cc.aggregateClass) {
      BuildWatermark(st, aggregateUuid, cc.aggregateClass, None, Some(user), now);
      BuildWatermark(st, aggregateUuid, cc.aggregateClass, None, ExecuteUser(user, queueEvents), now);
    }
  }

  /**
    The verdict of `execute`: accepted iff the handler resolves, the aggregate
    `handleCommand` builds validates the command, and `execute` targeted the
    version `handleCommand` finds. In particular a user with queued rows is
    refused when `execute` is called without queueing.
  */
  lemma ExecuteVerdict(st: Stores, t: Tables, staged: seq<Change>, cc: CommandClass, aggregateUuid: string,
                       payload: Payload, user: int, queueEvents: bool, freshUuid: string, now: Time,
                       listenerFault: Dispatched -> Option<Fault>, flushFault: Fault, prior: seq<Message>)
    requires ByCommand(prior, Some(freshUuid)) == []
    ensures var c := ExecutedCommand(st, cc, aggregateUuid, payload, user, queueEvents, freshUuid, now);
            var o := DispatchSpec(st, t, staged, c, queueEvents, now, listenerFault, flushFault);
            var k := Resolve(cc.handlerClass);
            var canonical := CanonicalState(st, aggregateUuid, cc.aggregateClass, None).version;
            Accepted(prior + ExecuteBuild(st, cc, aggregateUuid, user, queueEvents, now).messages + o.logged, freshUuid)
            <==> && k.Some?
                 && ValidateCommand(k.value, c, AggregateFor(st, c, now).state) == Ok(true)
                 && (|| !ImplementsAggregate(cc.aggregateClass)
                     || ExecuteUser(user, queueEvents).Some?
                     || QueuedRows(st, aggregateUuid, None, user, canonical) == [])
  {
    var c := ExecutedCommand(st, cc, aggregateUuid, payload, user, queueEvents, freshUuid, now);
    var built := ExecuteBuild(st, cc, aggregateUuid, user, queueEvents, now).messages;
    assert ByCommand(built, Some(freshUuid)) == [] by {
      assert forall m :: m in built ==> m.commandUuid.None?;
      NoneCorrelated(built, Some(freshUuid));
    }
    ByCommandAppendSeq(prior, built, Some(freshUuid));
    assert prior + built + DispatchSpec(st, t, staged, c, queueEvents, now, listenerFault, flushFault).logged
        == (prior + built) + DispatchSpec(st, t, staged, c, queueEvents, now, listenerFault, flushFault).logged;
    DispatchVerdict(st, t, staged, c, queueEvents, now, listenerFault, flushFault, prior + built);
    ExecuteTargetsHandledVersion(st, cc, aggregateUuid, payload, user, queueEvents, freshUuid, now);
  }

  // ---------------------------------------------------------------------------
  // The bus

  class CommandBus {
    const eventBus: EventBus
    const messageBus: MessageBus
    const aggregateFactory: AggregateFactory
    /** The aggregates the current command's handler produced events on. */
    var aggregates: seq<Aggregate>

    /** The services share one message bus and one event store, as the container wires them. */
    predicate Valid()
      reads eventBus.eventStore
    {
      && eventBus.messageBus == messageBus
      && eventBus.eventStore.messageBus == messageBus
      && aggregateFactory.messageBus == messageBus
      && aggregateFactory.eventStore == eventBus.eventStore
      && eventBus.eventStore.Valid()
    }

    constructor (events: EventBus, bus: MessageBus, factory: AggregateFactory)
      ensures eventBus == events && messageBus == bus && aggregateFactory == factory && aggregates == []
    {
      eventBus, messageBus, aggregateFactory := events, bus, factory;
      aggregates := [];
    }

    /** The part of `handleCommand` after `build`: validate, compare versions, then apply and keep, or log. */
    method HandleBuilt(k: HandlerKind, c: Command, a: Aggregate, now: Time)
      modifies this, messageBus, a
      ensures var h := HandleSpec(k, old(a.State()), c, now);
              && messageBus.messages == old(messageBus.messages) + h.messages
              && (h.appended.None? ==> aggregates == old(aggregates))
              && (h.appended.Some? ==> aggregates == old(aggregates) + [a] && a.State() == h.appended.value)
    {
      var v := ValidateCommand(k, c, a.State());
      var validCommand := false;
      if v.Err? {
        messageBus.Dispatch(ValidationMessage(v.error, now));
      } else {
        validCommand := v.value;
      }
      if a.version != c.onVersion {
        messageBus.Dispatch(VersionConflict(c, now));
      } else if validCommand {
        var e := CreateEvent(k, c);
        var applied := aggregateFactory.Apply(a, e);
        aggregates := aggregates + [applied];
      } else {
        messageBus.Dispatch(InvalidCommand(c, now));
      }
    }

    /** `handleCommand`: builds the command's aggregate for the command's user, then `HandleBuilt`. */
    method HandleCommand(k: HandlerKind, c: Command, now: Time)
      requires aggregateFactory.messageBus == messageBus
      modifies this, messageBus
      ensures var b := AggregateFor(aggregateFactory.StoresOf(), c, now);
              var h := HandleSpec(k, b.state, c, now);
              && messageBus.messages == old(messageBus.messages) + b.messages + h.messages
              && (h.appended.None? ==> aggregates == old(aggregates))
              && (h.appended.Some? ==>
                    && |aggregates| == |old(aggregates)| + 1
                    && aggregates == old(aggregates) + [aggregates[|old(aggregates)|]]
                    && fresh(aggregates[|old(aggregates)|])
                    && aggregates[|old(aggregates)|].State() == h.appended.value)
    {
      var a := aggregateFactory.Build(c.aggregateUuid, c.commandClass.aggregateClass, None, Some(c.user), now);
      HandleBuilt(k, c, a, now);
    }

    /** `dispatch`'s loop: the pending events of every kept aggregate, in order. */
    method GatherPending() returns (events: seq<Event>)
      ensures events == AllPending(StatesOf(aggregates))
    {
      events := [];
      var i := 0;
      while i < |aggregates|
        invariant 0 <= i <= |aggregates|
        invariant events == AllPending(StatesOf(aggregates[..i]))
      {
        assert aggregates[..i + 1][..i] == aggregates[..i];
        events := events + aggregates[i].pendingEvents;
        i := i + 1;
      }
      assert aggregates[..i] == aggregates;
    }

    /**
      `dispatch` for a resolved handler: reset the kept aggregates, handle the
      command, publish the kept aggregates' pending events.
    */
    method HandleAndPublish(k: HandlerKind, c: Command, queueEvents: bool, now: Time)
      requires Valid()
      modifies this, messageBus, eventBus, eventBus.eventStore
      ensures Valid()
      ensures var b := AggregateFor(old(aggregateFactory.StoresOf()), c, now);
              var h := HandleSpec(k, b.state, c, now);
              var events := PendingOf(h);
              var fl := Flush(old(eventBus.eventStore.TablesOf()), old(eventBus.eventStore.staged) + StagedChanges(events, queueEvents, now));
              var d := PublishDispatch(events, queueEvents, now, eventBus.dispatchFault);
              && eventBus.eventStore.TablesOf() == fl.0
              && eventBus.notifications == old(eventBus.notifications) + d.0
              && messageBus.messages == old(messageBus.messages) + b.messages + h.messages
                   + PublishMessages(events, queueEvents, now)
                   + Reported(FlushFault(fl.1, eventBus.eventStore.flushFault), StoreException, now)
                   + Reported(d.1, ListenerException, now)
    {
      ghost var st := aggregateFactory.StoresOf();
      ghost var logged := messageBus.messages;
      aggregates := [];
      HandleCommand(k, c, now);
      ghost var b := AggregateFor(st, c, now);
      ghost var h := HandleSpec(k, b.state, c, now);
      assert messageBus.messages == logged + b.messages + h.messages;
      var events := GatherPending();
      assert events == PendingOf(h) by {
        if h.appended.Some? {
          assert StatesOf(aggregates) == [h.appended.value] by {
            assert aggregates[..0] == [];
          }
        }
      }
      eventBus.Publish(events, queueEvents, now);
    }

    /**
      `dispatch`: a handler class that does not implement the handler
      interface is logged as an InterfaceException; otherwise the command is
      handled and its events published. The result is the verdict on the
      whole log.
    */
    method Dispatch(c: Command, queueEvents: bool, now: Time) returns (accepted: bool)
      requires Valid()
      modifies this, messageBus, eventBus, eventBus.eventStore
      ensures Valid()
      ensures accepted == Accepted(messageBus.messages, c.uuid)
      ensures var o := DispatchSpec(old(aggregateFactory.StoresOf()), old(eventBus.eventStore.TablesOf()),
                                    old(eventBus.eventStore.staged), c, queueEvents, now,
                                    eventBus.dispatchFault, eventBus.eventStore.flushFault);
              && eventBus.eventStore.TablesOf() == o.tables
              && eventBus.notifications == old(eventBus.notifications) + o.notified
              && messageBus.messages == old(messageBus.messages) + o.logged
    {
      ghost var st, t, staged := aggregateFactory.StoresOf(), eventBus.eventStore.TablesOf(), eventBus.eventStore.staged;
      ghost var notified, logged := eventBus.notifications, messageBus.messages;
      var handler := Resolve(c.commandClass.handlerClass);
      if handler.None? {
        aggregates := [];
        messageBus.Dispatch(HandlerMissing(c, now));
      } else {
        HandleAndPublish(handler.value, c, queueEvents, now);
        ghost var o := HandledOutcome(handler.value, st, t, staged, c, queueEvents, now,
                                      eventBus.dispatchFault, eventBus.eventStore.flushFault);
        ghost var b := AggregateFor(st, c, now);
        ghost var h := HandleSpec(handler.value, b.state, c, now);
        ghost var events := PendingOf(h);
        ghost var fl := Flush(t, staged + StagedChanges(events, queueEvents, now));
        ghost var d := PublishDispatch(events, queueEvents, now, eventBus.dispatchFault);
        ghost var r1 := Reported(FlushFault(fl.1, eventBus.eventStore.flushFault), StoreException, now);
        ghost var r2 := Reported(d.1, ListenerException, now);
        ghost var pm := PublishMessages(events, queueEvents, now);
        assert o.logged == b.messages + h.messages + pm + (r1 + r2);
        LogRegroupSplit(logged, b.messages, h.messages, pm, r1, r2);
        assert eventBus.eventStore.TablesOf() == o.tables;
        assert eventBus.notifications == notified + o.notified;
        assert messageBus.messages == logged + o.logged;
      }
      var own := messageBus.GetMessagesByCommand(Some(c.uuid));
      accepted := own != [] && own[0].code == Codes.Code.Ok.Value();
    }

    /**
      `execute`: a class that is not a command is an InterfaceException the
      caller receives. Otherwise the aggregate is built (for the user only
      when queueing for a real user) and a command for its current version,
      with a freshly generated uuid, is dispatched.
    */
    method Execute(commandClass: ClassName, aggregateUuid: string, payload: Payload, user: int, queueEvents: bool,
                   freshUuid: string, now: Time) returns (r: Result<bool, Fault>)
      requires Valid()
      modifies this, messageBus, eventBus, eventBus.eventStore
      ensures Valid()
      ensures r.Err? <==> AsCommandClass(commandClass).None?
      ensures r.Err? ==> r.error == Fault(Name(commandClass) + " must implement " + COMMAND_INTERFACE, Codes.Code.Error.Value())
      ensures r.Err? ==> messageBus.messages == old(messageBus.messages)
                         && eventBus.eventStore.TablesOf() == old(eventBus.eventStore.TablesOf())
      ensures r.Ok? ==>
                var st := old(aggregateFactory.StoresOf());
                var cc := AsCommandClass(commandClass).value;
                var c := ExecutedCommand(st, cc, aggregateUuid, payload, user, queueEvents, freshUuid, now);
                var o := DispatchSpec(st, old(eventBus.eventStore.TablesOf()), old(eventBus.eventStore.staged), c,
                                      queueEvents, now, eventBus.dispatchFault, eventBus.eventStore.flushFault);
                && eventBus.eventStore.TablesOf() == o.tables
                && eventBus.notifications == old(eventBus.notifications) + o.notified
                && messageBus.messages == old(messageBus.messages)
                     + ExecuteBuild(st, cc, aggregateUuid, user, queueEvents, now).messages + o.logged
                && r.value == Accepted(messageBus.messages, freshUuid)
    {
      var cc := AsCommandClass(commandClass);
      if cc.None? {
        return Err(Fault(Name(commandClass) + " must implement " + COMMAND_INTERFACE, Codes.Code.Error.Value()));
      }
      ghost var st, t, staged := aggregateFactory.StoresOf(), eventBus.eventStore.TablesOf(), eventBus.eventStore.staged;
      ghost var logged := messageBus.messages;
      var a: Aggregate;
      if queueEvents && user != -1 {
        a := aggregateFactory.Build(aggregateUuid, cc.value.aggregateClass, None, Some(user), now);
      } else {
        a := aggregateFactory.Build(aggregateUuid, cc.value.aggregateClass, None, None, now);
      }
      var command := NewCommand(cc.value, user, Some(freshUuid), freshUuid, aggregateUuid, a.version, payload, None);
      ghost var built := ExecuteBuild(st, cc.value, aggregateUuid, user, queueEvents, now).messages;
      assert messageBus.messages == logged + built;
      assert command == ExecutedCommand(st, cc.value, aggregateUuid, payload, user, queueEvents, freshUuid, now);
      assert aggregateFactory.StoresOf() == st && eventBus.eventStore.TablesOf() == t && eventBus.eventStore.staged == staged;
      var accepted := Dispatch(command, queueEvents, now);
      r := Ok(accepted);
    }
  }
}
