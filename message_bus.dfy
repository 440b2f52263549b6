/**
  The in-process message log of one request: an append-only list with two
  order-preserving filters, by command and by aggregate.
*/
module MessageBusService {
  import opened Wrappers
  import opened Messages

  /** The elements of `s` that satisfy `p`, in their order in `s`. */
  function Keep(s: seq<Message>, p: Message -> bool): (r: seq<Message>)
    ensures |r| <= |s|
  {
    if s == [] then []
    else
      var rest := Keep(s[1..], p);
      if p(s[0]) then [s[0]] + rest else rest
  }

  /** The kept messages are exactly those of `s` that satisfy `p`, each as often as in `s`. */
  lemma {:induction false} KeepCounts(s: seq<Message>, p: Message -> bool)
    ensures forall i :: 0 <= i < |Keep(s, p)| ==> p(Keep(s, p)[i])
    ensures forall m :: multiset(Keep(s, p))[m] == if p(m) then multiset(s)[m] else 0
  {
    if s != [] {
      KeepCounts(s[1..], p);
      assert s == [s[0]] + s[1..];
    }
  }

  /** Keeping distributes over concatenation: filtering a longer log extends the earlier result. */
  lemma {:induction false} KeepAppend(a: seq<Message>, b: seq<Message>, p: Message -> bool)
    ensures Keep(a + b, p) == Keep(a, p) + Keep(b, p)
  {
    if a == [] {
      assert a + b == b;
    } else {
      assert (a + b)[1..] == a[1..] + b;
      KeepAppend(a[1..], b, p);
    }
  }

  /** Correlation tests, compared with `===`, so a null argument matches the uncorrelated messages. */
  function CommandIs(c: Option<string>): Message -> bool
  {
    (m: Message) => m.commandUuid == c
  }

  function AggregateIs(a: Option<string>): Message -> bool
  {
    (m: Message) => m.aggregateUuid == a
  }

  /** The messages correlated to command `c`. */
  function ByCommand(s: seq<Message>, c: Option<string>): seq<Message>
  {
    Keep(s, CommandIs(c))
  }

  /** The messages correlated to aggregate `a`. */
  function ByAggregate(s: seq<Message>, a: Option<string>): seq<Message>
  {
    Keep(s, AggregateIs(a))
  }

  /**
    Appending a message to the log extends the command filter by exactly that
    message when it is correlated to the command, and leaves it alone otherwise.
  */
  lemma ByCommandAppend(s: seq<Message>, m: Message, c: Option<string>)
    ensures ByCommand(s + [m], c) == ByCommand(s, c) + (if m.commandUuid == c then [m] else [])
  {
    KeepAppend(s, [m], CommandIs(c));
    assert Keep([m], CommandIs(c)) == (if m.commandUuid == c then [m] else []) by {
      assert [m][1..] == [];
    }
  }

  /** Appending a message extends the aggregate filter by that message exactly when it is correlated. */
  lemma ByAggregateAppend(s: seq<Message>, m: Message, a: Option<string>)
    ensures ByAggregate(s + [m], a) == ByAggregate(s, a) + (if m.aggregateUuid == a then [m] else [])
  {
    KeepAppend(s, [m], AggregateIs(a));
    assert Keep([m], AggregateIs(a)) == (if m.aggregateUuid == a then [m] else []) by {
      assert [m][1..] == [];
    }
  }

  /** The same for a batch: messages correlated to another command never enter the filter. */
  lemma ByCommandAppendSeq(s: seq<Message>, t: seq<Message>, c: Option<string>)
    ensures ByCommand(s + t, c) == ByCommand(s, c) + ByCommand(t, c)
  {
    KeepAppend(s, t, CommandIs(c));
  }

  class MessageBus {
    var messages: seq<Message>

    constructor ()
      ensures messages == []
    {
      messages := [];
    }

    /** Appends exactly one message at the end. */
    method Dispatch(m: Message)
      modifies this
      ensures messages == old(messages) + [m]
    {
      messages := messages + [m];
    }

    method Clear()
      modifies this
      ensures messages == []
    {
      messages := [];
    }

    /** Every message, in dispatch order. */
    method GetMessages() returns (r: seq<Message>)
      ensures |r| == |messages| && forall i :: 0 <= i < |r| ==> r[i] == messages[i]
    {
      r := messages;
    }

    /** The loop of the source, proved to compute the command filter; the log is only read. */
    method GetMessagesByCommand(c: Option<string>) returns (r: seq<Message>)
      ensures r == ByCommand(messages, c)
    {
      r := [];
      var i := 0;
      while i < |messages|
        invariant 0 <= i <= |messages|
        invariant r == ByCommand(messages[..i], c)
      {
        ByCommandAppend(messages[..i], messages[i], c);
        assert messages[..i + 1] == messages[..i] + [messages[i]];
        if messages[i].commandUuid == c {
          r := r + [messages[i]];
        }
        i := i + 1;
      }
      assert messages[..i] == messages;
    }

    /** The loop of the source, proved to compute the aggregate filter; the log is only read. */
    method GetMessagesByAggregate(a: Option<string>) returns (r: seq<Message>)
      ensures r == ByAggregate(messages, a)
    {
      r := [];
      var i := 0;
      while i < |messages|
        invariant 0 <= i <= |messages|
        invariant r == ByAggregate(messages[..i], a)
      {
        ByAggregateAppend(messages[..i], messages[i], a);
        assert messages[..i + 1] == messages[..i] + [messages[i]];
        if messages[i].aggregateUuid == a {
          r := r + [messages[i]];
        }
        i := i + 1;
      }
      assert messages[..i] == messages;
    }
  }
}
