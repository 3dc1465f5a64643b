/**
 Delivery of commands to the player: the handler's filter by schema, id and sequence
 number, and what it makes of a channel that loses, repeats or reorders messages.
 */
module Delivery {
  import opened Wrappers
  import opened Commands
  import IdMemory

  datatype Message = NotJson | Received(command: Command)

  datatype Handler = Handler(lastSequence: int, seen: seq<string>)

  const FRESH_HANDLER := Handler(-1, [])

  predicate Admits(h: Handler, m: Message) {
    && m.Received? && Valid(m.command)
    && m.command.commandId !in h.seen
    && m.command.sequenceNumber > h.lastSequence
  }

  function Handle(h: Handler, m: Message): Handler {
    if Admits(h, m)
    then Handler(m.command.sequenceNumber, IdMemory.Record(h.seen, m.command.commandId))
    else h
  }

  /** A new connection resets the sequence number but keeps the remembered ids. */
  function ResetSession(h: Handler): Handler {
    h.(lastSequence := -1)
  }

  /** The handler after the messages of one session, and the commands it dispatched. */
  datatype Outcome = Outcome(handler: Handler, dispatched: seq<Command>)

  function Session(start: Handler, messages: seq<Message>): Outcome {
    if messages == [] then Outcome(start, [])
    else
      var o := Session(start, messages[..|messages| - 1]);
      var m := messages[|messages| - 1];
      Outcome(Handle(o.handler, m), if Admits(o.handler, m) then o.dispatched + [m.command] else o.dispatched)
  }

  predicate SequenceIncreasing(s: seq<Command>) {
    forall i, j :: 0 <= i < j < |s| ==> s[i].sequenceNumber < s[j].sequenceNumber
  }

  /** Whatever arrives, one session dispatches commands of strictly increasing number,
      and only commands that arrived. */
  lemma {:induction false} SessionIncreasing(start: Handler, messages: seq<Message>)
    ensures var o := Session(start, messages);
            && SequenceIncreasing(o.dispatched)
            && (forall c :: c in o.dispatched ==>
                  Received(c) in messages && start.lastSequence < c.sequenceNumber <= o.handler.lastSequence)
            && start.lastSequence <= o.handler.lastSequence
  {
    if messages != [] {
      var before := messages[..|messages| - 1];
      SessionIncreasing(start, before);
      assert forall m :: m in before ==> m in messages;
    }
  }

  /** The channel may lose, repeat, reorder and corrupt: all it cannot do is invent commands. */
  ghost predicate CarriesOnly(messages: seq<Message>, log: seq<Command>) {
    forall m :: m in messages && m.Received? ==> m.command in log
  }

  /** Over any such channel, a session dispatches commands of the gateway's log, each at most
      once and in the gateway's order. */
  lemma AnyChannelAtMostOnceInOrder(attempts: seq<Attempt>, start: Handler, messages: seq<Message>)
    requires CarriesOnly(messages, TransmitAll(attempts).log)
    ensures var log := TransmitAll(attempts).log;
            var d := Session(start, messages).dispatched;
            && (forall k :: 0 <= k < |d| ==>
                  1 <= d[k].sequenceNumber <= |log| && d[k] == log[d[k].sequenceNumber - 1])
            && SequenceIncreasing(d)
  {
    NumberedWithoutGaps(attempts);
    SessionIncreasing(start, messages);
    var log := TransmitAll(attempts).log;
    forall c | c in Session(start, messages).dispatched
      ensures 1 <= c.sequenceNumber <= |log| && c == log[c.sequenceNumber - 1]
    {
      assert Received(c) in messages;
      var i :| 0 <= i < |log| && log[i] == c;
    }
  }

  // ---------- exactly which commands get through ----------

  predicate WellFormed(m: Message) {
    m.Received? && Valid(m.command)
  }

  /** The largest sequence number among the well-formed messages, or -1. */
  function Highest(messages: seq<Message>): int {
    if messages == [] then -1
    else
      var h, m := Highest(messages[..|messages| - 1]), messages[|messages| - 1];
      if WellFormed(m) && m.command.sequenceNumber > h then m.command.sequenceNumber else h
  }

  /** The messages whose number exceeds that of every well-formed message before them. */
  function Records(messages: seq<Message>): seq<Command> {
    if messages == [] then []
    else
      var before, m := messages[..|messages| - 1], messages[|messages| - 1];
      if WellFormed(m) && m.command.sequenceNumber > Highest(before)
      then Records(before) + [m.command] else Records(before)
  }

  /** Ids identify commands, and none of those delivered is remembered from earlier. */
  ghost predicate IdsFresh(start: Handler, messages: seq<Message>) {
    && (forall m :: m in messages && m.Received? ==> m.command.commandId !in start.seen)
    && (forall m, n :: m in messages && n in messages && m.Received? && n.Received?
                       && m.command.commandId == n.command.commandId
                       ==> m.command.sequenceNumber == n.command.sequenceNumber)
  }

  lemma {:induction false} HighestBounds(messages: seq<Message>)
    ensures Highest(messages) >= -1
    ensures forall m :: m in messages && WellFormed(m) ==> m.command.sequenceNumber <= Highest(messages)
  {
    if messages != [] {
      HighestBounds(messages[..|messages| - 1]);
    }
  }

  /** With fresh ids, a session dispatches exactly the messages that set a new record. */
  lemma {:induction false} SessionDispatchesRecords(start: Handler, messages: seq<Message>)
    requires start.lastSequence == -1 && IdsFresh(start, messages)
    ensures var o := Session(start, messages);
            && o.dispatched == Records(messages)
            && o.handler.lastSequence == Highest(messages)
            && forall id :: id in o.handler.seen ==>
                 id in start.seen || exists m :: m in messages && WellFormed(m) && m.command.commandId == id
  {
    if messages != [] {
      var before, m := messages[..|messages| - 1], messages[|messages| - 1];
      assert forall x :: x in before ==> x in messages;
      SessionDispatchesRecords(start, before);
      HighestBounds(before);
      var h := Session(start, before).handler;
      assert m in messages;
      forall id | id in Session(start, messages).handler.seen
        ensures id in start.seen || exists n :: n in messages && WellFormed(n) && n.command.commandId == id
      {
        if id in h.seen {
        } else {
          assert WellFormed(m) && m.command.commandId == id;
        }
      }
    }
  }

  /** What arrives when everything sent arrives once and in order. */
  function Carried(sent: seq<Command>): seq<Message> {
    seq(|sent|, i requires 0 <= i < |sent| => Received(sent[i]))
  }

  lemma CarriedFresh(start: Handler, sent: seq<Command>)
    requires IdsDistinct(sent) && forall c :: c in sent ==> c.commandId !in start.seen
    ensures IdsFresh(start, Carried(sent))
  {
    forall m | m in Carried(sent)
      ensures exists i :: 0 <= i < |sent| && m == Received(sent[i])
    {
    }
  }

  lemma OrderlyStreamIsDispatched(start: Handler, sent: seq<Command>, lo: nat)
    requires start.lastSequence == -1
    requires IdsDistinct(sent) && forall c :: c in sent ==> c.commandId !in start.seen
    requires forall i :: 0 <= i < |sent| ==> Valid(sent[i]) && sent[i].sequenceNumber == lo + i + 1
    ensures Session(start, Carried(sent)).dispatched == sent
  {
    CarriedFresh(start, sent);
    SessionDispatchesRecords(start, Carried(sent));
    AscendingAreRecords(Carried(sent), lo);
    assert forall i :: 0 <= i < |sent| ==> Carried(sent)[i] == Received(Records(Carried(sent))[i]);
  }

  /** Over a lossless first-in-first-out channel with fresh ids, every command that the
      gateway sends during the session is dispatched, in order. */
  lemma LosslessChannelDispatchesAll(attempts: seq<Attempt>, lo: nat, start: Handler)
    requires FreshIds(attempts) && start.lastSequence == -1
    requires lo <= |TransmitAll(attempts).log|
    requires forall c :: c in TransmitAll(attempts).log[lo..] ==> c.commandId !in start.seen
    ensures var sent := TransmitAll(attempts).log[lo..];
            Session(start, Carried(sent)).dispatched == sent
  {
    NumberedWithoutGaps(attempts);
    WireIdsDistinct(attempts);
    OrderlyStreamIsDispatched(start, TransmitAll(attempts).log[lo..], lo);
  }

  lemma {:induction false} AscendingAreRecords(messages: seq<Message>, lo: nat)
    requires forall i :: 0 <= i < |messages| ==>
               WellFormed(messages[i]) && messages[i].command.sequenceNumber == lo + i + 1
    ensures |Records(messages)| == |messages|
    ensures forall i :: 0 <= i < |messages| ==> messages[i] == Received(Records(messages)[i])
    ensures Highest(messages) == if messages == [] then -1 else lo + |messages|
  {
    if messages != [] {
      AscendingAreRecords(messages[..|messages| - 1], lo);
    }
  }

  // ---------- the whole life of a handler ----------

  datatype LifeEvent = Deliver(message: Message) | Connect

  function Life(events: seq<LifeEvent>): Outcome {
    if events == [] then Outcome(FRESH_HANDLER, [])
    else
      var o := Life(events[..|events| - 1]);
      match events[|events| - 1]
      case Connect => Outcome(ResetSession(o.handler), o.dispatched)
      case Deliver(m) =>
        Outcome(Handle(o.handler, m), if Admits(o.handler, m) then o.dispatched + [m.command] else o.dispatched)
  }

  function CommandIds(s: seq<Command>): seq<string> {
    seq(|s|, i requires 0 <= i < |s| => s[i].commandId)
  }

  /** The handler's memory is the bounded memory of the ids it dispatched. */
  lemma {:induction false} LifeMemory(events: seq<LifeEvent>)
    ensures var o := Life(events);
            IdMemory.OfferAll(CommandIds(o.dispatched)) == IdMemory.Consumer(o.handler.seen, CommandIds(o.dispatched))
  {
    if events != [] {
      var o := Life(events[..|events| - 1]);
      var ids := CommandIds(o.dispatched);
      LifeMemory(events[..|events| - 1]);
      match events[|events| - 1]
      case Connect =>
      case Deliver(m) =>
        if Admits(o.handler, m) {
          var all := CommandIds(o.dispatched + [m.command]);
          assert all == ids + [m.command.commandId];
          assert all[..|all| - 1] == ids;
        }
    }
  }

  /** Over any number of sessions, a command id is dispatched again only after at least 2501
      other dispatches. */
  lemma RedispatchOnlyAfterManyOthers(events: seq<LifeEvent>, i: nat, j: nat)
    requires i < j < |Life(events).dispatched|
    requires Life(events).dispatched[i].commandId == Life(events).dispatched[j].commandId
    ensures j - i - 1 >= 2501
  {
    LifeMemory(events);
    IdMemory.RepeatsAreFarApart(CommandIds(Life(events).dispatched), i, j);
  }

  // ---------- a session after others ----------

  /** The messages delivered in a handler's life so far. */
  function Delivered(events: seq<LifeEvent>): seq<Message> {
    if events == [] then []
    else
      var before, last := Delivered(events[..|events| - 1]), events[|events| - 1];
      if last.Deliver? then before + [last.message] else before
  }

  ghost predicate NamedIn(log: seq<Command>, id: string) {
    exists c :: c in log && c.commandId == id
  }

  /** A handler remembers only ids of commands it has received. */
  lemma {:induction false} SeenWereDelivered(events: seq<LifeEvent>, log: seq<Command>)
    requires CarriesOnly(Delivered(events), log)
    ensures forall id :: id in Life(events).handler.seen ==> NamedIn(log, id)
  {
    if events != [] {
      var before, last := events[..|events| - 1], events[|events| - 1];
      var h := Life(before).handler;
      SeenWereDelivered(before, log);
      if last.Deliver? && Admits(h, last.message) {
        assert last.message in Delivered(events);
        assert NamedIn(log, last.message.command.commandId);
        IdMemory.RecordMembers(h.seen, last.message.command.commandId);
      }
    }
  }

  lemma DistinctParts(log: seq<Command>, lo: nat)
    requires lo <= |log| && IdsDistinct(log)
    ensures forall c, d :: c in log[..lo] && d in log[lo..] ==> c.commandId != d.commandId
  {
    forall c, d | c in log[..lo] && d in log[lo..]
      ensures c.commandId != d.commandId
    {
      var i :| 0 <= i < lo && log[i] == c;
      var j :| lo <= j < |log| && log[j] == d;
    }
  }

  function Delivering(messages: seq<Message>): seq<LifeEvent> {
    seq(|messages|, i requires 0 <= i < |messages| => Deliver(messages[i]))
  }

  /** A handler's life goes on with a new session as that session does by itself: from the ids
      remembered and with the numbers starting anew. */
  lemma {:induction false} LifeGoesOn(events: seq<LifeEvent>, messages: seq<Message>)
    ensures var o := Life(events + [Connect] + Delivering(messages));
            var session := Session(Handler(-1, Life(events).handler.seen), messages);
            o.handler == session.handler && o.dispatched == Life(events).dispatched + session.dispatched
  {
    var all := events + [Connect] + Delivering(messages);
    if messages == [] {
      assert all[..|all| - 1] == events;
    } else {
      var n := |messages| - 1;
      LifeGoesOn(events, messages[..n]);
      assert all[..|all| - 1] == events + [Connect] + Delivering(messages[..n]);
      assert all[|all| - 1] == Deliver(messages[n]);
    }
  }

  /** After any earlier life, over any channels and sessions, of commands sent before: a session
      over a lossless first-in-first-out channel dispatches all that is sent in it, in order. */
  lemma EverySessionDispatchesAll(attempts: seq<Attempt>, lo: nat, events: seq<LifeEvent>)
    requires FreshIds(attempts) && lo <= |TransmitAll(attempts).log|
    requires CarriesOnly(Delivered(events), TransmitAll(attempts).log[..lo])
    ensures var sent := TransmitAll(attempts).log[lo..];
            Life(events + [Connect] + Delivering(Carried(sent))).dispatched == Life(events).dispatched + sent
  {
    var log := TransmitAll(attempts).log;
    WireIdsDistinct(attempts);
    DistinctParts(log, lo);
    SeenWereDelivered(events, log[..lo]);
    forall c | c in log[lo..]
      ensures c.commandId !in Life(events).handler.seen
    {
      assert !NamedIn(log[..lo], c.commandId);
    }
    LosslessChannelDispatchesAll(attempts, lo, Handler(-1, Life(events).handler.seen));
    LifeGoesOn(events, Carried(log[lo..]));
  }
}
