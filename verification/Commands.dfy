/**
 The command messages between the decision service and the player, the schema both
 ends check them against, and the gateway that numbers and broadcasts them.
 */
module Commands {
  import opened Wrappers

  datatype Body =
    | ActivateCreative(manifestId: string, minDwellMs: int, cooldownMs: int, rationale: Option<string>)
    | Freeze(reason: Option<string>)
    | SafeMode(reason: Option<string>)
    | ClearSafeMode

  datatype Command = Command(commandId: string, sequenceNumber: int, body: Body)

  const FREEZE_REASONS: set<string> :=
    {"cv_degraded", "decision_degraded", "thermal_protection", "operator_override"}

  const SAFE_MODE_REASONS: set<string> :=
    {"supervisor_escalation", "operator_manual", "boot_loop_protection"}

  predicate ValidBody(b: Body) {
    match b
    case ActivateCreative(id, dwellMs, cooldownMs, rationale) =>
      && 1 <= |id| <= 128 && 0 <= dwellMs && 0 <= cooldownMs
      && (rationale.Some? ==> |rationale.value| <= 500)
    case Freeze(reason) => reason.Some? ==> reason.value in FREEZE_REASONS
    case SafeMode(reason) => reason.Some? ==> reason.value in SAFE_MODE_REASONS
    case ClearSafeMode => true
  }

  predicate Valid(c: Command) {
    1 <= |c.commandId| <= 128 && 0 <= c.sequenceNumber && ValidBody(c.body)
  }

  /** Numbering one command: the counter moves only if the command passes the schema. */
  function Issue(sequence: nat, body: Body, freshId: string): (nat, Option<Command>) {
    var c := Command(freshId, sequence + 1, body);
    if Valid(c) then (sequence + 1, Some(c)) else (sequence, None)
  }

  /** One call of the gateway's broadcast: what is sent, under which fresh id, and whether
      any player is connected at that moment. */
  datatype Attempt = Attempt(body: Body, freshId: string, connected: bool)

  /** The gateway's counter and the commands it has put on the wire. */
  datatype Wire = Wire(sequence: nat, log: seq<Command>)

  function Transmit(w: Wire, a: Attempt): Wire {
    if !a.connected then w
    else
      var (next, c) := Issue(w.sequence, a.body, a.freshId);
      Wire(next, if c.Some? then w.log + [c.value] else w.log)
  }

  function TransmitAll(attempts: seq<Attempt>): Wire {
    if attempts == [] then Wire(0, [])
    else Transmit(TransmitAll(attempts[..|attempts| - 1]), attempts[|attempts| - 1])
  }

  class PlayerGateway {
    var connections: set<nat>
    var sequence: nat
    /** Every call of Broadcast so far. */
    ghost var attempts: seq<Attempt>

    /** The counter is that of the wire the calls have led to. */
    ghost predicate Consistent()
      reads this
    {
      sequence == TransmitAll(attempts).sequence
    }

    constructor ()
      ensures Consistent() && connections == {} && attempts == []
    {
      connections, sequence, attempts := {}, 0, [];
    }

    method NextCommand(body: Body, freshId: string) returns (c: Option<Command>)
      modifies this`sequence
      ensures (sequence, c) == Issue(old(sequence), body, freshId)
    {
      sequence := sequence + 1;
      var msg := Command(freshId, sequence, body);
      if !Valid(msg) {
        sequence := sequence - 1;
        return None;
      }
      c := Some(msg);
    }

    /** Sends one command to every connected player; `failing` are the connections whose
        send raises. Those are dropped, all others receive the command. */
    method Broadcast(body: Body, freshId: string, failing: set<nat>)
      returns (c: Option<Command>, delivered: set<nat>, sent: nat)
      requires Consistent()
      modifies this
      ensures Consistent()
      ensures attempts == old(attempts) + [Attempt(body, freshId, old(connections) != {})]
      ensures TransmitAll(attempts).log == TransmitAll(old(attempts)).log + if c.Some? then [c.value] else []
      ensures delivered == (if c.Some? then old(connections) - failing else {})
      ensures connections == (if c.Some? then old(connections) - failing else old(connections))
      ensures sent == |delivered|
    {
      attempts := attempts + [Attempt(body, freshId, connections != {})];
      assert attempts[..|attempts| - 1] == old(attempts);
      delivered, sent := {}, 0;
      if connections == {} {
        return None, {}, 0;
      }
      c := NextCommand(body, freshId);
      if c == None {
        return None, {}, 0;
      }
      var dead: set<nat>;
      delivered, dead, sent := SendToEach(connections, failing);
      connections := connections - dead;
    }
  }

  /** The send loop: each connection in turn either takes the message or is found dead. */
  method SendToEach(connections: set<nat>, failing: set<nat>)
    returns (delivered: set<nat>, dead: set<nat>, sent: nat)
    ensures delivered == connections - failing && dead == connections * failing
    ensures sent == |delivered|
  {
    delivered, dead, sent := {}, {}, 0;
    var pending := connections;
    while pending != {}
      invariant forall c :: c in connections <==> c in pending || c in delivered || c in dead
      invariant forall c :: c in pending ==> c !in delivered
      invariant forall c :: c in delivered ==> c !in failing
      invariant dead <= failing
      invariant sent == |delivered|
      decreases pending
    {
      var ws :| ws in pending;
      pending := pending - {ws};
      if ws in failing {
        dead := dead + {ws};
      } else {
        delivered := delivered + {ws};
        sent := sent + 1;
      }
    }
  }

  predicate FreshIds(attempts: seq<Attempt>) {
    forall i, j :: 0 <= i < j < |attempts| ==> attempts[i].freshId != attempts[j].freshId
  }

  /** The commands on the wire are numbered 1, 2, 3, ... without a gap: neither a command that
      fails the schema nor one issued with nobody connected uses up a number. */
  lemma {:induction false} NumberedWithoutGaps(attempts: seq<Attempt>)
    ensures var w := TransmitAll(attempts);
            && w.sequence == |w.log|
            && forall i :: 0 <= i < |w.log| ==> w.log[i].sequenceNumber == i + 1 && Valid(w.log[i])
  {
    if attempts != [] {
      NumberedWithoutGaps(attempts[..|attempts| - 1]);
    }
  }

  /** Every command on the wire has the body of some call of the gateway. */
  lemma {:induction false} WireCarriesAttempts(attempts: seq<Attempt>, c: Command)
    requires c in TransmitAll(attempts).log
    ensures exists a :: a in attempts && a.body == c.body
  {
    var before, last := attempts[..|attempts| - 1], attempts[|attempts| - 1];
    if c in TransmitAll(before).log {
      WireCarriesAttempts(before, c);
      var a :| a in before && a.body == c.body;
      assert a in attempts;
    } else {
      assert last in attempts;
    }
  }

  ghost predicate Uses(attempts: seq<Attempt>, id: string) {
    exists a :: a in attempts && a.freshId == id
  }

  lemma {:induction false} WireIdsUsed(attempts: seq<Attempt>)
    ensures forall c :: c in TransmitAll(attempts).log ==> Uses(attempts, c.commandId)
  {
    if attempts != [] {
      var before, last := attempts[..|attempts| - 1], attempts[|attempts| - 1];
      WireIdsUsed(before);
      forall c | c in TransmitAll(attempts).log
        ensures Uses(attempts, c.commandId)
      {
        if c in TransmitAll(before).log {
          var a :| a in before && a.freshId == c.commandId;
          assert a in attempts;
        } else {
          assert last in attempts && last.freshId == c.commandId;
        }
      }
    }
  }

  ghost predicate IdsDistinct(log: seq<Command>) {
    forall i, j :: 0 <= i < j < |log| ==> log[i].commandId != log[j].commandId
  }

  /** With a fresh id for every attempt, no two commands on the wire share one. */
  lemma {:induction false} WireIdsDistinct(attempts: seq<Attempt>)
    requires FreshIds(attempts)
    ensures IdsDistinct(TransmitAll(attempts).log)
  {
    if attempts != [] {
      var before := attempts[..|attempts| - 1];
      WireIdsDistinct(before);
      WireIdsUsed(before);
      var log := TransmitAll(before).log;
      forall i | 0 <= i < |log|
        ensures log[i].commandId != attempts[|attempts| - 1].freshId
      {
        assert log[i] in log;
        var a :| a in before && a.freshId == log[i].commandId;
      }
    }
  }

  /** A call that must reach the wire: a player is connected, and body and id pass the schema. */
  predicate Sendable(a: Attempt) {
    a.connected && 1 <= |a.freshId| <= 128 && ValidBody(a.body)
  }

  function SendableOnes(attempts: seq<Attempt>): seq<Attempt> {
    if attempts == [] then []
    else
      var before, last := SendableOnes(attempts[..|attempts| - 1]), attempts[|attempts| - 1];
      if Sendable(last) then before + [last] else before
  }

  /** The wire carries exactly the sendable calls, in order, numbered from 1. */
  lemma {:induction false} WireIsWhatIsSendable(attempts: seq<Attempt>)
    ensures var w, sent := TransmitAll(attempts), SendableOnes(attempts);
            && w.sequence == |sent| == |w.log|
            && forall i :: 0 <= i < |sent| ==> w.log[i] == Command(sent[i].freshId, i + 1, sent[i].body)
  {
    if attempts != [] {
      WireIsWhatIsSendable(attempts[..|attempts| - 1]);
    }
  }

  /** The schema at its limits. */
  lemma SchemaLimits(id: string, text: string)
    ensures |id| == 128 && |text| == 500 ==> ValidBody(ActivateCreative(id, 0, 0, Some(text)))
    ensures |id| == 1 ==> ValidBody(ActivateCreative(id, 0, 0, None))
    ensures |id| == 0 || |id| == 129 ==> !ValidBody(ActivateCreative(id, 0, 0, None))
    ensures |id| == 1 && |text| == 501 ==> !ValidBody(ActivateCreative(id, 0, 0, Some(text)))
    ensures |id| == 1 ==> !ValidBody(ActivateCreative(id, -1, 0, None)) && !ValidBody(ActivateCreative(id, 0, -1, None))
    ensures ValidBody(Freeze(Some("cv_degraded"))) && ValidBody(Freeze(Some("decision_degraded")))
    ensures ValidBody(Freeze(Some("operator_override"))) && ValidBody(Freeze(None)) && ValidBody(ClearSafeMode)
    ensures ValidBody(SafeMode(Some("supervisor_escalation"))) && ValidBody(SafeMode(Some("operator_manual")))
    ensures !ValidBody(Freeze(Some("operator_manual"))) && !ValidBody(SafeMode(Some("operator_override")))
  {
  }
}
