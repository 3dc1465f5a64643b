/**
 The decision loop: one tick after another it freezes the player, activates a manifest or
 stays silent. The policy may be swapped between ticks.
 */
module DecisionLoop {
  import opened Wrappers
  import opened Policy
  import C = Commands
  import S = Signals
  import Rounding

  datatype Engine = Engine(rules: seq<Rule>, minDwellMs: int, cooldownMs: int)

  datatype Issued =
    | FreezeIssued(reason: string)
    | ActivateIssued(manifestId: ManifestId, minDwellMs: int, cooldownMs: int)

  /** The loop's fields, with the stream of commands it has issued. */
  datatype Loop = Loop(engine: Engine, current: Option<ManifestId>, frozen: bool, issued: seq<Issued>)

  /** What one tick sees: the latest signal and its age, the hour, and the random choice. */
  datatype Tick = Tick(signal: Option<Signal>, ageMs: Option<int>, hour: int, pick: nat)

  /** A tick at some time, with what has been delivered last. */
  function TickOn(latest: Option<S.Delivery>, now: real, hour: int, pick: nat): Tick {
    match latest
    case None => Tick(None, None, hour, pick)
    case Some(d) => Tick(Some(d.message.signal), Some(Rounding.MillisBetween(d.at, now)), hour, pick)
  }

  function FreezeReason(t: Tick, staleMs: int): Option<string> {
    if t.signal == None then None
    else if t.ageMs.Some? && t.ageMs.value > staleMs then Some("decision_degraded")
    else if t.signal.value.pipelineDegraded then Some("cv_degraded")
    else if t.signal.value.stability.freezeDecision then Some("operator_override")
    else None
  }

  function Candidate(e: Engine, t: Tick): Option<ManifestId> {
    if t.signal == None then None else Evaluate(e.rules, t.signal.value, t.hour, t.pick)
  }

  function OnTick(l: Loop, t: Tick, staleMs: int): Loop {
    var reason := FreezeReason(t, staleMs);
    if reason.Some? then
      if l.frozen then l
      else l.(frozen := true, issued := l.issued + [FreezeIssued(reason.value)])
    else
      var candidate := Candidate(l.engine, t);
      if candidate == None then l
      else if candidate != l.current || l.frozen then
        l.(current := candidate, frozen := false,
           issued := l.issued + [ActivateIssued(candidate.value, l.engine.minDwellMs, l.engine.cooldownMs)])
      else l.(frozen := false)
  }

  datatype Step = Ticking(tick: Tick) | Reload(engine: Engine)

  function After(l: Loop, step: Step, staleMs: int): Loop {
    match step
    case Ticking(t) => OnTick(l, t, staleMs)
    case Reload(e) => l.(engine := e)
  }

  function Run(engine: Engine, steps: seq<Step>, staleMs: int): Loop {
    if steps == [] then Loop(engine, None, false, [])
    else After(Run(engine, steps[..|steps| - 1], staleMs), steps[|steps| - 1], staleMs)
  }

  // ---------- what a tick does, by the clock ----------

  /** A full millisecond more than the limit has passed since the delivery. */
  predicate Stale(d: S.Delivery, now: real, staleMs: int) {
    (now - d.at) * 1000.0 >= (staleMs + 1) as real
  }

  /** Why the player is to be frozen, in the order in which the reasons take precedence. */
  function FreezeDue(d: S.Delivery, now: real, staleMs: int): Option<string> {
    if Stale(d, now, staleMs) then Some("decision_degraded")
    else if d.message.signal.pipelineDegraded then Some("cv_degraded")
    else if d.message.signal.stability.freezeDecision then Some("operator_override")
    else None
  }

  /** What a loop comes to when a reason to freeze is there, or a choice. */
  function LoopDue(l: Loop, freeze: Option<string>, choice: Option<ManifestId>): Loop {
    match (freeze, choice)
    case (Some(reason), _) =>
      Loop(l.engine, l.current, true, if l.frozen then l.issued else l.issued + [FreezeIssued(reason)])
    case (None, None) => l
    case (None, Some(m)) =>
      Loop(l.engine, Some(m), false,
           if !l.frozen && l.current == Some(m) then l.issued
           else l.issued + [ActivateIssued(m, l.engine.minDwellMs, l.engine.cooldownMs)])
  }

  /** A tick does nothing before the first delivery. Afterwards a signal that is stale by the
      clock, degraded or asks for it freezes the player, once; and a fresh one that is neither
      never does, but has the policy's choice activated if it is new or the player frozen. */
  lemma TickByTheClock(l: Loop, latest: Option<S.Delivery>, now: real, hour: int, pick: nat, staleMs: int)
    requires staleMs >= 0
    ensures OnTick(l, TickOn(latest, now, hour, pick), staleMs)
         == match latest
            case None => l
            case Some(d) =>
              LoopDue(l, FreezeDue(d, now, staleMs), Evaluate(l.engine.rules, d.message.signal, hour, pick))
  {
    if latest.Some? {
      Rounding.MillisExceed(latest.value.at, now, staleMs);
    }
  }

  // ---------- what the gateway is handed ----------

  /** The loop's commands among the calls of the gateway. */
  function IssuedBy(attempts: seq<C.Attempt>): seq<Issued> {
    if attempts == [] then []
    else
      var before := IssuedBy(attempts[..|attempts| - 1]);
      match attempts[|attempts| - 1].body
      case ActivateCreative(m, dwellMs, cooldownMs, _) => before + [ActivateIssued(m, dwellMs, cooldownMs)]
      case Freeze(Some(reason)) => before + [FreezeIssued(reason)]
      case _ => before
  }

  function BodyOf(c: Issued, rationale: string): C.Body {
    match c
    case FreezeIssued(reason) => C.Freeze(Some(reason))
    case ActivateIssued(m, dwellMs, cooldownMs) => C.ActivateCreative(m, dwellMs, cooldownMs, Some(rationale))
  }

  lemma IssuedByAppend(attempts: seq<C.Attempt>, c: Issued, rationale: string, freshId: string, connected: bool)
    ensures IssuedBy(attempts + [C.Attempt(BodyOf(c, rationale), freshId, connected)]) == IssuedBy(attempts) + [c]
  {
    assert (attempts + [C.Attempt(BodyOf(c, rationale), freshId, connected)])[..|attempts|] == attempts;
  }

  /** What goes with a tick's command to the gateway: a fresh id, whether a player is
      connected, and the rationale. */
  datatype Sending = Sending(freshId: string, connected: bool, rationale: string)

  /** The calls of the gateway made by a tick. */
  function Sends(l: Loop, t: Tick, staleMs: int, s: Sending): seq<C.Attempt> {
    var after := OnTick(l, t, staleMs);
    if |after.issued| > |l.issued|
    then [C.Attempt(BodyOf(after.issued[|l.issued|], s.rationale), s.freshId, s.connected)]
    else []
  }

  /** A tick hands the gateway exactly what it issues. */
  lemma SendsWhatIsIssued(l: Loop, t: Tick, staleMs: int, s: Sending, attempts: seq<C.Attempt>)
    requires l.issued == IssuedBy(attempts)
    ensures OnTick(l, t, staleMs).issued == IssuedBy(attempts + Sends(l, t, staleMs, s))
  {
    var after := OnTick(l, t, staleMs);
    StepIssues(l, Ticking(t), staleMs);
    if after.issued == l.issued {
      assert attempts + Sends(l, t, staleMs, s) == attempts;
    } else {
      IssuedByAppend(attempts, after.issued[|l.issued|], s.rationale, s.freshId, s.connected);
    }
  }

  // ---------- the class ----------

  class DecisionLoop {
    const consumer: S.SignalConsumer
    const gateway: C.PlayerGateway
    const staleMs: int
    var engine: Engine
    var currentManifestId: Option<ManifestId>
    var playerFrozen: bool
    var tickCount: nat
    var commandCount: nat
    var freezeCount: nat

    constructor (engine: Engine, consumer: S.SignalConsumer, gateway: C.PlayerGateway, staleMs: int)
      ensures this.consumer == consumer && this.gateway == gateway && this.staleMs == staleMs
      ensures View() == Loop(engine, None, false, IssuedBy(gateway.attempts))
    {
      this.engine, this.consumer, this.gateway, this.staleMs := engine, consumer, gateway, staleMs;
      currentManifestId, playerFrozen := None, false;
      tickCount, commandCount, freezeCount := 0, 0, 0;
    }

    /** What is issued is what the gateway has been handed. */
    ghost function View(): Loop
      reads this, gateway
    {
      Loop(engine, currentManifestId, playerFrozen, IssuedBy(gateway.attempts))
    }

    /** What a tick at this time sees of the consumer. */
    function Sees(now: real, hour: int, pick: nat): (t: Tick)
      reads consumer
      ensures consumer.Valid() ==> t == TickOn(S.LatestOf(consumer.deliveries), now, hour, pick)
    {
      Tick(if consumer.latest.Some? then Some(consumer.latest.value.signal) else None,
           consumer.SignalAgeMs(now), hour, pick)
    }

    method ReloadPolicy(newEngine: Engine)
      modifies this`engine
      ensures View() == old(View()).(engine := newEngine)
    {
      engine := newEngine;
    }

    /** Hands one command to the gateway; connections that fail are dropped there. */
    method Send(c: Issued, s: Sending, failing: set<nat>)
      requires gateway.Consistent() && s.connected == (gateway.connections != {})
      modifies this`commandCount, gateway
      ensures gateway.Consistent()
      ensures gateway.attempts == old(gateway.attempts) + [C.Attempt(BodyOf(c, s.rationale), s.freshId, s.connected)]
      ensures IssuedBy(gateway.attempts) == IssuedBy(old(gateway.attempts)) + [c]
    {
      IssuedByAppend(gateway.attempts, c, s.rationale, s.freshId, s.connected);
      var body := match c
        case FreezeIssued(reason) => C.Freeze(Some(reason))
        case ActivateIssued(m, dwellMs, cooldownMs) => C.ActivateCreative(m, dwellMs, cooldownMs, Some(s.rationale));
      var command, delivered, sent := gateway.Broadcast(body, s.freshId, failing);
      commandCount := commandCount + sent;
    }

    method FreezePlayer(reason: string, s: Sending, failing: set<nat>)
      requires gateway.Consistent() && s.connected == (gateway.connections != {})
      modifies this, gateway
      ensures gateway.Consistent() && tickCount == old(tickCount)
      ensures View() == old(View()).(frozen := true, issued := old(View()).issued + [FreezeIssued(reason)])
      ensures gateway.attempts == old(gateway.attempts)
                + [C.Attempt(BodyOf(FreezeIssued(reason), s.rationale), s.freshId, s.connected)]
    {
      Send(FreezeIssued(reason), s, failing);
      playerFrozen := true;
      freezeCount := freezeCount + 1;
    }

    method ActivateCandidate(m: ManifestId, s: Sending, failing: set<nat>)
      requires gateway.Consistent() && s.connected == (gateway.connections != {})
      modifies this, gateway
      ensures gateway.Consistent() && tickCount == old(tickCount)
      ensures var c := ActivateIssued(m, engine.minDwellMs, engine.cooldownMs);
              && View() == old(View()).(frozen := false, current := Some(m), issued := old(View()).issued + [c])
              && gateway.attempts == old(gateway.attempts)
                   + [C.Attempt(BodyOf(c, s.rationale), s.freshId, s.connected)]
    {
      Send(ActivateIssued(m, engine.minDwellMs, engine.cooldownMs), s, failing);
      playerFrozen := false;
      currentManifestId := Some(m);
    }

    /** One tick; `s` and `failing` are what goes with a command to the gateway. */
    method DoTick(now: real, hour: int, pick: nat, s: Sending, failing: set<nat>)
      requires gateway.Consistent() && s.connected == (gateway.connections != {})
      modifies this, gateway
      ensures gateway.Consistent()
      ensures View() == OnTick(old(View()), old(Sees(now, hour, pick)), staleMs)
      ensures gateway.attempts == old(gateway.attempts) + Sends(old(View()), old(Sees(now, hour, pick)), staleMs, s)
      ensures tickCount == old(tickCount) + 1
    {
      tickCount := tickCount + 1;
      var t := Sees(now, hour, pick);
      var reason := FreezeReason(t, staleMs);
      if reason.Some? {
        if !playerFrozen {
          FreezePlayer(reason.value, s, failing);
        }
        return;
      }
      var candidate := Candidate(engine, t);
      if candidate == None {
        return;
      }
      if candidate != currentManifestId || playerFrozen {
        ActivateCandidate(candidate.value, s, failing);
      } else {
        playerFrozen := false;
      }
    }
  }

  // ---------- the stream of issued commands ----------

  predicate MayFollow(a: Issued, b: Issued) {
    match (a, b)
    case (FreezeIssued(_), FreezeIssued(_)) => false
    case (ActivateIssued(m, _, _), ActivateIssued(n, _, _)) => m != n
    case _ => true
  }

  /** No two freezes without an activation between them, and no manifest activated twice
      running without a freeze between. */
  ghost predicate WellFormedStream(issued: seq<Issued>) {
    forall i, j :: 0 <= i < j < |issued| && j == i + 1 ==> MayFollow(issued[i], issued[j])
  }

  function LastActivated(issued: seq<Issued>): Option<ManifestId> {
    if issued == [] then None
    else if issued[|issued| - 1].ActivateIssued? then Some(issued[|issued| - 1].manifestId)
    else LastActivated(issued[..|issued| - 1])
  }

  /** The reasons for which the loop freezes the player. */
  predicate LoopReason(reason: string) {
    reason == "decision_degraded" || reason == "cv_degraded" || reason == "operator_override"
  }

  ghost predicate LoopReasons(issued: seq<Issued>) {
    forall i :: 0 <= i < |issued| && issued[i].FreezeIssued? ==> LoopReason(issued[i].reason)
  }

  /** The stream is well formed with the loop's reasons, and the loop's fields summarise it. */
  ghost predicate Summarised(l: Loop) {
    && WellFormedStream(l.issued) && LoopReasons(l.issued)
    && l.current == LastActivated(l.issued)
    && (l.frozen <==> l.issued != [] && l.issued[|l.issued| - 1].FreezeIssued?)
  }

  predicate StepMayIssue(l: Loop, step: Step, after: Loop, next: Issued) {
    match next
    case FreezeIssued(reason) => !l.frozen && after.frozen && after.current == l.current && LoopReason(reason)
    case ActivateIssued(m, _, _) =>
      && (l.frozen || l.current != Some(m)) && !after.frozen && after.current == Some(m)
      && step.Ticking? && Candidate(l.engine, step.tick) == Some(m)
  }

  /** A step issues nothing, a freeze while not frozen, or an activation of the candidate while
      frozen or if the candidate is new; the fields follow. */
  lemma StepIssues(l: Loop, step: Step, staleMs: int)
    ensures var after := After(l, step, staleMs);
            || (after.issued == l.issued && after.current == l.current && after.frozen == l.frozen)
            || (exists next :: after.issued == l.issued + [next] && StepMayIssue(l, step, after, next))
  {
  }

  lemma StreamAppend(issued: seq<Issued>, next: Issued)
    requires WellFormedStream(issued)
    requires issued != [] ==> MayFollow(issued[|issued| - 1], next)
    ensures WellFormedStream(issued + [next])
    ensures LastActivated(issued + [next]) == if next.ActivateIssued? then Some(next.manifestId) else LastActivated(issued)
  {
    var all := issued + [next];
    assert all[..|issued|] == issued;
    forall i, j | 0 <= i < j < |all| && j == i + 1
      ensures MayFollow(all[i], all[j])
    {
      assert j < |issued| ==> MayFollow(issued[i], issued[j]);
    }
  }

  lemma StepKeepsSummary(l: Loop, step: Step, staleMs: int)
    requires Summarised(l)
    ensures Summarised(After(l, step, staleMs))
  {
    StepIssues(l, step, staleMs);
    var after := After(l, step, staleMs);
    if after.issued != l.issued {
      StreamAppend(l.issued, after.issued[|l.issued|]);
    }
  }

  /** Every run issues a well-formed stream, and the loop's fields summarise it. */
  lemma {:induction false} StreamWellFormed(engine: Engine, steps: seq<Step>, staleMs: int)
    ensures Summarised(Run(engine, steps, staleMs))
  {
    if steps != [] {
      StreamWellFormed(engine, steps[..|steps| - 1], staleMs);
      StepKeepsSummary(Run(engine, steps[..|steps| - 1], staleMs), steps[|steps| - 1], staleMs);
    }
  }

  /** Between two freezes of the stream there is an activation; and between two successive
      activations of one manifest there is a freeze. */
  lemma FreezesAndActivationsAlternate(engine: Engine, steps: seq<Step>, staleMs: int, i: nat, j: nat)
    requires i < j < |Run(engine, steps, staleMs).issued|
    ensures var issued := Run(engine, steps, staleMs).issued;
            && (issued[i].FreezeIssued? && issued[j].FreezeIssued?
                ==> exists k :: i < k < j && issued[k].ActivateIssued?)
            && (issued[i].ActivateIssued? && issued[j].ActivateIssued?
                && issued[i].manifestId == issued[j].manifestId
                && (forall k :: i < k < j ==> !issued[k].ActivateIssued?)
                ==> exists k :: i < k < j && issued[k].FreezeIssued?)
  {
    var issued := Run(engine, steps, staleMs).issued;
    StreamWellFormed(engine, steps, staleMs);
    assert MayFollow(issued[i], issued[i + 1]);
    if issued[i].FreezeIssued? && issued[j].FreezeIssued? {
      assert issued[i + 1].ActivateIssued?;
    }
    if issued[i].ActivateIssued? && issued[j].ActivateIssued? && issued[i].manifestId == issued[j].manifestId {
      assert i + 1 < j;
      assert issued[i + 1].ActivateIssued? || issued[i + 1].FreezeIssued?;
    }
  }

  // ---------- every well-formed stream can be issued ----------

  function AlwaysPlay(m: ManifestId): Rule {
    Rule("only", 0, m, 1.0, None, None, None, None, map[], None, None, None, None)
  }

  function QuietSignal(degraded: bool, freeze: bool): Signal {
    Signal(1, 1.0, Stability(true, freeze, 1), None, None, 0, degraded)
  }

  const CALM := QuietSignal(false, false)

  /** A tick that freezes for the given one of the loop's reasons. */
  function FreezingTick(reason: string, staleMs: int): Tick {
    if reason == "decision_degraded" then Tick(Some(CALM), Some(staleMs + 1), 0, 0)
    else Tick(Some(QuietSignal(reason == "cv_degraded", true)), None, 0, 0)
  }

  lemma AlwaysPlayChosen(m: ManifestId, s: Signal)
    ensures Evaluate([AlwaysPlay(m)], s, 0, 0) == Some(m)
  {
    var rules := [AlwaysPlay(m)];
    EvaluateChoosesTopmost(rules, s, 0, 0);
    TierIsTopmost(rules, s, 0);
    assert AlwaysPlay(m) in rules && Matches(AlwaysPlay(m), s, 0);
    if |Tier(rules, s, 0)| > 1 {
      assert Tier(rules, s, 0)[0] in Tier(rules, s, 0);
    }
  }

  /** Steps that issue one command. */
  function StepsFor(c: Issued, staleMs: int): seq<Step> {
    match c
    case FreezeIssued(reason) => [Ticking(FreezingTick(reason, staleMs))]
    case ActivateIssued(m, dwellMs, cooldownMs) =>
      [Reload(Engine([AlwaysPlay(m)], dwellMs, cooldownMs)), Ticking(Tick(Some(CALM), None, 0, 0))]
  }

  function StepsForAll(stream: seq<Issued>, staleMs: int): seq<Step> {
    if stream == [] then []
    else StepsForAll(stream[..|stream| - 1], staleMs) + StepsFor(stream[|stream| - 1], staleMs)
  }

  lemma FreezeTick(l: Loop, reason: string, staleMs: int)
    requires !l.frozen && LoopReason(reason)
    ensures OnTick(l, FreezingTick(reason, staleMs), staleMs).issued == l.issued + [FreezeIssued(reason)]
  {
  }

  lemma ActivateTick(l: Loop, m: ManifestId, staleMs: int)
    requires l.engine.rules == [AlwaysPlay(m)] && (l.frozen || l.current != Some(m))
    ensures OnTick(l, Tick(Some(CALM), None, 0, 0), staleMs).issued
         == l.issued + [ActivateIssued(m, l.engine.minDwellMs, l.engine.cooldownMs)]
  {
    AlwaysPlayChosen(m, CALM);
  }

  lemma RunStep(engine: Engine, steps: seq<Step>, step: Step, staleMs: int)
    ensures Run(engine, steps + [step], staleMs) == After(Run(engine, steps, staleMs), step, staleMs)
  {
    assert (steps + [step])[..|steps|] == steps;
  }

  /** The loop is ready to issue whatever may follow its stream so far. */
  lemma ReadyFor(engine: Engine, steps: seq<Step>, staleMs: int, next: Issued)
    requires WellFormedStream(Run(engine, steps, staleMs).issued + [next])
    ensures var l := Run(engine, steps, staleMs);
            if next.FreezeIssued? then !l.frozen else l.frozen || l.current != Some(next.manifestId)
  {
    var l := Run(engine, steps, staleMs);
    StreamWellFormed(engine, steps, staleMs);
    if l.issued != [] {
      var both := l.issued + [next];
      assert MayFollow(both[|both| - 2], both[|both| - 1]);
      if !l.frozen && l.current.Some? {
        LastActivatedLast(l.issued);
      }
    }
  }

  lemma IssueNext(engine: Engine, steps: seq<Step>, staleMs: int, next: Issued)
    requires WellFormedStream(Run(engine, steps, staleMs).issued + [next])
    requires next.FreezeIssued? ==> LoopReason(next.reason)
    ensures Run(engine, steps + StepsFor(next, staleMs), staleMs).issued == Run(engine, steps, staleMs).issued + [next]
  {
    var l := Run(engine, steps, staleMs);
    ReadyFor(engine, steps, staleMs, next);
    match next
    case FreezeIssued(reason) =>
      FreezeTick(l, reason, staleMs);
      RunStep(engine, steps, StepsFor(next, staleMs)[0], staleMs);
    case ActivateIssued(m, dwellMs, cooldownMs) =>
      var reload, tick := StepsFor(next, staleMs)[0], StepsFor(next, staleMs)[1];
      RunStep(engine, steps, reload, staleMs);
      RunStep(engine, steps + [reload], tick, staleMs);
      ActivateTick(l.(engine := reload.engine), m, staleMs);
      assert steps + StepsFor(next, staleMs) == steps + [reload] + [tick];
  }

  lemma {:induction false} EveryWellFormedStreamIsIssued(engine: Engine, stream: seq<Issued>, staleMs: int)
    requires WellFormedStream(stream) && LoopReasons(stream)
    ensures Run(engine, StepsForAll(stream, staleMs), staleMs).issued == stream
  {
    if stream != [] {
      var before, last := stream[..|stream| - 1], stream[|stream| - 1];
      EveryWellFormedStreamIsIssued(engine, before, staleMs);
      assert stream == before + [last];
      IssueNext(engine, StepsForAll(before, staleMs), staleMs, last);
    }
  }

  /** Exactly which streams the loop can issue, over all runs of ticks and policy reloads: the
      well-formed ones with its three reasons, from whatever policy it starts. */
  lemma IssuableStreams(engine: Engine, stream: seq<Issued>, staleMs: int)
    ensures (exists steps :: Run(engine, steps, staleMs).issued == stream)
       <==> WellFormedStream(stream) && LoopReasons(stream)
  {
    if steps :| Run(engine, steps, staleMs).issued == stream {
      StreamWellFormed(engine, steps, staleMs);
    }
    if WellFormedStream(stream) && LoopReasons(stream) {
      EveryWellFormedStreamIsIssued(engine, stream, staleMs);
    }
  }

  lemma LastActivatedLast(issued: seq<Issued>)
    requires LastActivated(issued).Some? && !issued[|issued| - 1].FreezeIssued?
    ensures issued[|issued| - 1].ActivateIssued?
    ensures LastActivated(issued) == Some(issued[|issued| - 1].manifestId)
  {
  }
}
