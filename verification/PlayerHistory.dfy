/**
 What the player's state machine is at any time, told from the history of events alone: which
 activation is current, which freeze is in force, when a manifest was displaced last, and hence
 which activations are accepted. The state machine is proved to follow this in every run.
 */
module PlayerHistory {
  import opened Wrappers
  import opened PlayerState
  import opened PlayerTiming

  datatype Activation = Activation(id: ManifestId, at: real, dwellMs: nat, cooldownMs: nat)

  datatype Displacement = Displacement(at: real, cooldownMs: nat)

  /** An activation of this manifest would be accepted at this time after the run: not in safe
      mode; once the dwell of the current activation is over, unless frozen; and once the
      cooldown since the manifest's last displacement is over. */
  predicate MayActivate(run: seq<Timed>, id: ManifestId, at: real)
    decreases |run|, 2
  {
    && !SafeModeEngaged(run)
    && (Current(run).Some? && FreezeInForce(run) == None ==>
          (at - Current(run).value.at) * 1000.0 >= Current(run).value.dwellMs as real)
    && (LastDisplaced(run, id).Some? ==>
          (at - LastDisplaced(run, id).value.at) * 1000.0 >= LastDisplaced(run, id).value.cooldownMs as real)
  }

  /** The last event is an activation that is accepted, an engagement of safe mode or a loss of
      the connection: it ends what was current. */
  predicate EndsCurrent(run: seq<Timed>)
    requires run != []
    decreases |run|, 0
  {
    var e := run[|run| - 1];
    match e.event
    case Activate(id, _, _) => MayActivate(run[..|run| - 1], id, e.at)
    case EngageSafeMode(_) => true
    case LoseConnection => true
    case _ => false
  }

  /** The activation that is current: the last accepted one, if nothing has ended it. */
  function Current(run: seq<Timed>): Option<Activation>
    decreases |run|, 1
  {
    if run == [] then None
    else if !EndsCurrent(run) then Current(run[..|run| - 1])
    else
      var e := run[|run| - 1];
      match e.event
      case Activate(id, dwellMs, cooldownMs) => Some(Activation(id, e.at, dwellMs, cooldownMs))
      case _ => None
  }

  /** The last freeze since the current activation, with its reason. */
  function FreezeInForce(run: seq<Timed>): Option<Option<string>>
    decreases |run|, 1
  {
    if run == [] || EndsCurrent(run) then None
    else
      match run[|run| - 1].event
      case Freeze(reason) => if Current(run[..|run| - 1]).Some? then Some(reason) else None
      case _ => FreezeInForce(run[..|run| - 1])
  }

  /** When an activation of this manifest was ended last, and with which cooldown it was made. */
  function LastDisplaced(run: seq<Timed>, id: ManifestId): Option<Displacement>
    decreases |run|, 1
  {
    if run == [] then None
    else
      var before, e := run[..|run| - 1], run[|run| - 1];
      if EndsCurrent(run) && Current(before).Some? && Current(before).value.id == id
      then Some(Displacement(e.at, Current(before).value.cooldownMs))
      else LastDisplaced(before, id)
  }

  /** The reason of the last engagement of safe mode, if it has not been cleared since. */
  function EngagedFor(run: seq<Timed>): Option<string> {
    if run == [] then None
    else
      match run[|run| - 1].event
      case EngageSafeMode(reason) => reason
      case ClearSafeMode => None
      case _ => EngagedFor(run[..|run| - 1])
  }

  function StatusOf(run: seq<Timed>): Status {
    if SafeModeEngaged(run) then SafeModeState
    else if Current(run) == None then FallbackState
    else if FreezeInForce(run).Some? then FrozenState
    else ActiveState
  }

  /** The machine's fields agree with the history. */
  ghost predicate Agrees(m: Machine, run: seq<Timed>) {
    && m.status == StatusOf(run)
    && (SafeModeEngaged(run) ==> Current(run) == None)
    && (FreezeInForce(run).Some? ==> Current(run).Some?)
    && m.safeModeReason == EngagedFor(run) && (EngagedFor(run).Some? ==> SafeModeEngaged(run))
    && m.freezeReason == (if FreezeInForce(run).Some? then FreezeInForce(run).value else None)
    && (match Current(run)
        case None => m.active == None && m.activatedAt == None
        case Some(a) =>
          && m.active == Some(a.id) && m.activatedAt == Some(a.at)
          && m.minDwellMs == a.dwellMs && m.cooldownMsForActive == a.cooldownMs)
    && CooldownsAgree(m.cooldowns, run)
  }

  ghost predicate CooldownsAgree(cooldowns: map<ManifestId, CooldownEntry>, run: seq<Timed>) {
    forall id ::
      && (id in cooldowns <==> LastDisplaced(run, id).Some?)
      && (id in cooldowns ==>
            cooldowns[id] == CooldownEntry(LastDisplaced(run, id).value.at, LastDisplaced(run, id).value.cooldownMs))
  }

  /** The machine accepts exactly the activations that the history allows. */
  lemma AcceptedIffAllowed(m: Machine, run: seq<Timed>, id: ManifestId, dwellMs: nat, cooldownMs: nat, at: real)
    requires Agrees(m, run)
    ensures OnActivate(m, id, dwellMs, cooldownMs, at).1.accepted <==> MayActivate(run, id, at)
  {
  }

  /** Whether the last event ends what is current, as the machine sees it. */
  lemma EndsAsAccepted(m: Machine, run: seq<Timed>)
    requires run != [] && Agrees(m, run[..|run| - 1])
    ensures var e := run[|run| - 1];
            EndsCurrent(run) <==>
              || e.event.EngageSafeMode? || e.event.LoseConnection?
              || (e.event.Activate?
                  && OnActivate(m, e.event.id, e.event.dwellMs, e.event.cooldownMs, e.at).1.accepted)
  {
    var e := run[|run| - 1];
    if e.event.Activate? {
      AcceptedIffAllowed(m, run[..|run| - 1], e.event.id, e.event.dwellMs, e.event.cooldownMs, e.at);
    }
  }

  lemma CooldownsStep(m: Machine, run: seq<Timed>)
    requires run != [] && Agrees(m, run[..|run| - 1])
    ensures CooldownsAgree(Apply(m, run[|run| - 1]).cooldowns, run)
  {
    var before, e := run[..|run| - 1], run[|run| - 1];
    EndsAsAccepted(m, run);
    forall id
      ensures LastDisplaced(run, id)
           == if EndsCurrent(run) && m.active == Some(id) then Some(Displacement(e.at, m.cooldownMsForActive))
              else LastDisplaced(before, id)
    {
    }
  }

  lemma AgreesStep(m: Machine, run: seq<Timed>)
    requires run != [] && Agrees(m, run[..|run| - 1])
    ensures Agrees(Apply(m, run[|run| - 1]), run)
  {
    CooldownsStep(m, run);
    EndsAsAccepted(m, run);
  }

  /** In every run the state machine is what the history says: status, current manifest with its
      times, freeze reason, and every cooldown. */
  lemma {:induction false} MachineFollowsHistory(run: seq<Timed>)
    ensures Agrees(Run(run), run)
  {
    if run != [] {
      MachineFollowsHistory(run[..|run| - 1]);
      AgreesStep(Run(run[..|run| - 1]), run);
    }
  }

  /** In every run, an activation is accepted if and only if the history allows it. */
  lemma ActivatesIff(run: seq<Timed>, i: nat, id: ManifestId)
    requires i < |run|
    ensures ActivatesAt(run, i, id)
       <==> run[i].event.Activate? && run[i].event.id == id && MayActivate(run[..i], id, run[i].at)
  {
    MachineFollowsHistory(run[..i]);
    if run[i].event.Activate? {
      AcceptedIffAllowed(Run(run[..i]), run[..i], run[i].event.id, run[i].event.dwellMs, run[i].event.cooldownMs, run[i].at);
    }
  }

  /** A freeze while a manifest is active leads to FROZEN, keeps the manifest, and lets the next
      activation come without waiting for the dwell. */
  lemma FreezeLiftsDwell(run: seq<Timed>, at: real, reason: Option<string>, id: ManifestId, later: real)
    requires Run(run).status == ActiveState
    ensures var frozen := run + [Timed(at, Freeze(reason))];
            && Run(frozen).status == FrozenState && Run(frozen).active == Run(run).active
            && Run(frozen).freezeReason == reason
            && (MayActivate(frozen, id, later) <==>
                  (LastDisplaced(run, id).Some? ==>
                     (later - LastDisplaced(run, id).value.at) * 1000.0 >= LastDisplaced(run, id).value.cooldownMs as real))
  {
    var frozen := run + [Timed(at, Freeze(reason))];
    assert frozen[..|frozen| - 1] == run;
    MachineFollowsHistory(run);
    MachineFollowsHistory(frozen);
  }
}
