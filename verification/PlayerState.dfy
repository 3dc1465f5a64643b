/**
 The player's state machine: its fields, its five transitions, and the renderer
 action each transition asks for. Clock readings are seconds; dwell and cooldown
 are milliseconds, as in the commands.
 */
module PlayerState {
  import opened Wrappers

  type ManifestId = string

  datatype Status = FallbackState | ActiveState | FrozenState | SafeModeState

  datatype Action = PlayManifest | ShowFallback | Hold

  datatype TransitionResult = TransitionResult(
    accepted: bool,
    newState: Status,
    action: Action,
    manifestId: Option<ManifestId>,
    reason: Option<string>)

  datatype CooldownEntry = CooldownEntry(deactivatedAt: real, cooldownMs: nat)

  /** The value of a state machine's fields at one moment. */
  datatype Machine = Machine(
    status: Status,
    active: Option<ManifestId>,
    activatedAt: Option<real>,
    minDwellMs: nat,
    cooldownMsForActive: nat,
    freezeReason: Option<string>,
    safeModeReason: Option<string>,
    cooldowns: map<ManifestId, CooldownEntry>)

  const INITIAL := Machine(FallbackState, None, None, 0, 0, None, None, map[])

  function ElapsedMs(since: real, now: real): real {
    (now - since) * 1000.0
  }

  predicate DwellElapsed(m: Machine, now: real) {
    m.activatedAt.Some? ==> ElapsedMs(m.activatedAt.value, now) >= m.minDwellMs as real
  }

  predicate InCooldown(m: Machine, id: ManifestId, now: real) {
    && id in m.cooldowns
    && ElapsedMs(m.cooldowns[id].deactivatedAt, now) < m.cooldowns[id].cooldownMs as real
  }

  /** The cooldown table once the active manifest, if any, has been displaced. */
  function CooldownsAfterDisplacement(m: Machine, now: real): map<ManifestId, CooldownEntry> {
    if m.active.Some?
    then m.cooldowns[m.active.value := CooldownEntry(now, m.cooldownMsForActive)]
    else m.cooldowns
  }

  function OnActivate(m: Machine, id: ManifestId, dwellMs: nat, cooldownMs: nat, now: real)
    : (Machine, TransitionResult)
  {
    if m.status == SafeModeState then
      (m, TransitionResult(false, m.status, ShowFallback, None, Some("safe_mode")))
    else if m.status == ActiveState && !DwellElapsed(m, now) then
      (m, TransitionResult(false, m.status, Hold, m.active, Some("dwell_not_elapsed")))
    else if InCooldown(m, id, now) then
      (m, TransitionResult(false, m.status, Hold, m.active, Some("cooldown")))
    else
      (m.(status := ActiveState,
          active := Some(id),
          activatedAt := Some(now),
          minDwellMs := dwellMs,
          cooldownMsForActive := cooldownMs,
          freezeReason := None,
          cooldowns := CooldownsAfterDisplacement(m, now)),
       TransitionResult(true, ActiveState, PlayManifest, Some(id), None))
  }

  function OnFreeze(m: Machine, reason: Option<string>): (Machine, TransitionResult) {
    match m.status
    case SafeModeState =>
      (m, TransitionResult(false, m.status, ShowFallback, None, Some("safe_mode")))
    case FallbackState =>
      (m, TransitionResult(false, m.status, ShowFallback, None, Some("no_active_creative")))
    case _ =>
      (m.(status := FrozenState, freezeReason := reason),
       TransitionResult(true, FrozenState, Hold, m.active, None))
  }

  function OnSafeMode(m: Machine, reason: Option<string>, now: real): (Machine, TransitionResult) {
    (m.(status := SafeModeState,
        active := None,
        activatedAt := None,
        freezeReason := None,
        safeModeReason := reason,
        cooldowns := CooldownsAfterDisplacement(m, now)),
     TransitionResult(true, SafeModeState, ShowFallback, None, reason))
  }

  function OnClearSafeMode(m: Machine): (Machine, TransitionResult) {
    if m.status != SafeModeState then
      (m, TransitionResult(false, m.status, Hold, None, Some("not_in_safe_mode")))
    else
      (m.(status := FallbackState, safeModeReason := None),
       TransitionResult(true, FallbackState, ShowFallback, None, None))
  }

  function OnConnectionLost(m: Machine, now: real): (Machine, TransitionResult) {
    if m.status == SafeModeState then
      (m, TransitionResult(true, m.status, ShowFallback, None, Some("connection_lost_in_safe_mode")))
    else
      (m.(status := FallbackState,
          active := None,
          activatedAt := None,
          freezeReason := None,
          cooldowns := CooldownsAfterDisplacement(m, now)),
       TransitionResult(true, FallbackState, ShowFallback, None, Some("connection_lost")))
  }

  /** A manifest is active, with a start time, exactly in the two states that show one. */
  ghost predicate Consistent(m: Machine) {
    && (m.active.Some? <==> m.status == ActiveState || m.status == FrozenState)
    && (m.activatedAt.Some? <==> m.active.Some?)
  }

  class StateMachine {
    var state: Status
    var activeManifestId: Option<ManifestId>
    var activatedAt: Option<real>
    var minDwellMs: nat
    var cooldownMsForActive: nat
    var freezeReason: Option<string>
    var safeModeReason: Option<string>
    var cooldowns: map<ManifestId, CooldownEntry>

    ghost function View(): Machine
      reads this
    {
      Machine(state, activeManifestId, activatedAt, minDwellMs, cooldownMsForActive,
              freezeReason, safeModeReason, cooldowns)
    }

    constructor ()
      ensures View() == INITIAL
    {
      state := FallbackState;
      activeManifestId, activatedAt := None, None;
      minDwellMs, cooldownMsForActive := 0, 0;
      freezeReason, safeModeReason := None, None;
      cooldowns := map[];
    }

    method RecordCooldown(now: real)
      modifies this`cooldowns
      ensures cooldowns == CooldownsAfterDisplacement(old(View()), now)
    {
      if activeManifestId.Some? {
        cooldowns := cooldowns[activeManifestId.value := CooldownEntry(now, cooldownMsForActive)];
      }
    }

    method OnActivateCreative(id: ManifestId, dwellMs: nat, cooldownMs: nat, now: real)
      returns (r: TransitionResult)
      modifies this
      ensures (View(), r) == OnActivate(old(View()), id, dwellMs, cooldownMs, now)
    {
      if state == SafeModeState {
        return TransitionResult(false, state, ShowFallback, None, Some("safe_mode"));
      }
      if state == ActiveState && activatedAt.Some?
         && ElapsedMs(activatedAt.value, now) < minDwellMs as real {
        return TransitionResult(false, state, Hold, activeManifestId, Some("dwell_not_elapsed"));
      }
      if id in cooldowns
         && ElapsedMs(cooldowns[id].deactivatedAt, now) < cooldowns[id].cooldownMs as real {
        return TransitionResult(false, state, Hold, activeManifestId, Some("cooldown"));
      }
      RecordCooldown(now);
      state := ActiveState;
      activeManifestId := Some(id);
      activatedAt := Some(now);
      minDwellMs := dwellMs;
      cooldownMsForActive := cooldownMs;
      freezeReason := None;
      r := TransitionResult(true, ActiveState, PlayManifest, Some(id), None);
    }

    method OnFreezeCommand(reason: Option<string>) returns (r: TransitionResult)
      modifies this
      ensures (View(), r) == OnFreeze(old(View()), reason)
    {
      if state == SafeModeState {
        return TransitionResult(false, state, ShowFallback, None, Some("safe_mode"));
      }
      if state == FallbackState {
        return TransitionResult(false, state, ShowFallback, None, Some("no_active_creative"));
      }
      if state == FrozenState {
        freezeReason := reason;
        return TransitionResult(true, state, Hold, activeManifestId, None);
      }
      state := FrozenState;
      freezeReason := reason;
      r := TransitionResult(true, FrozenState, Hold, activeManifestId, None);
    }

    method OnSafeModeCommand(reason: Option<string>, now: real) returns (r: TransitionResult)
      modifies this
      ensures (View(), r) == OnSafeMode(old(View()), reason, now)
    {
      RecordCooldown(now);
      state := SafeModeState;
      safeModeReason := reason;
      activeManifestId, activatedAt, freezeReason := None, None, None;
      r := TransitionResult(true, SafeModeState, ShowFallback, None, reason);
    }

    method OnClearSafeModeCommand() returns (r: TransitionResult)
      modifies this
      ensures (View(), r) == OnClearSafeMode(old(View()))
    {
      if state != SafeModeState {
        return TransitionResult(false, state, Hold, None, Some("not_in_safe_mode"));
      }
      state := FallbackState;
      safeModeReason := None;
      r := TransitionResult(true, FallbackState, ShowFallback, None, None);
    }

    method OnConnectionLostEvent(now: real) returns (r: TransitionResult)
      modifies this
      ensures (View(), r) == OnConnectionLost(old(View()), now)
    {
      if state == SafeModeState {
        return TransitionResult(true, state, ShowFallback, None, Some("connection_lost_in_safe_mode"));
      }
      RecordCooldown(now);
      state := FallbackState;
      activeManifestId, activatedAt, freezeReason := None, None, None;
      r := TransitionResult(true, FallbackState, ShowFallback, None, Some("connection_lost"));
    }
  }
}
