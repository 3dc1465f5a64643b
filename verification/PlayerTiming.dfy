/**
 Whole-run guarantees of the player's state machine: minimum dwell, cooldown and
 sticky safe mode, over every sequence of timed events.
 */
module PlayerTiming {
  import opened Wrappers
  import opened PlayerState

  datatype Event =
    | Activate(id: ManifestId, dwellMs: nat, cooldownMs: nat)
    | Freeze(reason: Option<string>)
    | EngageSafeMode(reason: Option<string>)
    | ClearSafeMode
    | LoseConnection
    | Idle // a message that never reaches the machine

  datatype Timed = Timed(at: real, event: Event)

  function Apply(m: Machine, e: Timed): Machine {
    match e.event
    case Activate(id, dwellMs, cooldownMs) => OnActivate(m, id, dwellMs, cooldownMs, e.at).0
    case Freeze(reason) => OnFreeze(m, reason).0
    case EngageSafeMode(reason) => OnSafeMode(m, reason, e.at).0
    case ClearSafeMode => OnClearSafeMode(m).0
    case LoseConnection => OnConnectionLost(m, e.at).0
    case Idle => m
  }

  function Run(run: seq<Timed>): Machine {
    if run == [] then INITIAL else Apply(Run(run[..|run| - 1]), run[|run| - 1])
  }

  ghost predicate Chronological(run: seq<Timed>) {
    forall i, j :: 0 <= i < j < |run| ==> run[i].at <= run[j].at
  }

  /** Event i is an activate command for this manifest, and the machine accepts it. */
  predicate ActivatesAt(run: seq<Timed>, i: nat, id: ManifestId)
    requires i < |run|
  {
    && run[i].event.Activate?
    && run[i].event.id == id
    && OnActivate(Run(run[..i]), id, run[i].event.dwellMs, run[i].event.cooldownMs, run[i].at).1.accepted
  }

  /** The events, besides an accepted activation, that end or suspend a dwell. */
  predicate Interrupts(e: Event) {
    e.Freeze? || e.EngageSafeMode? || e.LoseConnection?
  }

  lemma RunStep(run: seq<Timed>, i: nat)
    requires i < |run|
    ensures Run(run[..i + 1]) == Apply(Run(run[..i]), run[i])
  {
    assert run[..i + 1][..i] == run[..i];
  }

  lemma {:induction false} RunConsistent(run: seq<Timed>)
    ensures Consistent(Run(run))
  {
    if run != [] {
      RunConsistent(run[..|run| - 1]);
    }
  }

  // ---------- dwell ----------

  /** After an accepted activation and without interruption, either that activation is still
      the current one, or the current one came at least its dwell later. */
  lemma {:induction false} DwellHolds(run: seq<Timed>, i: nat, a: ManifestId, k: nat)
    requires Chronological(run) && i < k <= |run| && ActivatesAt(run, i, a)
    requires forall x :: i < x < k ==> !Interrupts(run[x].event)
    ensures var m := Run(run[..k]);
            && m.status == ActiveState && m.activatedAt.Some?
            && (|| (m.activatedAt.value == run[i].at && m.minDwellMs == run[i].event.dwellMs)
                || ElapsedMs(run[i].at, m.activatedAt.value) >= run[i].event.dwellMs as real)
  {
    RunStep(run, k - 1);
    if k > i + 1 {
      DwellHolds(run, i, a, k - 1);
      assert run[i].at <= run[k - 1].at;
    }
  }

  /** A switch is never accepted before the minimum dwell of the activation it replaces. */
  lemma DwellRespected(run: seq<Timed>, i: nat, a: ManifestId, j: nat, b: ManifestId)
    requires Chronological(run) && i < j < |run| && ActivatesAt(run, i, a) && ActivatesAt(run, j, b)
    requires forall x :: i < x < j ==> !Interrupts(run[x].event)
    ensures ElapsedMs(run[i].at, run[j].at) >= run[i].event.dwellMs as real
  {
    DwellHolds(run, i, a, j);
  }

  // ---------- cooldown ----------

  /** The cooldown of this manifest runs at least until the given time, and displacing it
      again cannot shorten that. */
  ghost predicate Protected(m: Machine, id: ManifestId, c: nat, release: real) {
    && id in m.cooldowns
    && m.cooldowns[id].deactivatedAt * 1000.0 + m.cooldowns[id].cooldownMs as real >= release
    && (m.active == Some(id) ==> m.cooldownMsForActive >= c)
  }

  lemma ProtectionKept(m: Machine, e: Timed, id: ManifestId, c: nat, since: real)
    requires Protected(m, id, c, since * 1000.0 + c as real) && since <= e.at
    ensures || Protected(Apply(m, e), id, c, since * 1000.0 + c as real)
            || e.at * 1000.0 >= since * 1000.0 + c as real
    ensures e.event.Activate? && e.event.id == id
            && OnActivate(m, id, e.event.dwellMs, e.event.cooldownMs, e.at).1.accepted
        ==> e.at * 1000.0 >= since * 1000.0 + c as real
  {
  }

  /** Event d ends the stretch during which `id` was the active manifest with cooldown c. */
  predicate Displaces(run: seq<Timed>, d: nat, id: ManifestId, c: nat)
    requires d < |run|
  {
    var m := Run(run[..d]);
    && m.active == Some(id) && m.cooldownMsForActive == c
    && (|| (run[d].event.Activate? && ActivatesAt(run, d, run[d].event.id))
        || run[d].event.EngageSafeMode?
        || run[d].event.LoseConnection?)
  }

  /** The displacing command activates the same manifest again with a shorter cooldown. */
  predicate RenewsWithShorterCooldown(e: Event, id: ManifestId, c: nat) {
    e.Activate? && e.id == id && e.cooldownMs < c
  }

  lemma ProtectionBegins(run: seq<Timed>, d: nat, id: ManifestId, c: nat)
    requires d < |run| && Displaces(run, d, id, c)
    requires !RenewsWithShorterCooldown(run[d].event, id, c)
    ensures Protected(Run(run[..d + 1]), id, c, run[d].at * 1000.0 + c as real)
  {
    RunStep(run, d);
    RunConsistent(run[..d]);
  }

  lemma {:induction false} ProtectionLasts(run: seq<Timed>, d: nat, id: ManifestId, c: nat, k: nat)
    requires Chronological(run) && d < k <= |run| && Displaces(run, d, id, c)
    requires !RenewsWithShorterCooldown(run[d].event, id, c)
    ensures || Protected(Run(run[..k]), id, c, run[d].at * 1000.0 + c as real)
            || (k > 0 && run[k - 1].at * 1000.0 >= run[d].at * 1000.0 + c as real)
  {
    if k == d + 1 {
      ProtectionBegins(run, d, id, c);
    } else {
      ProtectionLasts(run, d, id, c, k - 1);
      RunStep(run, k - 1);
      assert run[k - 2].at <= run[k - 1].at;
      if Protected(Run(run[..k - 1]), id, c, run[d].at * 1000.0 + c as real) {
        ProtectionKept(Run(run[..k - 1]), run[k - 1], id, c, run[d].at);
      }
    }
  }

  /** After a displacement, the manifest is not activated again before its cooldown is over. */
  lemma CooldownRespected(run: seq<Timed>, d: nat, id: ManifestId, c: nat, j: nat)
    requires Chronological(run) && d < j < |run| && Displaces(run, d, id, c)
    requires !RenewsWithShorterCooldown(run[d].event, id, c)
    requires ActivatesAt(run, j, id)
    ensures ElapsedMs(run[d].at, run[j].at) >= c as real
  {
    ProtectionLasts(run, d, id, c, j);
    assert run[j - 1].at <= run[j].at && run[d].at <= run[j].at;
    if Protected(Run(run[..j]), id, c, run[d].at * 1000.0 + c as real) {
      ProtectionKept(Run(run[..j]), run[j], id, c, run[d].at);
    }
  }

  /** No continuation of the run activates the manifest before its cooldown is over. */
  ghost predicate CooldownGuaranteed(run: seq<Timed>, id: ManifestId, c: nat)
    requires run != []
  {
    forall more: seq<Timed>, j: nat ::
      Chronological(run + more) && |run| <= j < |run + more| && ActivatesAt(run + more, j, id)
      ==> ElapsedMs(run[|run| - 1].at, (run + more)[j].at) >= c as real
  }

  /** The continuation that gets round a cooldown: enter and leave safe mode at the time of
      the renewal, then activate once the shorter cooldown is over. */
  function Detour(id: ManifestId, at: real, shorter: nat): seq<Timed> {
    [Timed(at, EngageSafeMode(None)),
     Timed(at, ClearSafeMode),
     Timed(at + shorter as real / 1000.0, Activate(id, 0, 0))]
  }

  lemma DetourActivatesEarly(run: seq<Timed>, id: ManifestId, c: nat)
    requires run != [] && Chronological(run) && Displaces(run, |run| - 1, id, c)
    requires RenewsWithShorterCooldown(run[|run| - 1].event, id, c)
    ensures !CooldownGuaranteed(run, id, c)
  {
    var n := |run|;
    var last := run[n - 1];
    var more := Detour(id, last.at, last.event.cooldownMs);
    var all := run + more;
    assert all[..n] == run && all[..n][..n - 1] == run[..n - 1];
    RunStep(all, n);
    RunStep(all, n + 1);
    assert Run(run).active == Some(id) && Run(run).cooldownMsForActive == last.event.cooldownMs;
    assert ActivatesAt(all, n + 2, id);
    assert Chronological(all);
    assert ElapsedMs(last.at, all[n + 2].at) == last.event.cooldownMs as real;
  }

  /** Such a run: "a" is activated with a cooldown of five seconds and, one second later, renewed
      without any; it may then be activated at once, instead of after the five seconds. */
  lemma RenewalExample()
    ensures var run := [Timed(0.0, Activate("a", 0, 5000)), Timed(1.0, Activate("a", 0, 0))];
            Displaces(run, 1, "a", 5000) && !CooldownGuaranteed(run, "a", 5000)
  {
    var run := [Timed(0.0, Activate("a", 0, 5000)), Timed(1.0, Activate("a", 0, 0))];
    RunStep(run, 0);
    DetourActivatesEarly(run, "a", 5000);
  }

  /** A displacement guarantees the displaced manifest's cooldown over every continuation,
      unless the displacing command renews the manifest with a shorter one. */
  lemma CooldownGuaranteedIff(run: seq<Timed>, id: ManifestId, c: nat)
    requires run != [] && Chronological(run) && Displaces(run, |run| - 1, id, c)
    ensures CooldownGuaranteed(run, id, c)
       <==> !RenewsWithShorterCooldown(run[|run| - 1].event, id, c)
  {
    var n := |run|;
    if RenewsWithShorterCooldown(run[n - 1].event, id, c) {
      DetourActivatesEarly(run, id, c);
    } else {
      forall more: seq<Timed>, j: nat
        | Chronological(run + more) && n <= j < |run + more| && ActivatesAt(run + more, j, id)
        ensures ElapsedMs(run[n - 1].at, (run + more)[j].at) >= c as real
      {
        assert (run + more)[..n - 1] == run[..n - 1];
        assert (run + more)[n - 1] == run[n - 1];
        CooldownRespected(run + more, n - 1, id, c, j);
      }
    }
  }

  /** The cooldown in force is the one the active manifest was activated with. */
  lemma {:induction false} ActiveKeepsItsCooldown(run: seq<Timed>, i: nat, a: ManifestId, k: nat)
    requires i < k <= |run| && ActivatesAt(run, i, a)
    requires forall x :: i < x < k ==> !Interrupts(run[x].event)
    requires forall x, b :: i < x < k ==> !ActivatesAt(run, x, b)
    ensures Run(run[..k]).active == Some(a)
    ensures Run(run[..k]).cooldownMsForActive == run[i].event.cooldownMs
  {
    RunStep(run, k - 1);
    if k > i + 1 {
      ActiveKeepsItsCooldown(run, i, a, k - 1);
      if run[k - 1].event.Activate? {
        assert !ActivatesAt(run, k - 1, run[k - 1].event.id);
      }
    }
  }

  /** Going from A to B and back to A by plain switches takes at least A's dwell and then
      the longer of A's cooldown and B's dwell. */
  lemma ThereAndBack(run: seq<Timed>, i: nat, j: nat, k: nat, a: ManifestId, b: ManifestId)
    requires Chronological(run) && i < j < k < |run| && a != b
    requires ActivatesAt(run, i, a) && ActivatesAt(run, j, b) && ActivatesAt(run, k, a)
    requires forall x :: i < x < k ==> !Interrupts(run[x].event)
    requires forall x, m :: i < x < j ==> !ActivatesAt(run, x, m)
    ensures var dwellA, cooldownA := run[i].event.dwellMs, run[i].event.cooldownMs;
            var dwellB := run[j].event.dwellMs;
            ElapsedMs(run[i].at, run[k].at)
            >= (dwellA + if cooldownA >= dwellB then cooldownA else dwellB) as real
  {
    DwellRespected(run, i, a, j, b);
    DwellRespected(run, j, b, k, a);
    ActiveKeepsItsCooldown(run, i, a, j);
    CooldownRespected(run, j, a, run[i].event.cooldownMs, k);
  }

  // ---------- safe mode ----------

  /** The last safe-mode event of the run, if any, was an engagement. */
  predicate SafeModeEngaged(run: seq<Timed>) {
    run != [] &&
    var e := run[|run| - 1].event;
    if e.EngageSafeMode? then true
    else if e.ClearSafeMode? then false
    else SafeModeEngaged(run[..|run| - 1])
  }

  /** Safe mode is entered by every engagement, from any state, and left only by a clear. */
  lemma {:induction false} SafeModeIsSticky(run: seq<Timed>)
    ensures Run(run).status == SafeModeState <==> SafeModeEngaged(run)
  {
    if run != [] {
      SafeModeIsSticky(run[..|run| - 1]);
    }
  }
}
