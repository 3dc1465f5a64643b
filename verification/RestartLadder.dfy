/**
 The supervisor's restart ladder: probes, failures, restarts limited by a pruned list of
 timestamps and a lifetime total, and the two terminal states.
 */
module RestartLadder {
  import opened Wrappers
  import opened Recency

  datatype Decision = Restarted | BootLoop | Escalated | Skipped | DockerFailed

  datatype Limits = Limits(restartThreshold: int, fastFailWindowS: real,
                           bootLoopThreshold: int, failureThreshold: int)

  /** The value of a service's runtime record. */
  datatype Record = Record(
    isHealthy: bool,
    consecutiveFailures: nat,
    restartCount: nat,
    restartTimestamps: seq<real>,
    lastRestartAt: Option<real>,
    inBootLoop: bool,
    escalated: bool)

  const FRESH := Record(true, 0, 0, [], None, false, false)

  function Itself(t: real): real {
    t
  }

  function Pruned(timestamps: seq<real>, windowS: real, now: real): seq<real> {
    Recent(timestamps, Itself, now - windowS)
  }

  function AfterFailure(r: Record): Record {
    r.(isHealthy := false, consecutiveFailures := r.consecutiveFailures + 1)
  }

  function AfterHealthy(r: Record): Record {
    r.(isHealthy := true, consecutiveFailures := 0)
  }

  /** One evaluation of the ladder; `dockerOk` is whether a restart command would succeed. */
  function Evaluate(r: Record, l: Limits, now: real, dockerOk: bool): (Record, Decision) {
    if r.consecutiveFailures < l.failureThreshold then (r, Skipped)
    else if r.inBootLoop || r.escalated then (r, Skipped)
    else
      var p := r.(restartTimestamps := Pruned(r.restartTimestamps, l.fastFailWindowS, now));
      if |p.restartTimestamps| >= l.bootLoopThreshold then (p.(inBootLoop := true), BootLoop)
      else if p.restartCount >= l.restartThreshold then (p.(escalated := true), Escalated)
      else if dockerOk then
        (p.(restartCount := p.restartCount + 1,
            restartTimestamps := p.restartTimestamps + [now],
            lastRestartAt := Some(now)), Restarted)
      else (p, DockerFailed)
  }

  // ---------- the classes ----------

  class ServiceState {
    var isHealthy: bool
    var consecutiveFailures: nat
    var restartCount: nat
    var restartTimestamps: seq<real>
    var lastRestartAt: Option<real>
    var inBootLoop: bool
    var escalated: bool

    ghost function View(): Record
      reads this
    {
      Record(isHealthy, consecutiveFailures, restartCount, restartTimestamps, lastRestartAt, inBootLoop, escalated)
    }

    constructor ()
      ensures View() == FRESH
    {
      isHealthy, consecutiveFailures, restartCount := true, 0, 0;
      restartTimestamps, lastRestartAt := [], None;
      inBootLoop, escalated := false, false;
    }

    method RecordHealthy()
      modifies this
      ensures View() == AfterHealthy(old(View()))
    {
      isHealthy := true;
      consecutiveFailures := 0;
    }

    method RecordFailure()
      modifies this
      ensures View() == AfterFailure(old(View()))
    {
      isHealthy := false;
      consecutiveFailures := consecutiveFailures + 1;
    }

    method RecordRestart(now: real)
      modifies this
      ensures View() == old(View()).(restartCount := old(restartCount) + 1,
                                     restartTimestamps := old(restartTimestamps) + [now],
                                     lastRestartAt := Some(now))
    {
      restartCount := restartCount + 1;
      restartTimestamps := restartTimestamps + [now];
      lastRestartAt := Some(now);
    }

    method PruneTimestamps(windowS: real, now: real)
      modifies this`restartTimestamps
      ensures restartTimestamps == Pruned(old(restartTimestamps), windowS, now)
    {
      restartTimestamps := Recent(restartTimestamps, Itself, now - windowS);
    }
  }

  class RestartManager {
    const limits: Limits

    constructor (limits: Limits)
      ensures this.limits == limits
    {
      this.limits := limits;
    }

    method EvaluateService(state: ServiceState, now: real, dockerOk: bool) returns (decision: Decision)
      modifies state
      ensures (state.View(), decision) == Evaluate(old(state.View()), limits, now, dockerOk)
    {
      if state.consecutiveFailures < limits.failureThreshold {
        return Skipped;
      }
      if state.inBootLoop || state.escalated {
        return Skipped;
      }
      state.PruneTimestamps(limits.fastFailWindowS, now);
      if |state.restartTimestamps| >= limits.bootLoopThreshold {
        state.inBootLoop := true;
        return BootLoop;
      }
      if state.restartCount >= limits.restartThreshold {
        state.escalated := true;
        return Escalated;
      }
      if !dockerOk {
        return DockerFailed;
      }
      state.RecordRestart(now);
      return Restarted;
    }

    /** One round of the health loop for one service. */
    method Probe(state: ServiceState, p: Probing) returns (decision: Option<Decision>)
      modifies state
      ensures (state.View(), decision) == OnProbe(old(state.View()), limits, p)
    {
      if p.healthy {
        state.RecordHealthy();
        return None;
      }
      state.RecordFailure();
      var d := EvaluateService(state, p.at, p.dockerOk);
      decision := Some(d);
    }
  }

  // ---------- runs ----------

  datatype Probing = Probing(at: real, healthy: bool, dockerOk: bool)

  function OnProbe(r: Record, l: Limits, p: Probing): (Record, Option<Decision>) {
    if p.healthy then (AfterHealthy(r), None)
    else
      var (next, d) := Evaluate(AfterFailure(r), l, p.at, p.dockerOk);
      (next, Some(d))
  }

  /** A service's record with the times of all its restarts and all decisions, in order. */
  datatype History = History(record: Record, restarts: seq<real>, decisions: seq<Decision>)

  function Extend(h: History, l: Limits, p: Probing): History {
    var (r, d) := OnProbe(h.record, l, p);
    History(r,
            if d == Some(Restarted) then h.restarts + [p.at] else h.restarts,
            if d.Some? then h.decisions + [d.value] else h.decisions)
  }

  function Run(l: Limits, probes: seq<Probing>): History {
    if probes == [] then History(FRESH, [], [])
    else Extend(Run(l, probes[..|probes| - 1]), l, probes[|probes| - 1])
  }

  ghost predicate Chronological(probes: seq<Probing>) {
    forall i, j :: 0 <= i < j < |probes| ==> probes[i].at <= probes[j].at
  }

  function AtLeastZero(n: int): nat {
    if n < 0 then 0 else n
  }

  /** The restarts are in order of time, none later than the last probe. */
  ghost predicate Ascending(ts: seq<real>, last: real) {
    && (forall i, j :: 0 <= i < j < |ts| ==> ts[i] <= ts[j])
    && forall i :: 0 <= i < |ts| ==> ts[i] <= last
  }

  lemma {:induction false} RestartsAscend(l: Limits, probes: seq<Probing>, now: real)
    requires Chronological(probes) && (forall i :: 0 <= i < |probes| ==> probes[i].at <= now)
    ensures Ascending(Run(l, probes).restarts, now)
  {
    if probes != [] {
      RestartsAscend(l, probes[..|probes| - 1], probes[|probes| - 1].at);
    }
  }

  /** What a probe may do to the list of timestamps: nothing, prune it, or prune it and restart. */
  lemma ProbeOnTimestamps(r: Record, l: Limits, p: Probing)
    ensures var (next, d) := OnProbe(r, l, p);
            var pruned := Pruned(r.restartTimestamps, l.fastFailWindowS, p.at);
            if d == Some(Restarted) then next.restartTimestamps == pruned + [p.at]
            else next.restartTimestamps == r.restartTimestamps || next.restartTimestamps == pruned
  {
  }

  /** Two lists alike within the window at `now` stay alike when one of them is pruned at an
      earlier time and the other is not, and the same restart is then added to both. */
  lemma PruningOneIsUnseen(kept: seq<real>, all: seq<real>, windowS: real, at: real, now: real)
    requires at <= now && Pruned(kept, windowS, now) == Pruned(all, windowS, now)
    ensures var pruned := Pruned(kept, windowS, at);
            && Pruned(pruned, windowS, now) == Pruned(all, windowS, now)
            && Pruned(pruned + [at], windowS, now) == Pruned(all + [at], windowS, now)
  {
    var cutoff := now - windowS;
    RecentAfterRecent(kept, Itself, at - windowS, cutoff);
    RecentOfAppend(Pruned(kept, windowS, at), at, Itself, cutoff);
    RecentOfAppend(all, at, Itself, cutoff);
  }

  /** The pruned list is, at every later time, as good as the full list of restarts. */
  lemma {:induction false} PrunedListSuffices(l: Limits, probes: seq<Probing>, now: real)
    requires Chronological(probes) && (forall i :: 0 <= i < |probes| ==> probes[i].at <= now)
    ensures Pruned(Run(l, probes).record.restartTimestamps, l.fastFailWindowS, now)
         == Pruned(Run(l, probes).restarts, l.fastFailWindowS, now)
  {
    if probes != [] {
      var before, p := probes[..|probes| - 1], probes[|probes| - 1];
      var h := Run(l, before);
      PrunedListSuffices(l, before, now);
      ProbeOnTimestamps(h.record, l, p);
      PruningOneIsUnseen(h.record.restartTimestamps, h.restarts, l.fastFailWindowS, p.at, now);
    }
  }

  /** In an ascending list, everything from the i-th entry on is recent once that entry is. */
  lemma {:induction false} RecentTail(ts: seq<real>, i: nat, cutoff: real)
    requires i <= |ts| && forall k :: i <= k < |ts| ==> ts[k] >= cutoff
    ensures |Recent(ts, Itself, cutoff)| >= |ts| - i
  {
    if i < |ts| {
      RecentTail(ts[..|ts| - 1], i, cutoff);
    }
  }

  /** A restart is only issued while fewer than the threshold of recent restarts are kept. */
  lemma RestartOnlyBelowThreshold(h: History, l: Limits, p: Probing)
    ensures var restarts := Extend(h, l, p).restarts;
            || restarts == h.restarts
            || (restarts == h.restarts + [p.at]
                && |Pruned(h.record.restartTimestamps, l.fastFailWindowS, p.at)| < l.bootLoopThreshold)
  {
  }

  /** With fewer than the threshold of restarts in the window before this time, those from the
      i-th on, if they are in the window, and one more do not exceed it. */
  lemma RoomForOneMore(earlier: seq<real>, l: Limits, at: real, i: nat)
    requires Ascending(earlier, at) && i <= |earlier|
    requires |Pruned(earlier, l.fastFailWindowS, at)| < l.bootLoopThreshold
    requires i < |earlier| ==> at - earlier[i] <= l.fastFailWindowS
    ensures |earlier| - i + 1 <= AtLeastZero(l.bootLoopThreshold)
  {
    RecentTail(earlier, i, at - l.fastFailWindowS);
  }

  /** No more restarts lie within one window length of each other than the boot-loop threshold:
      the i-th and j-th of them are further apart. */
  lemma {:induction false} RestartRateLimited(l: Limits, probes: seq<Probing>, i: nat, j: nat)
    requires Chronological(probes)
    requires i <= j < |Run(l, probes).restarts|
    requires Run(l, probes).restarts[j] - Run(l, probes).restarts[i] <= l.fastFailWindowS
    ensures j - i + 1 <= AtLeastZero(l.bootLoopThreshold)
  {
    var before, p := probes[..|probes| - 1], probes[|probes| - 1];
    var earlier := Run(l, before).restarts;
    RestartOnlyBelowThreshold(Run(l, before), l, p);
    if j < |earlier| {
      RestartRateLimited(l, before, i, j);
    } else {
      RestartsAscend(l, before, p.at);
      PrunedListSuffices(l, before, p.at);
      RoomForOneMore(earlier, l, p.at, i);
    }
  }

  function CountBetween(ts: seq<real>, from: real, to: real): nat {
    if ts == [] then 0
    else CountBetween(ts[..|ts| - 1], from, to) + if from <= ts[|ts| - 1] <= to then 1 else 0
  }

  lemma {:induction false} CountSpan(ts: seq<real>, from: real, to: real, i: nat)
    requires i <= |ts| && (forall k :: 0 <= k < i ==> ts[k] < from)
    ensures CountBetween(ts, from, to) <= |ts| - i
  {
    if ts != [] {
      var init := ts[..|ts| - 1];
      if i == |ts| {
        CountSpan(init, from, to, i - 1);
      } else {
        CountSpan(init, from, to, i);
      }
    }
  }

  lemma {:induction false} CountIgnoresLate(ts: seq<real>, from: real, to: real, j: nat)
    requires j <= |ts| && (forall k :: j <= k < |ts| ==> ts[k] > to)
    ensures CountBetween(ts, from, to) == CountBetween(ts[..j], from, to)
  {
    if j < |ts| {
      CountIgnoresLate(ts[..|ts| - 1], from, to, j);
      assert ts[..|ts| - 1][..j] == ts[..j];
    } else {
      assert ts[..j] == ts;
    }
  }

  /** The first index from which an ascending list has reached a value, strictly or not. */
  lemma FirstIndex(ts: seq<real>, v: real, strictly: bool, last: real) returns (i: nat)
    requires Ascending(ts, last)
    ensures i <= |ts|
    ensures forall k :: 0 <= k < i ==> if strictly then ts[k] <= v else ts[k] < v
    ensures forall k :: i <= k < |ts| ==> if strictly then ts[k] > v else ts[k] >= v
  {
    i := 0;
    while i < |ts| && (if strictly then ts[i] <= v else ts[i] < v)
      invariant i <= |ts|
      invariant forall k :: 0 <= k < i ==> if strictly then ts[k] <= v else ts[k] < v
    {
      i := i + 1;
    }
  }

  /** Of an ascending list, at most the entries from index i up to j lie in the interval. */
  lemma CountWithin(ts: seq<real>, from: real, to: real, i: nat, j: nat)
    requires i <= |ts| && j <= |ts|
    requires forall k :: 0 <= k < i ==> ts[k] < from
    requires forall k :: j <= k < |ts| ==> ts[k] > to
    ensures CountBetween(ts, from, to) <= if i < j then j - i else 0
  {
    CountIgnoresLate(ts, from, to, j);
    CountSpan(ts[..j], from, to, if i < j then i else j);
  }

  /** Any closed interval of the window's length holds at most the boot-loop threshold of
      restarts, although only a pruned list of them is kept. */
  lemma RestartsPerWindow(l: Limits, probes: seq<Probing>, from: real)
    requires Chronological(probes)
    ensures CountBetween(Run(l, probes).restarts, from, from + l.fastFailWindowS) <= AtLeastZero(l.bootLoopThreshold)
  {
    var ts, to := Run(l, probes).restarts, from + l.fastFailWindowS;
    var last := if probes == [] then 0.0 else probes[|probes| - 1].at;
    RestartsAscend(l, probes, last);
    var i := FirstIndex(ts, from, false, last);
    var j := FirstIndex(ts, to, true, last);
    CountWithin(ts, from, to, i, j);
    if i < j {
      assert ts[i] >= from && ts[j - 1] <= to;
      RestartRateLimited(l, probes, i, j - 1);
    }
  }

  /** The lifetime total never exceeds the restart threshold, and counts the restarts. */
  lemma {:induction false} RestartTotalLimited(l: Limits, probes: seq<Probing>)
    ensures var h := Run(l, probes);
            h.record.restartCount == |h.restarts| <= AtLeastZero(l.restartThreshold)
  {
    if probes != [] {
      RestartTotalLimited(l, probes[..|probes| - 1]);
    }
  }

  // ---------- terminal states ----------

  predicate Terminal(r: Record) {
    r.inBootLoop || r.escalated
  }

  function TerminalDecisions(ds: seq<Decision>): nat {
    if ds == [] then 0
    else TerminalDecisions(ds[..|ds| - 1])
         + if ds[|ds| - 1].BootLoop? || ds[|ds| - 1].Escalated? then 1 else 0
  }

  lemma TerminalDecisionsAppend(ds: seq<Decision>, d: Decision)
    ensures TerminalDecisions(ds + [d]) == TerminalDecisions(ds) + if d.BootLoop? || d.Escalated? then 1 else 0
  {
    assert (ds + [d])[..|ds|] == ds;
  }

  /** A terminal decision is returned at most once, exactly if one of the two flags is set, and
      they are never both set. */
  lemma {:induction false} OneTerminalDecision(l: Limits, probes: seq<Probing>)
    ensures var h := Run(l, probes);
            && !(h.record.inBootLoop && h.record.escalated)
            && TerminalDecisions(h.decisions) == if Terminal(h.record) then 1 else 0
  {
    if probes != [] {
      var h, p := Run(l, probes[..|probes| - 1]), probes[|probes| - 1];
      OneTerminalDecision(l, probes[..|probes| - 1]);
      var d := OnProbe(h.record, l, p).1;
      if d.Some? {
        TerminalDecisionsAppend(h.decisions, d.value);
      }
    }
  }

  /** Once set, a flag stays set, and no restart happens any more. */
  lemma {:induction false} TerminalIsFinal(l: Limits, probes: seq<Probing>, k: nat)
    requires k <= |probes| && Terminal(Run(l, probes[..k]).record)
    ensures var then', now := Run(l, probes[..k]), Run(l, probes);
            && then'.record.inBootLoop == now.record.inBootLoop
            && then'.record.escalated == now.record.escalated
            && then'.restarts == now.restarts
    decreases |probes|
  {
    if k < |probes| {
      assert probes[..|probes| - 1][..k] == probes[..k];
      TerminalIsFinal(l, probes[..|probes| - 1], k);
    } else {
      assert probes[..k] == probes;
    }
  }

  /** A probe returns a terminal decision exactly when it makes a record terminal. */
  lemma ProbeTerminates(r: Record, l: Limits, p: Probing)
    ensures var (next, d) := OnProbe(r, l, p);
            && (Terminal(r) ==> Terminal(next))
            && (!Terminal(r) && Terminal(next) <==> d == Some(BootLoop) || d == Some(Escalated))
  {
  }

  ghost predicate AllUnhealthy(probes: seq<Probing>) {
    forall i :: 0 <= i < |probes| ==> !probes[i].healthy
  }

  /** How many of the probes find a restart command that succeeds. */
  function Restartable(probes: seq<Probing>): nat {
    if probes == [] then 0
    else Restartable(probes[..|probes| - 1]) + if probes[|probes| - 1].dockerOk then 1 else 0
  }

  /** The probes from the one on at which the failure threshold is reached. */
  function PastThreshold(l: Limits, failing: seq<Probing>): seq<Probing> {
    if |failing| < l.failureThreshold then [] else failing[AtLeastZero(l.failureThreshold - 1)..]
  }

  lemma RestartableAppend(probes: seq<Probing>, p: Probing)
    ensures Restartable(probes + [p]) == Restartable(probes) + if p.dockerOk then 1 else 0
  {
    assert (probes + [p])[..|probes|] == probes;
  }

  lemma RunOneMore(l: Limits, probes: seq<Probing>, p: Probing)
    ensures Run(l, probes + [p]) == Extend(Run(l, probes), l, p)
  {
    assert (probes + [p])[..|probes|] == probes;
  }

  /** Past the failure threshold, a failing probe whose restart command succeeds restarts the
      service or gives it up. */
  lemma FailingProbe(r: Record, l: Limits, p: Probing)
    requires !p.healthy
    ensures var next := OnProbe(r, l, p).0;
            && next.consecutiveFailures == r.consecutiveFailures + 1
            && next.restartCount >= r.restartCount
            && (Terminal(r) ==> Terminal(next))
            && (r.consecutiveFailures + 1 >= l.failureThreshold ==>
                  && (p.dockerOk ==> Terminal(next) || next.restartCount == r.restartCount + 1)
                  && (r.restartCount >= l.restartThreshold ==> Terminal(next)))
  {
  }

  lemma PastThresholdAppend(l: Limits, failing: seq<Probing>, p: Probing)
    requires l.failureThreshold >= 1 && |failing| + 1 >= l.failureThreshold
    ensures PastThreshold(l, failing + [p]) == PastThreshold(l, failing) + [p]
  {
    var from := l.failureThreshold - 1;
    assert (failing + [p])[from..] == failing[from..] + [p];
    if |failing| == from {
      assert failing[from..] == [];
    }
  }

  /** As many failures in a row as failing probes, and given up unless restarted at every one of
      them past the threshold whose restart command succeeds. */
  ghost predicate Progressed(r: Record, l: Limits, failing: seq<Probing>) {
    && r.consecutiveFailures >= |failing|
    && (Terminal(r) || r.restartCount >= Restartable(PastThreshold(l, failing)))
  }

  lemma ProgressStep(r: Record, l: Limits, failing: seq<Probing>, p: Probing)
    requires Progressed(r, l, failing) && !p.healthy && l.failureThreshold >= 1
    ensures Progressed(OnProbe(r, l, p).0, l, failing + [p])
  {
    FailingProbe(r, l, p);
    if |failing| + 1 >= l.failureThreshold {
      PastThresholdAppend(l, failing, p);
      RestartableAppend(PastThreshold(l, failing), p);
    }
  }

  /** From any past on, while probes fail, every one past the failure threshold whose restart
      command succeeds restarts or terminates; failed commands in between do no harm. */
  lemma {:induction false} FailingProgress(l: Limits, past: seq<Probing>, failing: seq<Probing>)
    requires AllUnhealthy(failing) && l.failureThreshold >= 1
    ensures Progressed(Run(l, past + failing).record, l, failing)
  {
    if failing != [] {
      var before, p := failing[..|failing| - 1], failing[|failing| - 1];
      FailingProgress(l, past, before);
      RunOneMore(l, past + before, p);
      assert past + failing == past + before + [p] && failing == before + [p];
      ProgressStep(Run(l, past + before).record, l, before, p);
    }
  }

  /** Whatever has happened before, once probes fail without interruption, the service is given up
      at the first one past the failure threshold that comes after as many successful restart
      commands as the restart threshold allows, however many failed ones lie between them. */
  lemma LadderTerminates(l: Limits, past: seq<Probing>, failing: seq<Probing>, last: Probing)
    requires AllUnhealthy(failing) && !last.healthy && l.failureThreshold >= 1
    requires |failing| + 1 >= l.failureThreshold
    requires Restartable(PastThreshold(l, failing)) >= AtLeastZero(l.restartThreshold)
    ensures Terminal(Run(l, past + failing + [last]).record)
  {
    FailingProgress(l, past, failing);
    RunOneMore(l, past + failing, last);
    FailingProbe(Run(l, past + failing).record, l, last);
  }

  lemma {:induction false} AllRestartable(probes: seq<Probing>)
    requires forall i :: 0 <= i < |probes| ==> probes[i].dockerOk
    ensures Restartable(probes) == |probes|
  {
    if probes != [] {
      AllRestartable(probes[..|probes| - 1]);
    }
  }

  /** If every restart command succeeds, failure threshold plus restart threshold failing probes
      are enough. */
  lemma LadderTerminatesInTime(l: Limits, past: seq<Probing>, failing: seq<Probing>)
    requires AllUnhealthy(failing) && l.failureThreshold >= 1
    requires forall i :: 0 <= i < |failing| ==> failing[i].dockerOk
    requires |failing| >= l.failureThreshold + AtLeastZero(l.restartThreshold)
    ensures Terminal(Run(l, past + failing).record)
  {
    var before, last := failing[..|failing| - 1], failing[|failing| - 1];
    AllRestartable(PastThreshold(l, before));
    LadderTerminates(l, past, before, last);
    assert past + failing == past + before + [last];
  }

  // ---------- every decision, from the history ----------

  /** At least the last n probes, and all of them unhealthy. */
  ghost predicate LastUnhealthy(probes: seq<Probing>, n: int) {
    n <= |probes| && forall i :: 0 <= i < |probes| && i >= |probes| - n ==> !probes[i].healthy
  }

  /** The failures counted are those since the last healthy probe. */
  lemma {:induction false} FailuresAreTrailing(l: Limits, probes: seq<Probing>, n: int)
    ensures Run(l, probes).record.consecutiveFailures >= n <==> LastUnhealthy(probes, n)
    decreases |probes|
  {
    if probes != [] {
      var before, p := probes[..|probes| - 1], probes[|probes| - 1];
      FailuresAreTrailing(l, before, n - 1);
      FailuresAreTrailing(l, before, 0);
      ProbeOnFailures(Run(l, before).record, l, p);
      if LastUnhealthy(before, n - 1) && !p.healthy {
        assert LastUnhealthy(probes, n);
      }
      if LastUnhealthy(probes, n) {
        assert forall i :: 0 <= i < |before| ==> before[i] == probes[i];
      }
    }
  }

  lemma ProbeOnFailures(r: Record, l: Limits, p: Probing)
    ensures OnProbe(r, l, p).0.consecutiveFailures == if p.healthy then 0 else r.consecutiveFailures + 1
    ensures OnProbe(r, l, p).0.isHealthy == p.healthy
  {
  }

  /** In a list in order, what is kept by age is what lies between the cutoff and now. */
  lemma {:induction false} RecentAreBetween(ts: seq<real>, cutoff: real, now: real)
    requires Ascending(ts, now)
    ensures |Recent(ts, Itself, cutoff)| == CountBetween(ts, cutoff, now)
  {
    if ts != [] {
      RecentAreBetween(ts[..|ts| - 1], cutoff, now);
    }
  }

  /** What is decided at an unhealthy probe: nothing before enough probes in a row have failed, or
      once the service was given up; then a boot loop if the window up to now holds the threshold
      of restarts, an escalation if all restarts are used up, and otherwise an attempt. */
  ghost function DecisionDue(l: Limits, h: History, all: seq<Probing>, p: Probing): Decision {
    if !LastUnhealthy(all, l.failureThreshold) || Terminal(h.record) then Skipped
    else if CountBetween(h.restarts, p.at - l.fastFailWindowS, p.at) >= l.bootLoopThreshold then BootLoop
    else if |h.restarts| >= l.restartThreshold then Escalated
    else if p.dockerOk then Restarted
    else DockerFailed
  }

  /** The flags and restarts after a decision. */
  ghost predicate FollowsDecision(h: History, next: History, d: Decision, at: real) {
    && next.decisions == h.decisions + [d]
    && next.restarts == (if d == Restarted then h.restarts + [at] else h.restarts)
    && (next.record.inBootLoop <==> h.record.inBootLoop || d == BootLoop)
    && (next.record.escalated <==> h.record.escalated || d == Escalated)
    && next.record.lastRestartAt == (if d == Restarted then Some(at) else h.record.lastRestartAt)
    && (d == Skipped ==> next.record.restartTimestamps == h.record.restartTimestamps)
  }

  /** The decision at an unhealthy probe, from the record alone. */
  function DecisionOf(r: Record, l: Limits, p: Probing): Decision {
    if r.consecutiveFailures + 1 < l.failureThreshold || Terminal(r) then Skipped
    else if |Pruned(r.restartTimestamps, l.fastFailWindowS, p.at)| >= l.bootLoopThreshold then BootLoop
    else if r.restartCount >= l.restartThreshold then Escalated
    else if p.dockerOk then Restarted
    else DockerFailed
  }

  lemma UnhealthyDecision(h: History, l: Limits, p: Probing)
    requires !p.healthy
    ensures FollowsDecision(h, Extend(h, l, p), DecisionOf(h.record, l, p), p.at)
  {
  }

  lemma HealthyProbe(h: History, l: Limits, p: Probing)
    requires p.healthy
    ensures Extend(h, l, p) == h.(record := h.record.(isHealthy := true, consecutiveFailures := 0))
  {
  }

  lemma FailuresTell(l: Limits, probes: seq<Probing>, p: Probing)
    requires !p.healthy
    ensures Run(l, probes).record.consecutiveFailures + 1 >= l.failureThreshold
       <==> LastUnhealthy(probes + [p], l.failureThreshold)
  {
    RunOneMore(l, probes, p);
    ProbeOnFailures(Run(l, probes).record, l, p);
    FailuresAreTrailing(l, probes + [p], l.failureThreshold);
  }

  lemma WindowTells(l: Limits, probes: seq<Probing>, now: real)
    requires Chronological(probes) && forall i :: 0 <= i < |probes| ==> probes[i].at <= now
    ensures |Pruned(Run(l, probes).record.restartTimestamps, l.fastFailWindowS, now)|
         == CountBetween(Run(l, probes).restarts, now - l.fastFailWindowS, now)
  {
    RestartsAscend(l, probes, now);
    PrunedListSuffices(l, probes, now);
    RecentAreBetween(Run(l, probes).restarts, now - l.fastFailWindowS, now);
  }

  lemma ChronologicalBefore(probes: seq<Probing>, p: Probing)
    requires Chronological(probes + [p])
    ensures Chronological(probes) && forall i :: 0 <= i < |probes| ==> probes[i].at <= p.at
  {
    var all := probes + [p];
    assert forall i :: 0 <= i < |probes| ==> all[i] == probes[i] && all[i].at <= all[|probes|].at;
  }

  lemma DecisionIsDue(l: Limits, probes: seq<Probing>, p: Probing)
    requires Chronological(probes + [p]) && !p.healthy
    ensures DecisionOf(Run(l, probes).record, l, p) == DecisionDue(l, Run(l, probes), probes + [p], p)
  {
    ChronologicalBefore(probes, p);
    FailuresTell(l, probes, p);
    WindowTells(l, probes, p.at);
    RestartTotalLimited(l, probes);
  }

  /** Over every run, each probe decides what the full history calls for: a healthy one nothing but
      a new count, an unhealthy one exactly the decision that is due, and all follows from it. */
  lemma EveryDecisionIsDue(l: Limits, probes: seq<Probing>, p: Probing)
    requires Chronological(probes + [p])
    ensures var h, next := Run(l, probes), Run(l, probes + [p]);
            if p.healthy then
              next == h.(record := h.record.(isHealthy := true, consecutiveFailures := 0))
            else
              FollowsDecision(h, next, DecisionDue(l, h, probes + [p], p), p.at)
  {
    RunOneMore(l, probes, p);
    if p.healthy {
      HealthyProbe(Run(l, probes), l, p);
    } else {
      DecisionIsDue(l, probes, p);
      UnhealthyDecision(Run(l, probes), l, p);
    }
  }

  // ---------- the table of services ----------

  datatype Priority = Critical | High | Medium

  datatype Managed = Managed(name: string, priority: Priority)

  /** The services the supervisor manages, in probing order. */
  const SERVICES: seq<Managed> := [
    Managed("player", Critical),
    Managed("decision-optimizer", High),
    Managed("audience-state", High),
    Managed("creative", Medium),
    Managed("dashboard-api", Medium)]

  /** One probe by the health loop: which service, and what it found. */
  datatype Visit = Visit(service: nat, probing: Probing)

  /** The probes that one service has seen. */
  function ProbesOf(visits: seq<Visit>, service: nat): seq<Probing> {
    if visits == [] then []
    else
      var before, v := ProbesOf(visits[..|visits| - 1], service), visits[|visits| - 1];
      if v.service == service then before + [v.probing] else before
  }

  /** The health loop's effect: every service's history, and how often safe mode was engaged. */
  datatype Supervisor = Supervisor(histories: seq<History>, engagements: nat)

  function Supervise(l: Limits, visits: seq<Visit>): (s: Supervisor)
    requires KnownServices(visits)
    ensures |s.histories| == |SERVICES|
  {
    if visits == [] then Supervisor(seq(|SERVICES|, i => History(FRESH, [], [])), 0)
    else OnVisit(Supervise(l, visits[..|visits| - 1]), l, visits[|visits| - 1])
  }

  predicate GivesUpCritical(service: nat, d: Option<Decision>)
    requires service < |SERVICES|
  {
    (d == Some(BootLoop) || d == Some(Escalated)) && SERVICES[service].priority == Critical
  }

  function OnVisit(s: Supervisor, l: Limits, v: Visit): (next: Supervisor)
    requires |s.histories| == |SERVICES| && v.service < |SERVICES|
    ensures |next.histories| == |SERVICES|
  {
    var d := OnProbe(s.histories[v.service].record, l, v.probing).1;
    Supervisor(s.histories[v.service := Extend(s.histories[v.service], l, v.probing)],
               if GivesUpCritical(v.service, d) then s.engagements + 1 else s.engagements)
  }

  /** The visits of one round of the health loop: every service once, in table order. */
  function RoundOf(probes: seq<Probing>): seq<Visit> {
    seq(|probes|, i requires 0 <= i < |probes| => Visit(i, probes[i]))
  }

  ghost predicate KnownServices(visits: seq<Visit>) {
    forall i :: 0 <= i < |visits| ==> visits[i].service < |SERVICES|
  }

  lemma SuperviseOneMore(l: Limits, visits: seq<Visit>, v: Visit)
    requires KnownServices(visits) && v.service < |SERVICES|
    ensures KnownServices(visits + [v])
    ensures Supervise(l, visits + [v]) == OnVisit(Supervise(l, visits), l, v)
  {
    assert (visits + [v])[..|visits|] == visits;
  }

  /** The state objects hold the records of the supervised services. */
  ghost predicate Mirrors(states: seq<ServiceState>, s: Supervisor)
    reads states
  {
    && |states| == |SERVICES| == |s.histories|
    && forall i :: 0 <= i < |states| ==> states[i].View() == s.histories[i].record
  }

  ghost predicate Distinct(states: seq<ServiceState>) {
    forall i, j :: 0 <= i < j < |states| ==> states[i] != states[j]
  }

  /** The body of the health loop: one service is probed, and safe mode engaged if need be. */
  method VisitService(manager: RestartManager, states: seq<ServiceState>, v: Visit, ghost s: Supervisor)
    returns (engaged: nat)
    requires Mirrors(states, s) && Distinct(states) && v.service < |SERVICES|
    modifies states
    ensures Mirrors(states, OnVisit(s, manager.limits, v))
    ensures OnVisit(s, manager.limits, v).engagements == s.engagements + engaged
  {
    var decision := manager.Probe(states[v.service], v.probing);
    engaged := if GivesUpCritical(v.service, decision) then 1 else 0;
  }

  lemma RoundStep(visits: seq<Visit>, probes: seq<Probing>, n: nat)
    requires n < |probes|
    ensures visits + RoundOf(probes[..n + 1]) == visits + RoundOf(probes[..n]) + [Visit(n, probes[n])]
  {
    assert RoundOf(probes[..n + 1]) == RoundOf(probes[..n]) + [Visit(n, probes[n])];
  }

  /** One round of the health loop, after any earlier visits. */
  method HealthRound(manager: RestartManager, states: seq<ServiceState>, probes: seq<Probing>, ghost visits: seq<Visit>)
    returns (engagements: nat)
    requires KnownServices(visits) && |probes| == |SERVICES|
    requires Mirrors(states, Supervise(manager.limits, visits)) && Distinct(states)
    modifies states
    ensures KnownServices(visits + RoundOf(probes))
    ensures Mirrors(states, Supervise(manager.limits, visits + RoundOf(probes)))
    ensures Supervise(manager.limits, visits + RoundOf(probes)).engagements
         == Supervise(manager.limits, visits).engagements + engagements
  {
    engagements := 0;
    ghost var done := visits;
    assert visits + RoundOf(probes[..0]) == visits;
    for n := 0 to |SERVICES|
      invariant done == visits + RoundOf(probes[..n]) && KnownServices(done)
      invariant Mirrors(states, Supervise(manager.limits, done))
      invariant Supervise(manager.limits, done).engagements
             == Supervise(manager.limits, visits).engagements + engagements
    {
      RoundStep(visits, probes, n);
      SuperviseOneMore(manager.limits, done, Visit(n, probes[n]));
      var engaged := VisitService(manager, states, Visit(n, probes[n]), Supervise(manager.limits, done));
      engagements := engagements + engaged;
      done := done + [Visit(n, probes[n])];
    }
    assert probes[..|SERVICES|] == probes;
  }

  /** Services do not affect each other: each has the history of its own probes. */
  lemma {:induction false} ServicesAreIndependent(l: Limits, visits: seq<Visit>, service: nat)
    requires service < |SERVICES| && KnownServices(visits)
    ensures Supervise(l, visits).histories[service] == Run(l, ProbesOf(visits, service))
  {
    if visits != [] {
      var before, v := visits[..|visits| - 1], visits[|visits| - 1];
      ServicesAreIndependent(l, before, service);
      if v.service == service {
        var probes := ProbesOf(visits, service);
        assert probes[..|probes| - 1] == ProbesOf(before, service);
      }
    }
  }

  /** The supervisor engages safe mode at most once, exactly if the player is given up. */
  lemma {:induction false} SafeModeEngagedOnce(l: Limits, visits: seq<Visit>)
    requires KnownServices(visits)
    ensures Supervise(l, visits).engagements
         == if Terminal(Supervise(l, visits).histories[0].record) then 1 else 0
  {
    if visits != [] {
      var before, v := visits[..|visits| - 1], visits[|visits| - 1];
      SafeModeEngagedOnce(l, before);
      ProbeTerminates(Supervise(l, before).histories[v.service].record, l, v.probing);
    }
  }
}
