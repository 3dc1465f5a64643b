/**
 The services run together: the dashboard with its directory of manifests, the rules file, the
 decision loop with its gateway, an unreliable channel, and the player that reads the same
 directory. One run interleaves their steps in any order.
 */
module Appliance {
  import opened Wrappers
  import P = Policy
  import L = DecisionLoop
  import A = Approval
  import C = Commands
  import Y = PlayerSystem
  import D = Delivery
  import CP = CompiledPolicy
  import RC = RuleCompiler
  import S = Signals

  type ManifestId = P.ManifestId

  /** How the player reads a file's text: unreadable, not a manifest, or a manifest. */
  type Parser = A.Json -> Y.DiskFile

  /** The services' values; `attempts` are the calls of the gateway by the decision process that
      is running, `earlier` those by each process before it. */
  datatype Device = Device(
    dashboard: A.Outcome,
    rulesFile: L.Engine,
    loop: L.Loop,
    attempts: seq<C.Attempt>,
    earlier: seq<seq<C.Attempt>>,
    player: Y.Player)

  datatype Happening =
    | Operates(request: A.Request)
    | Synchronises(ids: seq<ManifestId>)
    | LoadsRules
    | Ticks(tick: L.Tick, sending: L.Sending)
    | DecisionRestarts
    | Plays(at: Y.Moment)
    | PlayerRestarts(files: seq<Y.DiskFile>)

  /** What rule synchronisation writes, with the default times of the file. */
  function PolicyFor(creatives: seq<RC.Creative>): L.Engine {
    L.Engine(CP.Compiled(creatives), 10000, 5000)
  }

  /** The loop of a decision service that has just loaded the rules file. */
  function FreshLoop(rules: L.Engine): L.Loop {
    L.Loop(rules, None, false, [])
  }

  /** An appliance before its first manifest is registered. */
  function Begin(): Device {
    Device(A.Run([]), PolicyFor([]), FreshLoop(PolicyFor([])), [], [], Y.Started([]))
  }

  /** The files are those of the directory, in whatever order they are read. */
  ghost predicate ReadsDisk(files: seq<Y.DiskFile>, disk: map<ManifestId, A.Json>, parse: Parser) {
    && (forall f :: f in files ==> exists id :: id in disk && parse(disk[id]) == f)
    && (forall id :: id in disk ==> parse(disk[id]) in files)
  }

  /** The channel delivers no command that was never on the wire; it may replay one that a
      decision process sent before it was restarted. */
  ghost predicate OnWire(m: D.Message, x: Device) {
    m.Received? ==>
      || m.command in C.TransmitAll(x.attempts).log
      || exists attempts :: attempts in x.earlier && m.command in C.TransmitAll(attempts).log
  }

  /** What a moment of the player takes from the rest: the command delivered and the files read. */
  ghost predicate Fits(at: Y.Moment, x: Device, parse: Parser) {
    && (at.input.Message? ==> OnWire(at.input.message, x))
    && (at.input.StoreReload? ==> ReadsDisk(at.input.files, x.dashboard.now.disk, parse))
    && (at.reload.Some? ==> ReadsDisk(at.reload.value, x.dashboard.now.disk, parse))
  }

  ghost predicate Possible(x: Device, h: Happening, parse: Parser) {
    match h
    case Synchronises(ids) => A.ListsEnabled(x.dashboard.now, ids)
    case Plays(at) => Fits(at, x, parse)
    case PlayerRestarts(files) => ReadsDisk(files, x.dashboard.now.disk, parse)
    case _ => true
  }

  /** One step; what is not possible does not happen. */
  ghost function Next(x: Device, h: Happening, parse: Parser, staleMs: int): Device {
    if !Possible(x, h, parse) then x
    else match h
      case Operates(q) => x.(dashboard := A.Extend(x.dashboard, q))
      case Synchronises(ids) => x.(rulesFile := PolicyFor(A.CreativesOf(x.dashboard.now, ids)))
      case LoadsRules => x.(loop := x.loop.(engine := x.rulesFile))
      case Ticks(t, s) =>
        x.(loop := L.OnTick(x.loop, t, staleMs), attempts := x.attempts + L.Sends(x.loop, t, staleMs, s))
      case DecisionRestarts =>
        x.(loop := FreshLoop(x.rulesFile), attempts := [], earlier := x.earlier + [x.attempts])
      case Plays(at) => x.(player := Y.Step(x.player, at))
      case PlayerRestarts(files) => x.(player := Y.Started(files))
  }

  ghost function Run(hs: seq<Happening>, parse: Parser, staleMs: int): Device {
    if hs == [] then Begin()
    else Next(Run(hs[..|hs| - 1], parse, staleMs), hs[|hs| - 1], parse, staleMs)
  }

  // ---------- what was served ----------

  /** The manifest was enabled once, as an approved one. */
  ghost predicate WasServed(o: A.Outcome, m: ManifestId) {
    m in o.now.rows && exists i :: 0 <= i < |o.done| && EnabledBy(o.done, i, m)
  }

  /** The i-th request carried out enabled the manifest, and its latest decision was approval. */
  predicate EnabledBy(done: seq<A.Request>, i: nat, m: ManifestId)
    requires i < |done|
  {
    done[i].Enable? && done[i].id == m && A.ApprovedLast(A.LastDecision(done[..i], m))
  }

  lemma DoneOrNot(o: A.Outcome, q: A.Request)
    ensures A.Extend(o, q).done == o.done || A.Extend(o, q).done == o.done + [q]
    ensures forall m :: m in o.now.rows ==>
              m in A.Extend(o, q).now.rows && A.Extend(o, q).now.rows[m].json == o.now.rows[m].json
  {
  }

  lemma ServedStays(o: A.Outcome, q: A.Request, m: ManifestId)
    requires WasServed(o, m)
    ensures WasServed(A.Extend(o, q), m) && A.Extend(o, q).now.rows[m].json == o.now.rows[m].json
  {
    var i :| 0 <= i < |o.done| && EnabledBy(o.done, i, m);
    DoneOrNot(o, q);
    assert A.Extend(o, q).done[..i] == o.done[..i];
    assert EnabledBy(A.Extend(o, q).done, i, m);
  }

  /** Only an enabling that is carried out, from approved or disabled, makes a row enabled. */
  lemma EnablingStep(o: A.Outcome, q: A.Request, m: ManifestId)
    requires var next := A.Extend(o, q).now; m in next.rows && next.rows[m].status == A.Enabled
    requires !(m in o.now.rows && o.now.rows[m].status == A.Enabled)
    ensures A.Extend(o, q).done == o.done + [q] && q.Enable? && q.id == m && m in o.now.rows
    ensures o.now.rows[m].status == A.Approved || o.now.rows[m].status == A.Disabled
  {
  }

  /** What is enabled now was enabled once. */
  lemma {:induction false} EnabledWasServed(requests: seq<A.Request>, m: ManifestId)
    requires m in A.Run(requests).now.rows && A.Run(requests).now.rows[m].status == A.Enabled
    ensures WasServed(A.Run(requests), m)
  {
    var before, q := requests[..|requests| - 1], requests[|requests| - 1];
    var o := A.Run(before);
    if m in o.now.rows && o.now.rows[m].status == A.Enabled {
      EnabledWasServed(before, m);
      ServedStays(o, q, m);
    } else {
      A.StatusTellsDecision(before, m);
      EnablingStep(o, q, m);
      assert A.Run(requests).done[..|o.done|] == o.done;
      assert EnabledBy(A.Run(requests).done, |o.done|, m);
    }
  }

  ghost predicate Permitted(o: A.Outcome, m: ManifestId) {
    m == "manifest-attract" || WasServed(o, m)
  }

  /** The content is that of some row that was served, as registered. */
  ghost predicate FromServed(o: A.Outcome, content: Y.Manifest, parse: Parser) {
    exists m :: WasServed(o, m) && parse(o.now.rows[m].json) == Y.Readable(content)
  }

  ghost predicate RulesPermitted(o: A.Outcome, rules: seq<P.Rule>) {
    forall r :: r in rules ==> Permitted(o, r.manifestId)
  }

  ghost predicate AttemptsPermitted(o: A.Outcome, attempts: seq<C.Attempt>) {
    forall a :: a in attempts && a.body.ActivateCreative? ==> Permitted(o, a.body.manifestId)
  }

  ghost predicate WiresPermitted(o: A.Outcome, wires: seq<seq<C.Attempt>>) {
    forall attempts :: attempts in wires ==> AttemptsPermitted(o, attempts)
  }

  ghost predicate StoreServed(o: A.Outcome, store: Y.Store, parse: Parser) {
    forall id :: id in store ==> store[id].id == id && FromServed(o, store[id], parse)
  }

  ghost predicate PlayerServed(o: A.Outcome, p: Y.Player, parse: Parser) {
    && Y.ScreenSuitsState(p)
    && StoreServed(o, p.store, parse)
    && (p.machine.active.Some? ==> Permitted(o, p.machine.active.value))
    && (p.screen.Showing? ==> FromServed(o, p.screen.manifest, parse))
  }

  /** The dashboard is what its requests have made it, and its directory holds what is served. */
  ghost predicate DashboardSound(o: A.Outcome) {
    A.DiskMirrorsEnabled(o.now) && forall m :: m in o.now.disk ==> WasServed(o, m)
  }

  ghost predicate Sound(x: Device, parse: Parser) {
    && DashboardSound(x.dashboard)
    && RulesPermitted(x.dashboard, x.rulesFile.rules)
    && RulesPermitted(x.dashboard, x.loop.engine.rules)
    && AttemptsPermitted(x.dashboard, x.attempts)
    && WiresPermitted(x.dashboard, x.earlier)
    && PlayerServed(x.dashboard, x.player, parse)
  }

  // ---------- every step keeps it ----------

  lemma PermittedStays(o: A.Outcome, q: A.Request, m: ManifestId)
    requires Permitted(o, m)
    ensures Permitted(A.Extend(o, q), m)
  {
    if m != "manifest-attract" {
      ServedStays(o, q, m);
    }
  }

  lemma FromServedStays(o: A.Outcome, q: A.Request, content: Y.Manifest, parse: Parser)
    requires FromServed(o, content, parse)
    ensures FromServed(A.Extend(o, q), content, parse)
  {
    var m :| WasServed(o, m) && parse(o.now.rows[m].json) == Y.Readable(content);
    ServedStays(o, q, m);
  }

  lemma OperatingKeepsRules(o: A.Outcome, q: A.Request, rules: seq<P.Rule>)
    requires RulesPermitted(o, rules)
    ensures RulesPermitted(A.Extend(o, q), rules)
  {
    forall r | r in rules
      ensures Permitted(A.Extend(o, q), r.manifestId)
    {
      PermittedStays(o, q, r.manifestId);
    }
  }

  lemma OperatingKeepsAttempts(o: A.Outcome, q: A.Request, attempts: seq<C.Attempt>)
    requires AttemptsPermitted(o, attempts)
    ensures AttemptsPermitted(A.Extend(o, q), attempts)
  {
    forall a | a in attempts && a.body.ActivateCreative?
      ensures Permitted(A.Extend(o, q), a.body.manifestId)
    {
      PermittedStays(o, q, a.body.manifestId);
    }
  }

  lemma OperatingKeepsPlayer(o: A.Outcome, q: A.Request, p: Y.Player, parse: Parser)
    requires PlayerServed(o, p, parse)
    ensures PlayerServed(A.Extend(o, q), p, parse)
  {
    forall id | id in p.store
      ensures FromServed(A.Extend(o, q), p.store[id], parse)
    {
      FromServedStays(o, q, p.store[id], parse);
    }
    if p.machine.active.Some? {
      PermittedStays(o, q, p.machine.active.value);
    }
    if p.screen.Showing? {
      FromServedStays(o, q, p.screen.manifest, parse);
    }
  }

  lemma SynchronisingIsPermitted(o: A.Outcome, ids: seq<ManifestId>)
    requires DashboardSound(o) && A.ListsEnabled(o.now, ids)
    ensures RulesPermitted(o, PolicyFor(A.CreativesOf(o.now, ids)).rules)
  {
    var creatives := A.CreativesOf(o.now, ids);
    CP.CompiledRulesNameEnabled(creatives);
    forall m | CP.Enabled(creatives, m)
      ensures Permitted(o, m)
    {
      if creatives != [] {
        var x :| x in creatives && x.manifestId == m;
        assert m in ids && m in o.now.disk;
      }
    }
  }

  lemma TickIsPermitted(o: A.Outcome, l: L.Loop, t: L.Tick, staleMs: int, s: L.Sending)
    requires RulesPermitted(o, l.engine.rules)
    ensures AttemptsPermitted(o, L.Sends(l, t, staleMs, s))
    ensures L.OnTick(l, t, staleMs).engine == l.engine
  {
    L.StepIssues(l, L.Ticking(t), staleMs);
    if t.signal.Some? {
      P.EvaluateChoosesTopmost(l.engine.rules, t.signal.value, t.hour, t.pick);
    }
  }

  lemma LoadedIsServed(o: A.Outcome, files: seq<Y.DiskFile>, parse: Parser)
    requires DashboardSound(o) && ReadsDisk(files, o.now.disk, parse)
    ensures StoreServed(o, Y.LoadAll(map[], files), parse)
  {
    Y.LoadedIsKeyed(map[], files);
    forall id | id in Y.LoadAll(map[], files)
      ensures FromServed(o, Y.LoadAll(map[], files)[id], parse)
    {
      Y.LoadedFromFile(files, id);
      var m :| m in o.now.disk && parse(o.now.disk[m]) == Y.Readable(Y.LoadAll(map[], files)[id]);
      assert WasServed(o, m);
    }
  }

  lemma SentIsPermitted(o: A.Outcome, attempts: seq<C.Attempt>, c: C.Command)
    requires AttemptsPermitted(o, attempts)
    requires c in C.TransmitAll(attempts).log && c.body.ActivateCreative?
    ensures Permitted(o, c.body.manifestId)
  {
    C.WireCarriesAttempts(attempts, c);
    var a :| a in attempts && a.body == c.body;
  }

  lemma HeardIsPermitted(x: Device, m: D.Message, parse: Parser)
    requires Sound(x, parse) && OnWire(m, x)
    requires m.Received? && m.command.body.ActivateCreative?
    ensures Permitted(x.dashboard, m.command.body.manifestId)
  {
    if m.command in C.TransmitAll(x.attempts).log {
      SentIsPermitted(x.dashboard, x.attempts, m.command);
    } else {
      var attempts :| attempts in x.earlier && m.command in C.TransmitAll(attempts).log;
      SentIsPermitted(x.dashboard, attempts, m.command);
    }
  }

  lemma PlayingKeepsPlayer(x: Device, at: Y.Moment, parse: Parser)
    requires Sound(x, parse) && Fits(at, x, parse)
    ensures PlayerServed(x.dashboard, Y.Step(x.player, at), parse)
  {
    var o, p, q := x.dashboard, x.player, Y.Step(x.player, at);
    Y.ScreenStep(p, at);
    if q.machine.active.Some? && q.machine.active != p.machine.active {
      Y.ActivatedByCommand(p, at, q.machine.active.value);
      HeardIsPermitted(x, at.input.message, parse);
    }
    if at.input.StoreReload? {
      LoadedIsServed(o, at.input.files, parse);
    }
    if at.reload.Some? {
      LoadedIsServed(o, at.reload.value, parse);
    }
    Y.StepShowsStored(p, at);
  }

  lemma OperatingKeepsSound(x: Device, q: A.Request, parse: Parser)
    requires Sound(x, parse) && DashboardSound(A.Extend(x.dashboard, q))
    ensures Sound(x.(dashboard := A.Extend(x.dashboard, q)), parse)
  {
    OperatingKeepsRules(x.dashboard, q, x.rulesFile.rules);
    OperatingKeepsRules(x.dashboard, q, x.loop.engine.rules);
    OperatingKeepsAttempts(x.dashboard, q, x.attempts);
    forall attempts | attempts in x.earlier
      ensures AttemptsPermitted(A.Extend(x.dashboard, q), attempts)
    {
      OperatingKeepsAttempts(x.dashboard, q, attempts);
    }
    OperatingKeepsPlayer(x.dashboard, q, x.player, parse);
  }

  lemma FreshPlayerServed(o: A.Outcome, files: seq<Y.DiskFile>, parse: Parser)
    requires DashboardSound(o) && ReadsDisk(files, o.now.disk, parse)
    ensures PlayerServed(o, Y.Started(files), parse)
  {
    Y.LoadedIsKeyed(map[], files);
    LoadedIsServed(o, files, parse);
  }

  lemma NextIsSound(x: Device, h: Happening, parse: Parser, staleMs: int)
    requires Sound(x, parse) && DashboardSound(Next(x, h, parse, staleMs).dashboard)
    ensures Sound(Next(x, h, parse, staleMs), parse)
  {
    if Possible(x, h, parse) {
      match h
      case Operates(q) => OperatingKeepsSound(x, q, parse);
      case Synchronises(ids) => SynchronisingIsPermitted(x.dashboard, ids);
      case LoadsRules =>
      case Ticks(t, s) => TickIsPermitted(x.dashboard, x.loop, t, staleMs, s);
      case DecisionRestarts =>
      case Plays(at) => PlayingKeepsPlayer(x, at, parse);
      case PlayerRestarts(files) => FreshPlayerServed(x.dashboard, files, parse);
    }
  }

  /** The requests among what happens. */
  function Requests(hs: seq<Happening>): seq<A.Request> {
    if hs == [] then []
    else
      var before, last := Requests(hs[..|hs| - 1]), hs[|hs| - 1];
      if last.Operates? then before + [last.request] else before
  }

  lemma {:induction false} DashboardFollowsRequests(hs: seq<Happening>, parse: Parser, staleMs: int)
    ensures Run(hs, parse, staleMs).dashboard == A.Run(Requests(hs))
  {
    if hs != [] {
      var before, last := hs[..|hs| - 1], hs[|hs| - 1];
      DashboardFollowsRequests(before, parse, staleMs);
      if last.Operates? {
        assert Requests(hs)[..|Requests(hs)| - 1] == Requests(before);
      }
    }
  }

  lemma DashboardIsSound(requests: seq<A.Request>)
    ensures DashboardSound(A.Run(requests))
  {
    A.DiskAlwaysMirrorsEnabled(requests);
    forall m | m in A.Run(requests).now.disk
      ensures WasServed(A.Run(requests), m)
    {
      EnabledWasServed(requests, m);
    }
  }

  lemma BeginIsSound(parse: Parser)
    ensures Sound(Begin(), parse)
  {
    DashboardIsSound([]);
    CP.CompiledRulesNameEnabled([]);
  }

  /** Every reachable state of the appliance is sound. */
  lemma {:induction false} AlwaysSound(hs: seq<Happening>, parse: Parser, staleMs: int)
    ensures Sound(Run(hs, parse, staleMs), parse)
  {
    if hs == [] {
      BeginIsSound(parse);
    } else {
      AlwaysSound(hs[..|hs| - 1], parse, staleMs);
      DashboardFollowsRequests(hs, parse, staleMs);
      DashboardIsSound(Requests(hs));
      NextIsSound(Run(hs[..|hs| - 1], parse, staleMs), hs[|hs| - 1], parse, staleMs);
    }
  }

  /** Only approved content is ever shown. Whatever happens in whatever order, the screen shows
      the fallback bundle, or a manifest whose content is that registered for some row which
      had been enabled on an approval, and whose id is that of such a row or the stub's. */
  lemma OnlyApprovedContentIsShown(hs: seq<Happening>, parse: Parser, staleMs: int)
    ensures var x := Run(hs, parse, staleMs);
            || x.player.screen == Y.FallbackBundle
            || (&& x.player.screen.Showing?
                && FromServed(x.dashboard, x.player.screen.manifest, parse)
                && Permitted(x.dashboard, x.player.screen.manifest.id))
  {
    AlwaysSound(hs, parse, staleMs);
  }

  /** What the loop counts as issued is what the gateway has been handed. */
  lemma {:induction false} IssuedIsHanded(hs: seq<Happening>, parse: Parser, staleMs: int)
    ensures var x := Run(hs, parse, staleMs);
            x.loop.issued == L.IssuedBy(x.attempts)
  {
    if hs != [] {
      var x, h := Run(hs[..|hs| - 1], parse, staleMs), hs[|hs| - 1];
      IssuedIsHanded(hs[..|hs| - 1], parse, staleMs);
      if h.Ticks? {
        L.SendsWhatIsIssued(x.loop, h.tick, staleMs, h.sending, x.attempts);
      }
    }
  }

  // ---------- what is synchronised is what the loop plays ----------

  lemma RunNext(hs: seq<Happening>, h: Happening, parse: Parser, staleMs: int)
    ensures Run(hs + [h], parse, staleMs) == Next(Run(hs, parse, staleMs), h, parse, staleMs)
  {
    assert (hs + [h])[..|hs|] == hs;
  }

  /** Once rules have been synchronised and loaded, or the decision service started again, the loop
      uses them; the player is not touched. */
  lemma SynchronisedRulesAreLoaded(hs: seq<Happening>, ids: seq<ManifestId>, load: Happening, parse: Parser, staleMs: int)
    requires load == LoadsRules || load == DecisionRestarts
    requires A.ListsEnabled(Run(hs, parse, staleMs).dashboard.now, ids)
    ensures var x, y := Run(hs, parse, staleMs), Run(hs + [Synchronises(ids)] + [load], parse, staleMs);
            && y.loop.engine == PolicyFor(A.CreativesOf(x.dashboard.now, ids))
            && y.player == x.player && y.dashboard == x.dashboard
            && (load == LoadsRules ==> y.loop.issued == x.loop.issued)
  {
    RunNext(hs, Synchronises(ids), parse, staleMs);
    RunNext(hs + [Synchronises(ids)], load, parse, staleMs);
  }

  /** A tick on a fresh signal makes the policy's choice the loop's manifest, and issues its
      activation unless the player shows it unfrozen already, as far as the loop knows. */
  lemma FreshTickActivates(loop: L.Loop, creatives: seq<RC.Creative>, d: S.Delivery, now: real, hour: int, pick: nat, staleMs: int)
    requires staleMs >= 0 && L.FreezeDue(d, now, staleMs) == None
    ensures var l := loop.(engine := PolicyFor(creatives));
            var chosen := P.Evaluate(CP.Compiled(creatives), d.message.signal, hour, pick);
            var after := L.OnTick(l, L.TickOn(Some(d), now, hour, pick), staleMs);
            && chosen.Some? && after.current == chosen && !after.frozen
            && after.issued == if !l.frozen && l.current == chosen then l.issued
                               else l.issued + [L.ActivateIssued(chosen.value, 10000, 5000)]
  {
    CP.CompiledAlwaysChooses(creatives, d.message.signal, hour, pick);
    L.TickByTheClock(loop.(engine := PolicyFor(creatives)), Some(d), now, hour, pick, staleMs);
  }

  /** Hence synchronised rules take effect at the next tick on a fresh signal. */
  lemma SynchronisedRulesTakeEffect(hs: seq<Happening>, ids: seq<ManifestId>, load: Happening, d: S.Delivery,
                                    now: real, hour: int, pick: nat, s: L.Sending, parse: Parser, staleMs: int)
    requires staleMs >= 0 && (load == LoadsRules || load == DecisionRestarts)
    requires A.ListsEnabled(Run(hs, parse, staleMs).dashboard.now, ids)
    requires L.FreezeDue(d, now, staleMs) == None
    ensures var rules := CP.Compiled(A.CreativesOf(Run(hs, parse, staleMs).dashboard.now, ids));
            var y := Run(hs + [Synchronises(ids)] + [load] + [Ticks(L.TickOn(Some(d), now, hour, pick), s)], parse, staleMs);
            y.loop.current.Some? && y.loop.current == P.Evaluate(rules, d.message.signal, hour, pick) && !y.loop.frozen
  {
    var loaded := hs + [Synchronises(ids)] + [load];
    SynchronisedRulesAreLoaded(hs, ids, load, parse, staleMs);
    RunNext(loaded, Ticks(L.TickOn(Some(d), now, hour, pick), s), parse, staleMs);
    var loop := Run(loaded, parse, staleMs).loop;
    assert loop.(engine := loop.engine) == loop;
    FreshTickActivates(loop, A.CreativesOf(Run(hs, parse, staleMs).dashboard.now, ids),
                       d, now, hour, pick, staleMs);
  }

  /** Every activation issued has the default times of the rules file: ten seconds of dwell and
      five of cooldown. */
  lemma {:induction false} IssuedTimes(hs: seq<Happening>, parse: Parser, staleMs: int)
    ensures var x := Run(hs, parse, staleMs);
            && DefaultTimes(x.rulesFile) && DefaultTimes(x.loop.engine)
            && forall i :: 0 <= i < |x.loop.issued| && x.loop.issued[i].ActivateIssued? ==>
                 x.loop.issued[i].minDwellMs == 10000 && x.loop.issued[i].cooldownMs == 5000
  {
    if hs != [] {
      var x, h := Run(hs[..|hs| - 1], parse, staleMs), hs[|hs| - 1];
      IssuedTimes(hs[..|hs| - 1], parse, staleMs);
      if h.Ticks? {
        TickTimes(x.loop, h.tick, staleMs);
      }
    }
  }

  predicate DefaultTimes(e: L.Engine) {
    e.minDwellMs == 10000 && e.cooldownMs == 5000
  }

  lemma TickTimes(l: L.Loop, t: L.Tick, staleMs: int)
    ensures var after := L.OnTick(l, t, staleMs);
            && after.engine == l.engine
            && (|| after.issued == l.issued
                || (&& after.issued == l.issued + [after.issued[|l.issued|]]
                    && (after.issued[|l.issued|].ActivateIssued? ==>
                          && after.issued[|l.issued|].minDwellMs == l.engine.minDwellMs
                          && after.issued[|l.issued|].cooldownMs == l.engine.cooldownMs)))
  {
  }
}
