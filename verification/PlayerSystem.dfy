/**
 The whole player: manifest store, command handler, state machine, renderer and the
 player-event publisher, driven by timed inputs. A transition and its renderer action
 form one step; a store reload may fall between them.
 */
module PlayerSystem {
  import opened Wrappers
  import opened PlayerState
  import opened PlayerTiming
  import H = PlayerHistory
  import C = Commands
  import D = Delivery
  import IdMemory

  // ---------- manifest store ----------

  datatype Expiry = Never | At(text: string, utc: real) | Unparseable(error: string)

  datatype Manifest = Manifest(
    id: ManifestId,
    approvedAt: string,
    approvedBy: string,
    expiry: Expiry,
    items: seq<string>)

  type Store = map<ManifestId, Manifest>

  datatype DiskFile = Unreadable | SchemaInvalid | Readable(manifest: Manifest)

  /** The store after reading the files in order. */
  function LoadAll(store: Store, files: seq<DiskFile>): Store {
    if files == [] then store
    else
      var before, f := LoadAll(store, files[..|files| - 1]), files[|files| - 1];
      if f.Readable? then before[f.manifest.id := f.manifest] else before
  }

  /** Why a manifest may not be rendered at this wall-clock time, if so. */
  function CheckManifest(m: Manifest, utc: real): Option<string> {
    if m.approvedAt == "" || m.approvedBy == "" then Some("missing_approval_fields")
    else match m.expiry
      case Never => None
      case At(text, expiry) => if utc > expiry then Some("expired_at:" + text) else None
      case Unparseable(error) => Some("invalid_expires_at:" + error)
  }

  class ManifestStore {
    var manifests: Store

    constructor ()
      ensures manifests == map[]
    {
      manifests := map[];
    }

    method LoadFromDisk(files: seq<DiskFile>) returns (loaded: nat)
      modifies this
      ensures manifests == LoadAll(old(manifests), files)
      ensures loaded == |set i | 0 <= i < |files| && files[i].Readable?|
    {
      loaded := 0;
      ghost var good: set<int> := {};
      for n := 0 to |files|
        invariant manifests == LoadAll(old(manifests), files[..n])
        invariant good == set i | 0 <= i < n && files[i].Readable?
        invariant loaded == |good|
      {
        assert files[..n + 1][..n] == files[..n];
        if files[n].Readable? {
          manifests := manifests[files[n].manifest.id := files[n].manifest];
          loaded := loaded + 1;
          good := good + {n};
        }
      }
      assert files[..|files|] == files;
    }

    method Reload(files: seq<DiskFile>) returns (count: nat)
      modifies this
      ensures manifests == LoadAll(map[], files)
      ensures count == |set i | 0 <= i < |files| && files[i].Readable?|
    {
      manifests := map[];
      count := LoadFromDisk(files);
    }
  }

  /** After a reload, the store holds a manifest exactly when some readable file does. */
  lemma {:induction false} ReloadMirrorsDisk(files: seq<DiskFile>, id: ManifestId)
    ensures id in LoadAll(map[], files)
       <==> exists f :: f in files && f.Readable? && f.manifest.id == id
  {
    if files != [] {
      var before, last := files[..|files| - 1], files[|files| - 1];
      ReloadMirrorsDisk(before, id);
      if last.Readable? && last.manifest.id == id {
        assert last in files;
      } else if id in LoadAll(map[], before) {
        var f :| f in before && f.Readable? && f.manifest.id == id;
        assert f in files;
      }
    }
  }

  /** Of several files with one id, the last one read counts. */
  lemma {:induction false} LastFileCounts(store: Store, files: seq<DiskFile>, k: nat)
    requires k < |files| && files[k].Readable?
    requires forall i :: k < i < |files| && files[i].Readable? ==> files[i].manifest.id != files[k].manifest.id
    ensures var id := files[k].manifest.id;
            id in LoadAll(store, files) && LoadAll(store, files)[id] == files[k].manifest
    decreases |files|
  {
    if k < |files| - 1 {
      LastFileCounts(store, files[..|files| - 1], k);
    }
  }

  /** What the store holds under an id is what some file holds. */
  lemma {:induction false} LoadedFromFile(files: seq<DiskFile>, id: ManifestId)
    requires id in LoadAll(map[], files)
    ensures Readable(LoadAll(map[], files)[id]) in files && LoadAll(map[], files)[id].id == id
  {
    var before, last := files[..|files| - 1], files[|files| - 1];
    if !(last.Readable? && last.manifest.id == id) {
      LoadedFromFile(before, id);
    }
  }

  // ---------- one step of the player ----------

  /** What is on screen; of a manifest, its first item. */
  datatype Screen = Blank | FallbackBundle | Showing(manifest: Manifest)

  /** The events published for impression tracking. */
  datatype Notice = Activated(id: ManifestId) | Deactivated(id: ManifestId)
                  | FallbackEntered | SafeModeEntered | FrozenReported

  datatype Player = Player(
    machine: Machine,
    handler: D.Handler,
    store: Store,
    screen: Screen,
    previous: Option<ManifestId>,
    published: seq<Notice>)

  datatype Input =
    | Message(message: D.Message)
    | Reconnected
    | Disconnected
    | SafeModeRequest(reason: string)
    | SafeModeRelease
    | StoreReload(files: seq<DiskFile>)

  /** An input, the clock readings it sees, a store reload that may fall between its transition
      and its rendering, and whether the renderer manages to play. */
  datatype Moment = Moment(now: real, utc: real, input: Input,
                           reload: Option<seq<DiskFile>>, rendererOk: bool)

  /** Dispatching an activate command: the store is consulted before the state machine. */
  function DispatchActivate(m: Machine, store: Store, b: C.Body, now: real, utc: real)
    : (Machine, TransitionResult)
    requires b.ActivateCreative? && C.ValidBody(b)
  {
    var refusal :=
      if b.manifestId !in store then Some("unknown_manifest")
      else CheckManifest(store[b.manifestId], utc);
    if refusal.Some? then
      (m, TransitionResult(false, m.status, if m.status != FallbackState then Hold else ShowFallback,
                           m.active, refusal))
    else OnActivate(m, b.manifestId, b.minDwellMs, b.cooldownMs, now)
  }

  function Dispatch(m: Machine, store: Store, b: C.Body, now: real, utc: real)
    : (Machine, TransitionResult)
    requires C.ValidBody(b)
  {
    match b
    case ActivateCreative(_, _, _, _) => DispatchActivate(m, store, b, now, utc)
    case Freeze(reason) => OnFreeze(m, reason)
    case SafeMode(reason) => OnSafeMode(m, reason, now)
    case ClearSafeMode => OnClearSafeMode(m)
  }

  function Render(r: TransitionResult, store: Store, rendererOk: bool, screen: Screen): Screen {
    match r.action
    case Hold => screen
    case ShowFallback => FallbackBundle
    case PlayManifest =>
      if r.manifestId.Some? && r.manifestId.value in store
         && store[r.manifestId.value].items != [] && rendererOk
      then Showing(store[r.manifestId.value]) else FallbackBundle
  }

  function Notices(r: TransitionResult, previous: Option<ManifestId>): seq<Notice> {
    if r.action == PlayManifest && r.manifestId.Some? && r.manifestId.value != "" then
      (if previous.Some? && previous != r.manifestId then [Deactivated(previous.value)] else [])
      + [Activated(r.manifestId.value)]
    else if r.action == ShowFallback && previous.Some? then
      if r.newState == SafeModeState then [SafeModeEntered] else [FallbackEntered]
    else if r.action == Hold && r.newState == FrozenState then [FrozenReported]
    else []
  }

  function NextPrevious(r: TransitionResult, previous: Option<ManifestId>): Option<ManifestId> {
    if r.action == PlayManifest && r.manifestId.Some? && r.manifestId.value != "" then r.manifestId
    else if r.action == ShowFallback then None
    else previous
  }

  function Present(p: Player, m: Machine, r: TransitionResult, at: Moment): Player {
    var store := if at.reload.Some? then LoadAll(map[], at.reload.value) else p.store;
    p.(machine := m,
       store := store,
       screen := Render(r, store, at.rendererOk, p.screen),
       published := p.published + Notices(r, p.previous),
       previous := NextPrevious(r, p.previous))
  }

  function Step(p: Player, at: Moment): Player {
    match at.input
    case Message(msg) =>
      if !D.Admits(p.handler, msg) then p
      else
        var (m, r) := Dispatch(p.machine, p.store, msg.command.body, at.now, at.utc);
        Present(p.(handler := D.Handle(p.handler, msg)), m, r, at)
    case Reconnected => p.(handler := D.ResetSession(p.handler))
    case Disconnected =>
      var (m, r) := OnConnectionLost(p.machine, at.now);
      Present(p, m, r, at)
    case SafeModeRequest(reason) =>
      var (m, r) := OnSafeMode(p.machine, Some(reason), at.now);
      Present(p, m, r, at)
    case SafeModeRelease =>
      var (m, r) := OnClearSafeMode(p.machine);
      Present(p, m, r, at)
    case StoreReload(files) => p.(store := LoadAll(map[], files))
  }

  /** The player once startup has shown the fallback bundle and read the manifests. */
  function Started(files: seq<DiskFile>): Player {
    Player(INITIAL, D.FRESH_HANDLER, LoadAll(map[], files), FallbackBundle, None, [])
  }

  function Lifetime(files: seq<DiskFile>, moments: seq<Moment>): Player {
    if moments == [] then Started(files)
    else Step(Lifetime(files, moments[..|moments| - 1]), moments[|moments| - 1])
  }

  // ---------- the classes ----------

  class Presenter {
    var previousManifestId: Option<ManifestId>
    ghost var screen: Screen
    ghost var published: seq<Notice>

    constructor ()
      ensures previousManifestId == None && screen == Blank && published == []
    {
      previousManifestId, screen, published := None, Blank, [];
    }

    /** Startup, before the command loop is entered. */
    method ShowInitialFallback()
      modifies this`screen
      ensures screen == FallbackBundle
    {
      screen := FallbackBundle;
    }

    method ExecuteTransition(r: TransitionResult, store: ManifestStore, rendererOk: bool)
      modifies this`screen
      ensures screen == Render(r, store.manifests, rendererOk, old(screen))
    {
      if r.action == ShowFallback {
        screen := FallbackBundle;
      } else if r.action == PlayManifest {
        if r.manifestId == None || r.manifestId.value !in store.manifests {
          screen := FallbackBundle;
          return;
        }
        if store.manifests[r.manifestId.value].items == [] {
          screen := FallbackBundle;
          return;
        }
        screen := Showing(store.manifests[r.manifestId.value]);
        if !rendererOk {
          screen := FallbackBundle;
        }
      }
    }

    method OnTransition(r: TransitionResult, store: ManifestStore, rendererOk: bool)
      modifies this
      ensures screen == Render(r, store.manifests, rendererOk, old(screen))
      ensures published == old(published) + Notices(r, old(previousManifestId))
      ensures previousManifestId == NextPrevious(r, old(previousManifestId))
    {
      ExecuteTransition(r, store, rendererOk);
      var prev := previousManifestId;
      if r.action == PlayManifest && r.manifestId.Some? && r.manifestId.value != "" {
        if prev.Some? && prev != r.manifestId {
          published := published + [Deactivated(prev.value)];
        }
        published := published + [Activated(r.manifestId.value)];
        previousManifestId := r.manifestId;
      } else if r.action == ShowFallback {
        if prev.Some? {
          published := published + [if r.newState == SafeModeState then SafeModeEntered else FallbackEntered];
          previousManifestId := None;
        }
      } else if r.action == Hold && r.newState == FrozenState {
        published := published + [FrozenReported];
      }
    }
  }

  /** Startup: the fallback bundle is on screen before the manifests are read. */
  method StartPlayer(files: seq<DiskFile>) returns (handler: CommandHandler)
    ensures fresh(handler) && fresh(handler.machine) && fresh(handler.store) && fresh(handler.presenter)
    ensures handler.View() == Started(files)
  {
    var machine := new StateMachine();
    var presenter := new Presenter();
    presenter.ShowInitialFallback();
    var store := new ManifestStore();
    var _ := store.LoadFromDisk(files);
    handler := new CommandHandler(machine, store, presenter);
  }

  const SUPERVISOR_REASONS := {"operator_manual", "supervisor_escalation", "boot_loop_protection"}

  /** The reason that the control endpoint uses for what the request asks for, if anything. */
  function ReasonOrDefault(requested: Option<string>): string {
    if requested.Some? && requested.value in SUPERVISOR_REASONS then requested.value else "operator_manual"
  }

  class CommandHandler {
    const machine: StateMachine
    const store: ManifestStore
    const presenter: Presenter
    var lastSequence: int
    var seenCommandIds: seq<string>

    constructor (machine: StateMachine, store: ManifestStore, presenter: Presenter)
      ensures this.machine == machine && this.store == store && this.presenter == presenter
      ensures lastSequence == -1 && seenCommandIds == []
    {
      this.machine, this.store, this.presenter := machine, store, presenter;
      lastSequence, seenCommandIds := -1, [];
    }

    ghost function View(): Player
      reads this, machine, store, presenter
    {
      Player(machine.View(), D.Handler(lastSequence, seenCommandIds), store.manifests,
             presenter.screen, presenter.previousManifestId, presenter.published)
    }

    method RecordCommand(sequence: int, id: string)
      modifies this
      ensures lastSequence == sequence && seenCommandIds == IdMemory.Record(old(seenCommandIds), id)
    {
      lastSequence := sequence;
      if id !in seenCommandIds {
        seenCommandIds := seenCommandIds + [id];
      }
      if |seenCommandIds| > IdMemory.MAX_SEEN_IDS {
        seenCommandIds := seenCommandIds[IdMemory.DROPPED..];
      }
    }

    method DispatchCommand(b: C.Body, now: real, utc: real) returns (r: TransitionResult)
      requires C.ValidBody(b)
      modifies machine
      ensures (machine.View(), r) == Dispatch(old(machine.View()), store.manifests, b, now, utc)
    {
      match b
      case ActivateCreative(id, dwellMs, cooldownMs, _) =>
        var refusal := Some("unknown_manifest");
        if id in store.manifests {
          refusal := CheckManifest(store.manifests[id], utc);
        }
        if refusal.Some? {
          return TransitionResult(false, machine.state,
                                  if machine.state != FallbackState then Hold else ShowFallback,
                                  machine.activeManifestId, refusal);
        }
        r := machine.OnActivateCreative(id, dwellMs, cooldownMs, now);
      case Freeze(reason) => r := machine.OnFreezeCommand(reason);
      case SafeMode(reason) => r := machine.OnSafeModeCommand(reason, now);
      case ClearSafeMode => r := machine.OnClearSafeModeCommand();
    }

    method FinishTransition(r: TransitionResult, at: Moment)
      modifies store, presenter
      ensures View() == Present(old(View()), machine.View(), r, at)
    {
      if at.reload.Some? {
        var _ := store.Reload(at.reload.value);
      }
      presenter.OnTransition(r, store, at.rendererOk);
    }

    method HandleRaw(at: Moment)
      requires at.input.Message?
      modifies this, machine, store, presenter
      ensures View() == Step(old(View()), at)
    {
      var msg := at.input.message;
      if msg.NotJson? || !C.Valid(msg.command) {
        return;
      }
      if msg.command.commandId in seenCommandIds {
        return;
      }
      if msg.command.sequenceNumber <= lastSequence {
        return;
      }
      RecordCommand(msg.command.sequenceNumber, msg.command.commandId);
      var r := DispatchCommand(msg.command.body, at.now, at.utc);
      FinishTransition(r, at);
    }

    method StartSession(at: Moment)
      requires at.input.Reconnected?
      modifies this
      ensures View() == Step(old(View()), at)
    {
      lastSequence := -1;
    }

    method LoseConnection(at: Moment)
      requires at.input.Disconnected?
      modifies machine, store, presenter
      ensures View() == Step(old(View()), at)
    {
      var r := machine.OnConnectionLostEvent(at.now);
      FinishTransition(r, at);
    }

    /** The control endpoint of the supervisor; refused until startup has completed. */
    method EngageSafeMode(at: Moment, requested: Option<string>, ready: bool) returns (ok: bool)
      requires at.input == SafeModeRequest(ReasonOrDefault(requested))
      modifies machine, store, presenter
      ensures ok == ready
      ensures View() == if ready then Step(old(View()), at) else old(View())
    {
      if !ready {
        return false;
      }
      var reason := "operator_manual";
      if requested.Some? && requested.value in SUPERVISOR_REASONS {
        reason := requested.value;
      }
      var r := machine.OnSafeModeCommand(Some(reason), at.now);
      FinishTransition(r, at);
      ok := true;
    }

    method ReleaseSafeMode(at: Moment, ready: bool) returns (ok: bool)
      requires at.input.SafeModeRelease?
      modifies machine, store, presenter
      ensures ok == ready
      ensures View() == if ready then Step(old(View()), at) else old(View())
    {
      if !ready {
        return false;
      }
      var r := machine.OnClearSafeModeCommand();
      FinishTransition(r, at);
      ok := true;
    }
  }

  // ---------- what reaches the state machine ----------

  /** The state-machine event behind one input; rejected commands reach it as nothing. */
  function EventOf(p: Player, at: Moment): Event {
    match at.input
    case Message(msg) =>
      if !D.Admits(p.handler, msg) then Idle
      else (match msg.command.body
            case ActivateCreative(id, dwellMs, cooldownMs, _) =>
              if id in p.store && CheckManifest(p.store[id], at.utc) == None
              then Activate(id, dwellMs, cooldownMs) else Idle
            case Freeze(reason) => PlayerTiming.Freeze(reason)
            case SafeMode(reason) => PlayerTiming.EngageSafeMode(reason)
            case ClearSafeMode => PlayerTiming.ClearSafeMode)
    case Disconnected => PlayerTiming.LoseConnection
    case SafeModeRequest(reason) => PlayerTiming.EngageSafeMode(Some(reason))
    case SafeModeRelease => PlayerTiming.ClearSafeMode
    case _ => Idle
  }

  function Events(files: seq<DiskFile>, moments: seq<Moment>): (run: seq<Timed>)
    ensures |run| == |moments|
  {
    if moments == [] then []
    else
      var before, at := moments[..|moments| - 1], moments[|moments| - 1];
      Events(files, before) + [Timed(at.now, EventOf(Lifetime(files, before), at))]
  }

  lemma StepFollowsEvent(p: Player, at: Moment)
    ensures Step(p, at).machine == Apply(p.machine, Timed(at.now, EventOf(p, at)))
  {
  }

  /** The player's state machine follows exactly the run of those events, so every timing
      guarantee of such runs holds of the player. */
  lemma {:induction false} LifetimeFollowsMachine(files: seq<DiskFile>, moments: seq<Moment>)
    ensures Lifetime(files, moments).machine == Run(Events(files, moments))
  {
    if moments != [] {
      var before, at := moments[..|moments| - 1], moments[|moments| - 1];
      LifetimeFollowsMachine(files, before);
      StepFollowsEvent(Lifetime(files, before), at);
      var run := Events(files, moments);
      assert run[..|run| - 1] == Events(files, before);
    }
  }

  // ---------- the screen ----------

  predicate ShowsManifest(screen: Screen, id: ManifestId) {
    screen.Showing? && screen.manifest.id == id
  }

  /** Every manifest is stored under the id it carries. */
  ghost predicate KeyedById(store: Store) {
    forall id :: id in store ==> store[id].id == id
  }

  lemma {:induction false} LoadedIsKeyed(store: Store, files: seq<DiskFile>)
    requires KeyedById(store)
    ensures KeyedById(LoadAll(store, files))
  {
    if files != [] {
      LoadedIsKeyed(store, files[..|files| - 1]);
    }
  }

  /** The screen is never blank and always suits the state. */
  ghost predicate ScreenSuitsState(p: Player) {
    && Consistent(p.machine)
    && KeyedById(p.store)
    && p.screen != Blank
    && (p.screen.Showing? ==> p.machine.active == Some(p.screen.manifest.id))
  }

  /** The action asked for is sound: what is to be played is active, and the screen is held
      only if the active manifest has not changed. */
  predicate ActionSound(m: Machine, next: Machine, r: TransitionResult) {
    match r.action
    case PlayManifest => r.manifestId.Some? && next.active == r.manifestId
    case Hold => next.active == m.active
    case ShowFallback => true
  }

  lemma DispatchSound(m: Machine, store: Store, b: C.Body, now: real, utc: real)
    requires C.ValidBody(b) && Consistent(m)
    ensures var (next, r) := Dispatch(m, store, b, now, utc);
            Consistent(next) && ActionSound(m, next, r)
  {
  }

  lemma PresentSuits(p: Player, next: Machine, r: TransitionResult, at: Moment)
    requires ScreenSuitsState(p) && Consistent(next) && ActionSound(p.machine, next, r)
    ensures ScreenSuitsState(Present(p, next, r, at))
  {
    if at.reload.Some? {
      LoadedIsKeyed(map[], at.reload.value);
    }
  }

  lemma ScreenStep(p: Player, at: Moment)
    requires ScreenSuitsState(p)
    ensures ScreenSuitsState(Step(p, at))
  {
    match at.input
    case Message(msg) =>
      if D.Admits(p.handler, msg) {
        DispatchSound(p.machine, p.store, msg.command.body, at.now, at.utc);
        var (next, r) := Dispatch(p.machine, p.store, msg.command.body, at.now, at.utc);
        PresentSuits(p.(handler := D.Handle(p.handler, msg)), next, r, at);
      }
    case Disconnected =>
      PresentSuits(p, OnConnectionLost(p.machine, at.now).0, OnConnectionLost(p.machine, at.now).1, at);
    case SafeModeRequest(reason) =>
      PresentSuits(p, OnSafeMode(p.machine, Some(reason), at.now).0,
                   OnSafeMode(p.machine, Some(reason), at.now).1, at);
    case SafeModeRelease =>
      PresentSuits(p, OnClearSafeMode(p.machine).0, OnClearSafeMode(p.machine).1, at);
    case StoreReload(files) => LoadedIsKeyed(map[], files);
    case Reconnected =>
  }

  /** In every reachable state the screen shows the fallback bundle or the active manifest;
      without an active manifest, hence in the fallback and safe-mode states, the former. */
  lemma {:induction false} NeverBlank(files: seq<DiskFile>, moments: seq<Moment>)
    ensures ScreenSuitsState(Lifetime(files, moments))
  {
    if moments == [] {
      LoadedIsKeyed(map[], files);
    } else {
      NeverBlank(files, moments[..|moments| - 1]);
      ScreenStep(Lifetime(files, moments[..|moments| - 1]), moments[|moments| - 1]);
    }
  }

  /** The input makes the machine take a transition that is then presented. */
  predicate MakesTransition(p: Player, input: Input) {
    match input
    case Message(msg) => D.Admits(p.handler, msg)
    case Disconnected => true
    case SafeModeRequest(_) => true
    case SafeModeRelease => true
    case _ => false
  }

  lemma TransitionReloads(p: Player, at: Moment)
    requires MakesTransition(p, at.input) && at.reload.Some?
    ensures Step(p, at).store == LoadAll(map[], at.reload.value)
  {
  }

  // ---------- handler and store over a life ----------

  /** What the moments deliver to the command handler. */
  function HandlerEvents(moments: seq<Moment>): seq<D.LifeEvent> {
    if moments == [] then []
    else
      var before := HandlerEvents(moments[..|moments| - 1]);
      match moments[|moments| - 1].input
      case Message(msg) => before + [D.Deliver(msg)]
      case Reconnected => before + [D.Connect]
      case _ => before
  }

  /** The handler inside the player is the one whose delivery guarantees are proved. */
  lemma {:induction false} HandlerFollowsDelivery(files: seq<DiskFile>, moments: seq<Moment>)
    ensures Lifetime(files, moments).handler == D.Life(HandlerEvents(moments)).handler
  {
    if moments != [] {
      var before := moments[..|moments| - 1];
      HandlerFollowsDelivery(files, before);
      var events := HandlerEvents(moments);
      if events != HandlerEvents(before) {
        assert events[..|events| - 1] == HandlerEvents(before);
      }
    }
  }

  /** The files read last: at startup, by the reload loop, or between a transition and its
      rendering. */
  function LastRead(files: seq<DiskFile>, moments: seq<Moment>): seq<DiskFile> {
    if moments == [] then files
    else
      var before, at := moments[..|moments| - 1], moments[|moments| - 1];
      if at.input.StoreReload? then at.input.files
      else if at.reload.Some? && MakesTransition(Lifetime(files, before), at.input) then at.reload.value
      else LastRead(files, before)
  }

  /** At any time the store holds what was read last, and nothing else. */
  lemma {:induction false} StoreIsLastRead(files: seq<DiskFile>, moments: seq<Moment>)
    ensures Lifetime(files, moments).store == LoadAll(map[], LastRead(files, moments))
  {
    if moments != [] {
      StoreIsLastRead(files, moments[..|moments| - 1]);
    }
  }

  /** A known reason is kept; any other, or none, becomes the operator's. */
  lemma ReasonKept(requested: Option<string>)
    ensures requested == Some("supervisor_escalation") ==> ReasonOrDefault(requested) == "supervisor_escalation"
    ensures requested == Some("boot_loop_protection") ==> ReasonOrDefault(requested) == "boot_loop_protection"
    ensures requested != Some("supervisor_escalation") && requested != Some("boot_loop_protection")
        ==> ReasonOrDefault(requested) == "operator_manual"
  {
  }

  // ---------- what makes a manifest active ----------

  /** A received command to activate this manifest. */
  predicate Orders(at: Moment, m: ManifestId) {
    && at.input.Message? && at.input.message.Received?
    && at.input.message.command.body.ActivateCreative?
    && at.input.message.command.body.manifestId == m
  }

  lemma ActivatedByCommand(p: Player, at: Moment, m: ManifestId)
    requires Step(p, at).machine.active == Some(m) && p.machine.active != Some(m)
    ensures Orders(at, m)
  {
  }

  lemma {:induction false} ActiveWasCommanded(files: seq<DiskFile>, moments: seq<Moment>, m: ManifestId)
    requires Lifetime(files, moments).machine.active == Some(m)
    ensures exists i :: 0 <= i < |moments| && Orders(moments[i], m)
  {
    var before, last := moments[..|moments| - 1], moments[|moments| - 1];
    if Lifetime(files, before).machine.active == Some(m) {
      ActiveWasCommanded(files, before, m);
      var i :| 0 <= i < |before| && Orders(before[i], m);
      assert Orders(moments[i], m);
    } else {
      ActivatedByCommand(Lifetime(files, before), last, m);
    }
  }

  /** Where a step may take its store and its screen from: a reload or what was there, and the
      new store or what was shown. */
  lemma StepShowsStored(p: Player, at: Moment)
    ensures var q := Step(p, at);
            && (|| q.store == p.store
                || (at.input.StoreReload? && q.store == LoadAll(map[], at.input.files))
                || (at.reload.Some? && q.store == LoadAll(map[], at.reload.value)))
            && (|| q.screen == p.screen || q.screen == FallbackBundle
                || exists id :: id in q.store && q.screen == Showing(q.store[id]))
  {
  }

  // ---------- the published events ----------

  /** What an observer of the published events believes active after one more of them; None if a
      deactivation names another manifest than the one believed active. */
  function Observe(before: Option<Option<ManifestId>>, n: Notice): Option<Option<ManifestId>> {
    match n
    case Activated(id) => if before == Some(None) || before == Some(Some(id)) then Some(Some(id)) else None
    case Deactivated(id) => if before == Some(Some(id)) then Some(None) else None
    case FallbackEntered => if before.Some? && before.value.Some? then Some(None) else None
    case SafeModeEntered => if before.Some? && before.value.Some? then Some(None) else None
    case FrozenReported => before
  }

  function Observed(published: seq<Notice>): Option<Option<ManifestId>> {
    if published == [] then Some(None)
    else Observe(Observed(published[..|published| - 1]), published[|published| - 1])
  }

  lemma ObservedAfterOne(published: seq<Notice>, notices: seq<Notice>)
    requires |notices| == 1
    ensures Observed(published + notices) == Observe(Observed(published), notices[0])
  {
    assert (published + notices)[..|published|] == published;
  }

  lemma ObservedAfterTwo(published: seq<Notice>, notices: seq<Notice>)
    requires |notices| == 2
    ensures Observed(published + notices) == Observe(Observe(Observed(published), notices[0]), notices[1])
  {
    ObservedAfterOne(published, notices[..1]);
    ObservedAfterOne(published + notices[..1], notices[1..]);
    assert published + notices == published + notices[..1] + notices[1..];
  }

  lemma ObservedAfterNotices(published: seq<Notice>, r: TransitionResult, previous: Option<ManifestId>)
    requires Observed(published) == Some(previous)
    ensures Observed(published + Notices(r, previous)) == Some(NextPrevious(r, previous))
  {
    var notices := Notices(r, previous);
    if |notices| == 2 {
      ObservedAfterTwo(published, notices);
    } else if |notices| == 1 {
      ObservedAfterOne(published, notices);
    } else {
      assert published + notices == published;
    }
  }

  lemma ObservedStep(p: Player, m: Machine, r: TransitionResult, at: Moment)
    requires Observed(p.published) == Some(p.previous)
    ensures var q := Present(p, m, r, at);
            Observed(q.published) == Some(q.previous)
  {
    ObservedAfterNotices(p.published, r, p.previous);
  }

  /** The tracked manifest follows the active one through every command. */
  lemma DispatchTracked(m: Machine, store: Store, b: C.Body, now: real, utc: real)
    requires C.ValidBody(b) && Consistent(m)
    ensures var (next, r) := Dispatch(m, store, b, now, utc);
            NextPrevious(r, m.active) == next.active
  {
  }

  /** The published events tell what is active. */
  ghost predicate EventsTellActive(p: Player) {
    p.previous == p.machine.active && Observed(p.published) == Some(p.machine.active)
  }

  lemma EventsStep(p: Player, at: Moment)
    requires EventsTellActive(p) && Consistent(p.machine)
    ensures EventsTellActive(Step(p, at))
  {
    match at.input
    case Message(msg) =>
      if D.Admits(p.handler, msg) {
        DispatchTracked(p.machine, p.store, msg.command.body, at.now, at.utc);
        var (m, r) := Dispatch(p.machine, p.store, msg.command.body, at.now, at.utc);
        ObservedStep(p.(handler := D.Handle(p.handler, msg)), m, r, at);
      }
    case Disconnected =>
      ObservedStep(p, OnConnectionLost(p.machine, at.now).0, OnConnectionLost(p.machine, at.now).1, at);
    case SafeModeRequest(reason) =>
      ObservedStep(p, OnSafeMode(p.machine, Some(reason), at.now).0,
                   OnSafeMode(p.machine, Some(reason), at.now).1, at);
    case SafeModeRelease =>
      ObservedStep(p, OnClearSafeMode(p.machine).0, OnClearSafeMode(p.machine).1, at);
    case _ =>
  }

  /** The published events tell exactly which manifest is active: every deactivation names
      the manifest activated last, and replaying them gives the state machine's manifest. */
  lemma {:induction false} PublishedEventsTellActive(files: seq<DiskFile>, moments: seq<Moment>)
    ensures EventsTellActive(Lifetime(files, moments))
  {
    if moments != [] {
      PublishedEventsTellActive(files, moments[..|moments| - 1]);
      NeverBlank(files, moments[..|moments| - 1]);
      EventsStep(Lifetime(files, moments[..|moments| - 1]), moments[|moments| - 1]);
    }
  }

  // ---------- the whole step, from the history ----------

  /** The manifest may be rendered at this time: approved, and not expired. */
  predicate Renderable(m: Manifest, utc: real) {
    && m.approvedAt != "" && m.approvedBy != ""
    && match m.expiry
       case Never => true
       case At(_, expiry) => utc <= expiry
       case Unparseable(_) => false
  }

  /** The manifest whose activation this moment asks for and the handler, the store and the history
      of events allow, if there is one. */
  function AcceptedActivation(p: Player, run: seq<Timed>, at: Moment): Option<ManifestId> {
    match at.input
    case Message(Received(command)) =>
      if D.Admits(p.handler, at.input.message) && command.body.ActivateCreative?
         && command.body.manifestId in p.store
         && Renderable(p.store[command.body.manifestId], at.utc)
         && H.MayActivate(run, command.body.manifestId, at.now)
      then Some(command.body.manifestId) else None
    case _ => None
  }

  /** What is to be on screen after a moment. */
  ghost predicate ScreenAsDue(p: Player, q: Player, at: Moment, accepted: Option<ManifestId>) {
    match accepted
    case Some(id) =>
      && q.machine.status == ActiveState && q.machine.active == Some(id) && q.machine.activatedAt == Some(at.now)
      && (if id in q.store && q.store[id].items != [] && at.rendererOk
          then q.screen == Showing(q.store[id]) else q.screen == FallbackBundle)
    case None =>
      q.screen == if q.machine.active == None then FallbackBundle else p.screen
  }

  /** What is to be published at a moment. */
  function NoticesDue(p: Player, q: Player, at: Moment, accepted: Option<ManifestId>): seq<Notice> {
    match accepted
    case Some(id) =>
      (if p.machine.active.Some? && p.machine.active != Some(id) then [Deactivated(p.machine.active.value)] else [])
      + [Activated(id)]
    case None =>
      if !MakesTransition(p, at.input) then []
      else if q.machine.active == None then
        if p.machine.active == None then []
        else if q.machine.status == SafeModeState then [SafeModeEntered] else [FallbackEntered]
      else if q.machine.status == FrozenState then [FrozenReported]
      else []
  }

  /** Dispatching an activation command: accepted exactly if allowed, and otherwise nothing but
      the fallback bundle where it is on screen anyway. */
  lemma ActivationDispatched(p: Player, run: seq<Timed>, at: Moment)
    requires Consistent(p.machine) && H.Agrees(p.machine, run)
    requires at.input.Message? && D.Admits(p.handler, at.input.message)
    requires at.input.message.command.body.ActivateCreative?
    ensures var (next, r) := Dispatch(p.machine, p.store, at.input.message.command.body, at.now, at.utc);
            match AcceptedActivation(p, run, at)
            case Some(id) =>
              && r.action == PlayManifest && r.manifestId == Some(id) && id != ""
              && next.status == ActiveState && next.active == Some(id) && next.activatedAt == Some(at.now)
            case None =>
              && next == p.machine && r.newState == p.machine.status
              && r.action != PlayManifest && (r.action == ShowFallback ==> p.machine.active == None)
  {
    var b := at.input.message.command.body;
    H.AcceptedIffAllowed(p.machine, run, b.manifestId, b.minDwellMs, b.cooldownMs, at.now);
  }

  /** One activation command, with what is shown and published. */
  lemma ActivationStep(p: Player, run: seq<Timed>, at: Moment)
    requires ScreenSuitsState(p) && H.Agrees(p.machine, run) && p.previous == p.machine.active
    requires at.input.Message? && D.Admits(p.handler, at.input.message)
    requires at.input.message.command.body.ActivateCreative?
    ensures var q, accepted := Step(p, at), AcceptedActivation(p, run, at);
            && ScreenAsDue(p, q, at, accepted)
            && q.published == p.published + NoticesDue(p, q, at, accepted)
  {
    ActivationDispatched(p, run, at);
    if at.reload.Some? {
      LoadedIsKeyed(map[], at.reload.value);
    }
  }

  lemma OtherStep(p: Player, run: seq<Timed>, at: Moment)
    requires ScreenSuitsState(p) && H.Agrees(p.machine, run) && p.previous == p.machine.active
    requires at.input.Message? ==>
               !D.Admits(p.handler, at.input.message) || !at.input.message.command.body.ActivateCreative?
    ensures var q := Step(p, at);
            && AcceptedActivation(p, run, at) == None
            && ScreenAsDue(p, q, at, None)
            && q.published == p.published + NoticesDue(p, q, at, None)
  {
  }

  /** In every life of the player, what is on screen and what is published after each moment is
      what the history of events calls for. An activation that is asked for and allowed puts the
      stored manifest on screen if it is there, has an item and plays, and the fallback bundle
      otherwise; without one, the screen stays as it is while a manifest is active, and shows the
      fallback bundle while none is. */
  lemma EveryMomentAsDue(files: seq<DiskFile>, moments: seq<Moment>, at: Moment)
    ensures var p, q := Lifetime(files, moments), Step(Lifetime(files, moments), at);
            var accepted := AcceptedActivation(p, Events(files, moments), at);
            && ScreenAsDue(p, q, at, accepted)
            && q.published == p.published + NoticesDue(p, q, at, accepted)
  {
    var p, run := Lifetime(files, moments), Events(files, moments);
    LifetimeFollowsMachine(files, moments);
    H.MachineFollowsHistory(run);
    NeverBlank(files, moments);
    PublishedEventsTellActive(files, moments);
    if at.input.Message? && D.Admits(p.handler, at.input.message) && at.input.message.command.body.ActivateCreative? {
      ActivationStep(p, run, at);
    } else {
      OtherStep(p, run, at);
    }
  }

  /** Which event reaches the machine. */
  lemma EventReaches(p: Player, at: Moment, id: ManifestId, dwellMs: nat, cooldownMs: nat)
    ensures EventOf(p, at) == Activate(id, dwellMs, cooldownMs)
       <==> && at.input.Message? && D.Admits(p.handler, at.input.message)
            && at.input.message.command.body.ActivateCreative?
            && at.input.message.command.body.manifestId == id
            && at.input.message.command.body.minDwellMs == dwellMs
            && at.input.message.command.body.cooldownMs == cooldownMs
            && id in p.store && Renderable(p.store[id], at.utc)
  {
  }

  // ---------- dwell, on the screen ----------

  /** A manifest on screen with part of its dwell still to run. */
  ghost predicate Dwelling(p: Player, id: ManifestId, since: real, dwellMs: nat) {
    && p.machine.status == ActiveState && p.machine.active == Some(id)
    && p.machine.activatedAt == Some(since) && p.machine.minDwellMs == dwellMs
    && ShowsManifest(p.screen, id)
  }

  lemma DwellingStep(p: Player, at: Moment, id: ManifestId, since: real, dwellMs: nat)
    requires Dwelling(p, id, since, dwellMs)
    requires ElapsedMs(since, at.now) < dwellMs as real && !Interrupts(EventOf(p, at))
    ensures Dwelling(Step(p, at), id, since, dwellMs) && Step(p, at).screen == p.screen
  {
  }

  /** What reaches the player at moment x neither interrupts nor comes after the dwell that
      began at a given time. */
  ghost predicate WithinDwell(files: seq<DiskFile>, moments: seq<Moment>, x: nat, since: real, dwellMs: nat)
    requires x < |moments|
  {
    && !Interrupts(EventOf(Lifetime(files, moments[..x]), moments[x]))
    && ElapsedMs(since, moments[x].now) < dwellMs as real
  }

  /** At moment i the player shows a manifest that it has just activated. */
  ghost predicate ShowsAt(files: seq<DiskFile>, moments: seq<Moment>, i: nat, id: ManifestId, dwellMs: nat)
    requires i < |moments|
  {
    var run := Events(files, moments[..i + 1]);
    && ActivatesAt(run, i, id) && run[i].event.dwellMs == dwellMs
    && ShowsManifest(Lifetime(files, moments[..i + 1]).screen, id)
  }

  lemma ShownBeginsDwell(files: seq<DiskFile>, moments: seq<Moment>, i: nat, id: ManifestId, dwellMs: nat)
    requires i < |moments| && ShowsAt(files, moments, i, id, dwellMs)
    ensures Dwelling(Lifetime(files, moments[..i + 1]), id, moments[i].now, dwellMs)
  {
    LifetimeFollowsMachine(files, moments[..i + 1]);
    assert moments[..i + 1][..i] == moments[..i];
  }

  /** Once a manifest is on screen by an activation at moment i, it stays there as long as its
      dwell has not run out and no freeze, safe mode or disconnection reaches the machine. */
  lemma {:induction false} ScreenHoldsDuringDwell(files: seq<DiskFile>, moments: seq<Moment>, i: nat, k: nat, id: ManifestId, dwellMs: nat)
    requires i < k <= |moments| && ShowsAt(files, moments, i, id, dwellMs)
    requires forall x :: i < x < k ==> WithinDwell(files, moments, x, moments[i].now, dwellMs)
    ensures Lifetime(files, moments[..k]).screen == Lifetime(files, moments[..i + 1]).screen
    ensures Dwelling(Lifetime(files, moments[..k]), id, moments[i].now, dwellMs)
  {
    if k == i + 1 {
      ShownBeginsDwell(files, moments, i, id, dwellMs);
    } else {
      ScreenHoldsDuringDwell(files, moments, i, k - 1, id, dwellMs);
      assert moments[..k][..k - 1] == moments[..k - 1];
      assert WithinDwell(files, moments, k - 1, moments[i].now, dwellMs);
      DwellingStep(Lifetime(files, moments[..k - 1]), moments[k - 1], id, moments[i].now, dwellMs);
    }
  }
}
