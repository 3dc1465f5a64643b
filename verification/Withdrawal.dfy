/**
 Withdrawal over whole runs of the appliance: when a manifest that the dashboard has disabled or
 archived is not activated any more once the player has read the directory again. It can come
 back without being enabled if the text of some other row carries its id.
 */
module Withdrawal {
  import opened Wrappers
  import opened Appliance
  import opened ContentIdentity
  import A = Approval
  import Y = PlayerSystem

  /** The manifest is not enabled, and the player does not know it. */
  predicate Gone(x: Device, m: ManifestId) {
    m !in x.dashboard.now.disk && m !in x.player.store
  }

  /** No other row that may still be enabled holds a text that carries this id. */
  ghost predicate NoOtherCarries(c: A.Catalogue, parse: Parser, m: ManifestId) {
    forall b :: b in c.rows && b != m && c.rows[b].status != A.Archived ==> !Carries(parse, c.rows[b].json, m)
  }

  /** What is loaded under an id comes from a file whose text carries it. */
  lemma LoadedIsCarried(disk: map<ManifestId, A.Json>, files: seq<Y.DiskFile>, parse: Parser, m: ManifestId)
    requires ReadsDisk(files, disk, parse)
    ensures m in Y.LoadAll(map[], files) ==> exists b :: b in disk && Carries(parse, disk[b], m)
  {
    if m in Y.LoadAll(map[], files) {
      Y.LoadedFromFile(files, m);
      var b :| b in disk && parse(disk[b]) == Y.Readable(Y.LoadAll(map[], files)[m]);
      assert Carries(parse, disk[b], m);
    }
  }

  lemma ReloadLacks(c: A.Catalogue, files: seq<Y.DiskFile>, parse: Parser, m: ManifestId)
    requires A.DiskMirrorsEnabled(c) && NoOtherCarries(c, parse, m) && ReadsDisk(files, c.disk, parse)
    requires m !in c.disk
    ensures m !in Y.LoadAll(map[], files)
  {
    LoadedIsCarried(c.disk, files, parse, m);
  }

  /** The player does not activate what it does not know. */
  lemma UnknownStaysInactive(p: Y.Player, at: Y.Moment, m: ManifestId)
    requires m !in p.store && Y.Step(p, at).machine.active == Some(m)
    ensures p.machine.active == Some(m)
  {
  }

  /** A step of the player leaves what is gone as it is, or takes it off. */
  lemma PlayingWithoutIt(x: Device, at: Y.Moment, parse: Parser, m: ManifestId)
    requires Sound(x, parse) && Fits(at, x, parse) && Gone(x, m)
    requires NoOtherCarries(x.dashboard.now, parse, m)
    ensures var p, q := x.player, Y.Step(x.player, at);
            && m !in q.store
            && (q.machine.active == Some(m) ==> p.machine.active == Some(m))
            && (Y.ShowsManifest(q.screen, m) ==> q.screen == p.screen)
  {
    var p, q := x.player, Y.Step(x.player, at);
    Y.StepShowsStored(p, at);
    Y.ScreenStep(p, at);
    if at.input.StoreReload? {
      ReloadLacks(x.dashboard.now, at.input.files, parse, m);
    }
    if at.reload.Some? {
      ReloadLacks(x.dashboard.now, at.reload.value, parse, m);
    }
    if q.machine.active == Some(m) {
      UnknownStaysInactive(p, at, m);
    }
  }

  lemma GoneStep(x: Device, h: Happening, parse: Parser, staleMs: int, m: ManifestId)
    requires Sound(x, parse) && Gone(x, m) && NoOtherCarries(x.dashboard.now, parse, m)
    requires m !in Next(x, h, parse, staleMs).dashboard.now.disk
    ensures var y := Next(x, h, parse, staleMs);
            && Gone(y, m)
            && (y.player.machine.active == Some(m) ==> x.player.machine.active == Some(m))
            && (Y.ShowsManifest(y.player.screen, m) ==> y.player.screen == x.player.screen)
  {
    if Possible(x, h, parse) {
      match h
      case Plays(at) => PlayingWithoutIt(x, at, parse, m);
      case PlayerRestarts(files) => ReloadLacks(x.dashboard.now, files, parse, m);
      case _ =>
    }
  }

  /** The request neither enables the manifest nor registers another row with a text that
      carries its id. */
  predicate KeepsOff(parse: Parser, q: A.Request, m: ManifestId) {
    !(q.Enable? && q.id == m) && LeavesAlone(parse, q, m)
  }

  /** All requests from the k-th happening on are such. */
  ghost predicate KeptOffFrom(hs: seq<Happening>, k: nat, parse: Parser, m: ManifestId) {
    forall i :: k <= i < |hs| && hs[i].Operates? ==> KeepsOff(parse, hs[i].request, m)
  }

  /** The manifest is not enabled, and no other row can bring it back. */
  ghost predicate OffDisk(c: A.Catalogue, parse: Parser, m: ManifestId) {
    m !in c.disk && NoOtherCarries(c, parse, m)
  }

  lemma StaysOffDisk(o: A.Outcome, q: A.Request, parse: Parser, m: ManifestId)
    requires OffDisk(o.now, parse, m) && KeepsOff(parse, q, m)
    ensures OffDisk(A.Extend(o, q).now, parse, m)
  {
  }

  lemma OffDiskStep(hs: seq<Happening>, k: nat, m: ManifestId, parse: Parser, staleMs: int)
    requires k < |hs| && KeptOffFrom(hs, k, parse, m)
    requires OffDisk(Run(hs[..|hs| - 1], parse, staleMs).dashboard.now, parse, m)
    ensures OffDisk(Run(hs, parse, staleMs).dashboard.now, parse, m)
  {
    var h := hs[|hs| - 1];
    if h.Operates? {
      StaysOffDisk(Run(hs[..|hs| - 1], parse, staleMs).dashboard, h.request, parse, m);
    }
  }

  /** Once a manifest is gone and no other live row carries its id, it stays gone until it is
      enabled again or another row is registered with its id: the player neither knows it nor
      activates it; it is active or on screen only if it has been all along. */
  lemma {:induction false} GoneStaysOff(hs: seq<Happening>, k: nat, m: ManifestId, parse: Parser, staleMs: int)
    requires k <= |hs| && KeptOffFrom(hs, k, parse, m)
    requires var x := Run(hs[..k], parse, staleMs); Gone(x, m) && NoOtherCarries(x.dashboard.now, parse, m)
    ensures var x, y := Run(hs[..k], parse, staleMs), Run(hs, parse, staleMs);
            && Gone(y, m) && NoOtherCarries(y.dashboard.now, parse, m)
            && (y.player.machine.active == Some(m) ==> x.player.machine.active == Some(m))
            && (Y.ShowsManifest(y.player.screen, m) ==> y.player.screen == x.player.screen)
    decreases |hs|
  {
    if k == |hs| {
      assert hs[..k] == hs;
    } else {
      var before := hs[..|hs| - 1];
      assert before[..k] == hs[..k];
      GoneStaysOff(before, k, m, parse, staleMs);
      AlwaysSound(before, parse, staleMs);
      OffDiskStep(hs, k, m, parse, staleMs);
      GoneStep(Run(before, parse, staleMs), hs[|hs| - 1], parse, staleMs, m);
    }
  }

  /** The player reads the directory: by its reload loop, between a transition and its
      rendering, or on starting again. */
  predicate ReadsAgain(p: Y.Player, h: Happening) {
    match h
    case Plays(at) => at.input.StoreReload? || (at.reload.Some? && Y.MakesTransition(p, at.input))
    case PlayerRestarts(_) => true
    case _ => false
  }

  lemma ReadingMakesGone(x: Device, h: Happening, m: ManifestId, parse: Parser, staleMs: int)
    requires Sound(x, parse) && OffDisk(x.dashboard.now, parse, m)
    requires Possible(x, h, parse) && ReadsAgain(x.player, h)
    ensures Gone(Next(x, h, parse, staleMs), m)
    ensures NoOtherCarries(Next(x, h, parse, staleMs).dashboard.now, parse, m)
  {
    match h
    case Plays(at) =>
      if at.input.StoreReload? {
        ReloadLacks(x.dashboard.now, at.input.files, parse, m);
      } else {
        ReloadLacks(x.dashboard.now, at.reload.value, parse, m);
        Y.TransitionReloads(x.player, at);
      }
    case PlayerRestarts(files) => ReloadLacks(x.dashboard.now, files, parse, m);
  }

  /** Withdrawal takes effect, provided that no other live row carries the manifest's id: once it
      is disabled or archived and the player has read the directory again, in whichever way, the
      player does not activate it until it is enabled again or another row is registered with its
      id. Whatever else happens, it is then active or on screen at the end only if it was so at
      every time i since the reading: playing content stays until the next switch or fallback. */
  lemma WithdrawalTakesEffect(hs: seq<Happening>, k: nat, i: nat, m: ManifestId, parse: Parser, staleMs: int)
    requires k < i <= |hs| && KeptOffFrom(hs, k, parse, m)
    requires var x := Run(hs[..k], parse, staleMs);
             OffDisk(x.dashboard.now, parse, m) && Possible(x, hs[k], parse) && ReadsAgain(x.player, hs[k])
    ensures var x, y := Run(hs[..i], parse, staleMs).player, Run(hs, parse, staleMs).player;
            && m !in y.store
            && (y.machine.active == Some(m) ==> x.machine.active == Some(m))
            && (Y.ShowsManifest(y.screen, m) ==> y.screen == x.screen)
  {
    AlwaysSound(hs[..k], parse, staleMs);
    ReadingMakesGone(Run(hs[..k], parse, staleMs), hs[k], m, parse, staleMs);
    assert hs[..k + 1][..k] == hs[..k];
    assert hs[..i][..k + 1] == hs[..k + 1];
    GoneStaysOff(hs[..i], k + 1, m, parse, staleMs);
    GoneStaysOff(hs, i, m, parse, staleMs);
  }

  // ---------- exactly when ----------

  /** Whatever follows without enabling the manifest or registering another row with its id, the
      player does not get to know it again. */
  ghost predicate GoneForGood(hs: seq<Happening>, m: ManifestId, parse: Parser, staleMs: int) {
    forall more: seq<Happening> ::
      KeptOffFrom(hs + more, |hs|, parse, m) ==> m !in Run(hs + more, parse, staleMs).player.store
  }

  /** The happenings in which an operator makes these requests. */
  function Operating(requests: seq<A.Request>): seq<Happening> {
    seq(|requests|, i requires 0 <= i < |requests| => Operates(requests[i]))
  }

  lemma {:induction false} OperatingRequests(hs: seq<Happening>, requests: seq<A.Request>)
    ensures Requests(hs + Operating(requests)) == Requests(hs) + requests
  {
    if requests == [] {
      assert hs + Operating(requests) == hs;
    } else {
      var n := |requests| - 1;
      OperatingRequests(hs, requests[..n]);
      var all := hs + Operating(requests);
      assert all[..|all| - 1] == hs + Operating(requests[..n]);
      assert requests == requests[..n] + [requests[n]];
    }
  }

  /** Some requests, after which the player reloads its store. */
  function ThenReload(requests: seq<A.Request>, files: seq<Y.DiskFile>): seq<Happening> {
    Operating(requests) + [Reload(files)]
  }

  function Reload(files: seq<Y.DiskFile>): Happening {
    Plays(Y.Moment(0.0, 0.0, Y.StoreReload(files), None, true))
  }

  lemma ReloadStep(x: Device, files: seq<Y.DiskFile>, parse: Parser, staleMs: int)
    requires ReadsDisk(files, x.dashboard.now.disk, parse)
    ensures Next(x, Reload(files), parse, staleMs).player.store == Y.LoadAll(map[], files)
  {
  }

  lemma RunThen(hs: seq<Happening>, h: Happening, parse: Parser, staleMs: int)
    ensures Run(hs + [h], parse, staleMs) == Next(Run(hs, parse, staleMs), h, parse, staleMs)
  {
    assert (hs + [h])[..|hs|] == hs;
  }

  lemma ReloadAfter(hs: seq<Happening>, requests: seq<A.Request>, files: seq<Y.DiskFile>, parse: Parser, staleMs: int)
    requires ReadsDisk(files, A.Run(Requests(hs) + requests).now.disk, parse)
    ensures Run(hs + ThenReload(requests, files), parse, staleMs).player.store == Y.LoadAll(map[], files)
  {
    var first := hs + Operating(requests);
    OperatingRequests(hs, requests);
    DashboardFollowsRequests(first, parse, staleMs);
    ReloadStep(Run(first, parse, staleMs), files, parse, staleMs);
    RunThen(first, Reload(files), parse, staleMs);
    assert hs + ThenReload(requests, files) == first + [Reload(files)];
  }

  lemma ReloadKeepsOff(hs: seq<Happening>, requests: seq<A.Request>, files: seq<Y.DiskFile>, parse: Parser, m: ManifestId)
    requires forall q :: q in requests ==> KeepsOff(parse, q, m)
    ensures KeptOffFrom(hs + ThenReload(requests, files), |hs|, parse, m)
  {
    var all := hs + ThenReload(requests, files);
    forall i | |hs| <= i < |all| && all[i].Operates?
      ensures KeepsOff(parse, all[i].request, m)
    {
      assert all[i] == ThenReload(requests, files)[i - |hs|];
      assert all[i].request in requests;
    }
  }

  /** A live row with another manifest's id in its text brings that manifest back to the player,
      without its being enabled. */
  lemma CarrierBringsBack(hs: seq<Happening>, b: ManifestId, m: ManifestId, parse: Parser, staleMs: int)
    requires var c := Run(hs, parse, staleMs).dashboard.now;
             b in c.rows && b != m && c.rows[b].status != A.Archived && Carries(parse, c.rows[b].json, m)
    ensures !GoneForGood(hs, m, parse, staleMs)
  {
    DashboardFollowsRequests(hs, parse, staleMs);
    var requests := ExposeRow(Requests(hs), b, m);
    var disk := A.Run(Requests(hs) + requests).now.disk;
    var files := DiskCanBeRead(disk, parse);
    ReloadAfter(hs, requests, files, parse, staleMs);
    ReloadKeepsOff(hs, requests, files, parse, m);
    assert parse(disk[b]) in files;
    Y.ReloadMirrorsDisk(files, m);
  }

  /** "a" is registered, approved, enabled and disabled; then "b" is registered with a text that
      carries "a" too. */
  const WITHDRAWN_A: seq<A.Request> := [A.Create("a", "a", []), A.Approve("a", "someone"), A.Enable("a", 0.0), A.Disable("a")]
  const CARRIER_B: A.Request := A.Create("b", "a", [])

  lemma WithdrawnExample()
    ensures var c := A.Run(WITHDRAWN_A + [CARRIER_B]).now;
            && RowIs(c, "a", A.Disabled, "a") && RowIs(c, "b", A.Draft, "a")
            && c.disk == map[]
  {
    var w := WITHDRAWN_A;
    RunOneMore([], w[0]);
    assert [] + [w[0]] == w[..1];
    RunOneMore(w[..1], w[1]);
    assert w[..1] + [w[1]] == w[..2];
    RunOneMore(w[..2], w[2]);
    assert w[..2] + [w[2]] == w[..3];
    RunOneMore(w[..3], w[3]);
    assert w[..3] + [w[3]] == w;
    RunOneMore(w, CARRIER_B);
  }

  /** In that life the player has even reloaded, and "a" is gone, yet not for good: it takes no
      enabling of "a" to bring it back. */
  lemma WithdrawalFails(staleMs: int)
    ensures var hs := ThenReload(WITHDRAWN_A + [CARRIER_B], []);
            Gone(Run(hs, BY_TEXT, staleMs), "a") && !GoneForGood(hs, "a", BY_TEXT, staleMs)
  {
    var requests := WITHDRAWN_A + [CARRIER_B];
    var hs := ThenReload(requests, []);
    WithdrawnExample();
    assert Requests([]) + requests == requests && [] + hs == hs;
    ReloadAfter([], requests, [], BY_TEXT, staleMs);
    DashboardFollowsRequests(hs, BY_TEXT, staleMs);
    OperatingRequests([], requests);
    assert hs[..|hs| - 1] == [] + Operating(requests);
    CarrierBringsBack(hs, "b", "a", BY_TEXT, staleMs);
  }

  /** What is gone is gone for good, until enabled again, if and only if no other live row holds a
      text that carries its id. The dashboard does not check that. */
  lemma GoneForGoodIff(hs: seq<Happening>, m: ManifestId, parse: Parser, staleMs: int)
    requires Gone(Run(hs, parse, staleMs), m)
    ensures GoneForGood(hs, m, parse, staleMs) <==> NoOtherCarries(Run(hs, parse, staleMs).dashboard.now, parse, m)
  {
    var c := Run(hs, parse, staleMs).dashboard.now;
    if NoOtherCarries(c, parse, m) {
      forall more: seq<Happening> | KeptOffFrom(hs + more, |hs|, parse, m)
        ensures m !in Run(hs + more, parse, staleMs).player.store
      {
        assert (hs + more)[..|hs|] == hs;
        GoneStaysOff(hs + more, |hs|, m, parse, staleMs);
      }
    } else {
      var b :| b in c.rows && b != m && c.rows[b].status != A.Archived && Carries(parse, c.rows[b].json, m);
      CarrierBringsBack(hs, b, m, parse, staleMs);
    }
  }
}
