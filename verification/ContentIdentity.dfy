/**
 Whose content the player finds under an id. The dashboard names a file after its row; the
 player goes by the id inside the file. Nothing compares the two, so this says exactly when
 they agree, and what follows then.
 */
module ContentIdentity {
  import opened Wrappers
  import opened Appliance
  import A = Approval
  import Y = PlayerSystem

  /** The player finds this row's id in this text, if it finds a manifest there at all. */
  predicate NamesItself(parse: Parser, id: ManifestId, json: A.Json) {
    parse(json).Readable? ==> parse(json).manifest.id == id
  }

  predicate RegistersItself(parse: Parser, q: A.Request) {
    q.Create? ==> NamesItself(parse, q.id, q.json)
  }

  /** Every row that may still be enabled holds a text with its own id. */
  ghost predicate LiveRowsNameThemselves(c: A.Catalogue, parse: Parser) {
    forall m :: m in c.rows && c.rows[m].status != A.Archived ==> NamesItself(parse, m, c.rows[m].json)
  }

  /** Under every id, the store holds the content of the row with that id, which is enabled. */
  ghost predicate StoreMatchesRows(store: Y.Store, c: A.Catalogue, parse: Parser) {
    forall id :: id in store ==> id in c.disk && parse(c.disk[id]) == Y.Readable(store[id])
  }

  /** Whatever requests follow, as long as new manifests are registered with their own id, the
      player's store always matches the rows after a reload. */
  ghost predicate AlwaysMatches(requests: seq<A.Request>, parse: Parser) {
    forall more: seq<A.Request>, files ::
      (forall q :: q in more ==> RegistersItself(parse, q))
      && ReadsDisk(files, A.Run(requests + more).now.disk, parse)
      ==> StoreMatchesRows(Y.LoadAll(map[], files), A.Run(requests + more).now, parse)
  }

  lemma RunOneMore(requests: seq<A.Request>, q: A.Request)
    ensures A.Run(requests + [q]) == A.Extend(A.Run(requests), q)
  {
    assert (requests + [q])[..|requests|] == requests;
  }

  lemma {:induction false} LiveRowsKept(requests: seq<A.Request>, more: seq<A.Request>, parse: Parser)
    requires LiveRowsNameThemselves(A.Run(requests).now, parse)
    requires forall q :: q in more ==> RegistersItself(parse, q)
    ensures LiveRowsNameThemselves(A.Run(requests + more).now, parse)
  {
    if more == [] {
      assert requests + more == requests;
    } else {
      var before, q := more[..|more| - 1], more[|more| - 1];
      LiveRowsKept(requests, before, parse);
      assert requests + more == requests + before + [q];
      RunOneMore(requests + before, q);
      LiveRowsStep(A.Run(requests + before), q, parse);
    }
  }

  lemma LiveRowsStep(o: A.Outcome, q: A.Request, parse: Parser)
    requires LiveRowsNameThemselves(o.now, parse) && RegistersItself(parse, q)
    ensures LiveRowsNameThemselves(A.Extend(o, q).now, parse)
  {
  }

  lemma ReloadMatches(c: A.Catalogue, files: seq<Y.DiskFile>, parse: Parser)
    requires A.DiskMirrorsEnabled(c) && LiveRowsNameThemselves(c, parse) && ReadsDisk(files, c.disk, parse)
    ensures StoreMatchesRows(Y.LoadAll(map[], files), c, parse)
  {
    forall id | id in Y.LoadAll(map[], files)
      ensures id in c.disk && parse(c.disk[id]) == Y.Readable(Y.LoadAll(map[], files)[id])
    {
      Y.LoadedFromFile(files, id);
      var m :| m in c.disk && parse(c.disk[m]) == Y.Readable(Y.LoadAll(map[], files)[id]);
      assert NamesItself(parse, m, c.rows[m].json);
    }
  }

  /** Requests that enable a manifest from any status but archived. */
  function PathToEnabled(s: A.Status, m: ManifestId): seq<A.Request> {
    match s
    case Draft => [A.Approve(m, "someone"), A.Enable(m, 0.0)]
    case Rejected => [A.Approve(m, "someone"), A.Enable(m, 0.0)]
    case Approved => [A.Enable(m, 0.0)]
    case Disabled => [A.Enable(m, 0.0)]
    case _ => []
  }

  /** The row is there with this status and text. */
  predicate RowIs(c: A.Catalogue, m: ManifestId, s: A.Status, json: A.Json) {
    m in c.rows && c.rows[m].status == s && c.rows[m].json == json
  }

  lemma ApproveOne(requests: seq<A.Request>, m: ManifestId, json: A.Json)
    requires RowIs(A.Run(requests).now, m, A.Draft, json) || RowIs(A.Run(requests).now, m, A.Rejected, json)
    ensures RowIs(A.Run(requests + [A.Approve(m, "someone")]).now, m, A.Approved, json)
  {
    RunOneMore(requests, A.Approve(m, "someone"));
  }

  lemma EnableOne(requests: seq<A.Request>, m: ManifestId, json: A.Json)
    requires RowIs(A.Run(requests).now, m, A.Approved, json) || RowIs(A.Run(requests).now, m, A.Disabled, json)
    ensures RowIs(A.Run(requests + [A.Enable(m, 0.0)]).now, m, A.Enabled, json)
  {
    RunOneMore(requests, A.Enable(m, 0.0));
  }

  lemma PathEnables(requests: seq<A.Request>, m: ManifestId)
    requires m in A.Run(requests).now.rows && A.Run(requests).now.rows[m].status != A.Archived
    ensures var row := A.Run(requests).now.rows[m];
            RowIs(A.Run(requests + PathToEnabled(row.status, m)).now, m, A.Enabled, row.json)
  {
    var row := A.Run(requests).now.rows[m];
    var path := PathToEnabled(row.status, m);
    if |path| == 2 {
      ApproveOne(requests, m, row.json);
      EnableOne(requests + [path[0]], m, row.json);
      assert requests + path == requests + [path[0]] + [path[1]];
    } else if |path| == 1 {
      EnableOne(requests, m, row.json);
    } else {
      assert requests + path == requests;
    }
  }

  lemma ReadOneMore(rest: map<ManifestId, A.Json>, files: seq<Y.DiskFile>, id: ManifestId, json: A.Json, parse: Parser)
    requires id !in rest && ReadsDisk(files, rest, parse)
    ensures ReadsDisk(files + [parse(json)], rest[id := json], parse)
  {
    var disk, all := rest[id := json], files + [parse(json)];
    forall f | f in all
      ensures exists x :: x in disk && parse(disk[x]) == f
    {
      if f in files {
        var x :| x in rest && parse(rest[x]) == f;
        assert disk[x] == rest[x];
      } else {
        assert disk[id] == json;
      }
    }
  }

  /** The directory can be read. */
  lemma {:induction false} DiskCanBeRead(disk: map<ManifestId, A.Json>, parse: Parser) returns (files: seq<Y.DiskFile>)
    ensures ReadsDisk(files, disk, parse)
    decreases |disk|
  {
    files := [];
    if disk != map[] {
      var id :| id in disk;
      var rest := disk - {id};
      assert disk == rest[id := disk[id]];
      var others := DiskCanBeRead(rest, parse);
      ReadOneMore(rest, others, id, disk[id], parse);
      files := others + [parse(disk[id])];
    }
  }

  /** With a file of another id on disk, and no row of that id enabled, a reload mismatches. */
  lemma MisnamedFileMismatches(c: A.Catalogue, parse: Parser, m: ManifestId) returns (files: seq<Y.DiskFile>)
    requires m in c.disk && parse(c.disk[m]).Readable? && parse(c.disk[m]).manifest.id !in c.disk
    ensures ReadsDisk(files, c.disk, parse) && !StoreMatchesRows(Y.LoadAll(map[], files), c, parse)
  {
    files := DiskCanBeRead(c.disk, parse);
    assert parse(c.disk[m]) in files;
    Y.ReloadMirrorsDisk(files, parse(c.disk[m]).manifest.id);
  }

  /** Requests by which this row is enabled and another manifest is not. */
  lemma ExposeRow(requests: seq<A.Request>, m: ManifestId, other: ManifestId) returns (more: seq<A.Request>)
    requires m in A.Run(requests).now.rows && A.Run(requests).now.rows[m].status != A.Archived && other != m
    ensures forall q :: q in more ==> !q.Create? && (q.Enable? ==> q.id == m)
    ensures var c := A.Run(requests + more).now;
            && m in c.disk && c.disk[m] == A.Run(requests).now.rows[m].json
            && other !in c.disk
  {
    var path := PathToEnabled(A.Run(requests).now.rows[m].status, m);
    PathEnables(requests, m);
    RunOneMore(requests + path, A.Disable(other));
    more := path + [A.Disable(other)];
    assert requests + more == requests + path + [A.Disable(other)];
    A.DiskAlwaysMirrorsEnabled(requests + path);
    A.DiskAlwaysMirrorsEnabled(requests + more);
  }

  /** A row whose text carries another id, enabled while that other manifest is not, puts its
      content under the other's id. */
  lemma MisnamedRowMismatches(requests: seq<A.Request>, parse: Parser, m: ManifestId)
    requires m in A.Run(requests).now.rows && A.Run(requests).now.rows[m].status != A.Archived
    requires !NamesItself(parse, m, A.Run(requests).now.rows[m].json)
    ensures !AlwaysMatches(requests, parse)
  {
    var other := parse(A.Run(requests).now.rows[m].json).manifest.id;
    var more := ExposeRow(requests, m, other);
    var files := MisnamedFileMismatches(A.Run(requests + more).now, parse, m);
  }

  /** Content is always found under its own row's id, whatever requests follow, if and only if
      every row not yet archived was registered with a text that carries its id. The dashboard
      does not check that. */
  lemma ContentIsItsOwnIff(requests: seq<A.Request>, parse: Parser)
    ensures AlwaysMatches(requests, parse) <==> LiveRowsNameThemselves(A.Run(requests).now, parse)
  {
    if LiveRowsNameThemselves(A.Run(requests).now, parse) {
      forall more: seq<A.Request>, files
        | (forall q :: q in more ==> RegistersItself(parse, q))
          && ReadsDisk(files, A.Run(requests + more).now.disk, parse)
        ensures StoreMatchesRows(Y.LoadAll(map[], files), A.Run(requests + more).now, parse)
      {
        LiveRowsKept(requests, more, parse);
        A.DiskAlwaysMirrorsEnabled(requests + more);
        ReloadMatches(A.Run(requests + more).now, files, parse);
      }
    } else {
      var m :| m in A.Run(requests).now.rows && A.Run(requests).now.rows[m].status != A.Archived
               && !NamesItself(parse, m, A.Run(requests).now.rows[m].json);
      MisnamedRowMismatches(requests, parse, m);
    }
  }

  /** A parser that takes the whole text for the id: enough to give examples. */
  const BY_TEXT: Parser := json => Y.Readable(Y.Manifest(json, "approved", "someone", Y.Never, ["asset"]))

  /** Such a registration: a row "a" whose text carries the id "b". */
  lemma MisnamedExample()
    ensures !AlwaysMatches([A.Create("a", "b", [])], BY_TEXT)
  {
    RunOneMore([], A.Create("a", "b", []));
    assert [] + [A.Create("a", "b", [])] == [A.Create("a", "b", [])];
    MisnamedRowMismatches([A.Create("a", "b", [])], BY_TEXT, "a");
  }

  // ---------- one id ----------

  predicate Carries(parse: Parser, json: A.Json, id: ManifestId) {
    parse(json).Readable? && parse(json).manifest.id == id
  }

  /** The request registers no other row with a text that carries this id. */
  predicate LeavesAlone(parse: Parser, q: A.Request, m: ManifestId) {
    q.Create? && q.id != m ==> !Carries(parse, q.json, m)
  }

  lemma {:induction false} RowsLeaveAlone(requests: seq<A.Request>, parse: Parser, m: ManifestId)
    requires forall q :: q in requests ==> LeavesAlone(parse, q, m)
    ensures forall b :: b in A.Run(requests).now.rows && b != m ==> !Carries(parse, A.Run(requests).now.rows[b].json, m)
  {
    if requests != [] {
      var before, q := requests[..|requests| - 1], requests[|requests| - 1];
      RowsLeaveAlone(before, parse, m);
      assert q in requests;
      NewRowLeavesAlone(A.Run(before), q, parse, m);
    }
  }

  lemma NewRowLeavesAlone(o: A.Outcome, q: A.Request, parse: Parser, m: ManifestId)
    requires forall b :: b in o.now.rows && b != m ==> !Carries(parse, o.now.rows[b].json, m)
    requires LeavesAlone(parse, q, m)
    ensures var c := A.Extend(o, q).now;
            forall b :: b in c.rows && b != m ==> !Carries(parse, c.rows[b].json, m)
  {
  }

  /** If no other row was ever registered with a text that carries this id, what is shown under it
      is the content of the very row with that id, which had been enabled on an approval. */
  lemma ShownUnderItsOwnId(hs: seq<Happening>, parse: Parser, staleMs: int, m: ManifestId)
    requires forall q :: q in Requests(hs) ==> LeavesAlone(parse, q, m)
    ensures var x := Run(hs, parse, staleMs);
            Y.ShowsManifest(x.player.screen, m) ==>
              && WasServed(x.dashboard, m)
              && parse(x.dashboard.now.rows[m].json) == Y.Readable(x.player.screen.manifest)
  {
    var x := Run(hs, parse, staleMs);
    OnlyApprovedContentIsShown(hs, parse, staleMs);
    DashboardFollowsRequests(hs, parse, staleMs);
    RowsLeaveAlone(Requests(hs), parse, m);
    if Y.ShowsManifest(x.player.screen, m) {
      var b :| WasServed(x.dashboard, b)
               && parse(x.dashboard.now.rows[b].json) == Y.Readable(x.player.screen.manifest);
      assert Carries(parse, x.dashboard.now.rows[b].json, m);
    }
  }
}
