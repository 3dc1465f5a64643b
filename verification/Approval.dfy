/**
 The approval workflow of the dashboard: a status per manifest, and the shared directory
 from which manifests are served. Writing and committing succeed.
 */
module Approval {
  import opened Wrappers
  import opened Policy
  import opened RuleCompiler

  type Json = string

  datatype Status = Draft | Approved | Rejected | Enabled | Disabled | Archived

  datatype Row = Row(
    status: Status,
    json: Json,
    tags: seq<Tag>,
    approvedBy: Option<string>,
    rejectionReason: Option<string>,
    enabledAt: Option<real>)

  /** The manifests table and the output directory, by manifest id. */
  datatype Catalogue = Catalogue(rows: map<ManifestId, Row>, disk: map<ManifestId, Json>)

  const EMPTY := Catalogue(map[], map[])

  datatype Request =
    | Create(id: ManifestId, json: Json, tags: seq<Tag>)
    | Approve(id: ManifestId, approver: string)
    | Reject(id: ManifestId, reason: string)
    | Enable(id: ManifestId, at: real)
    | Disable(id: ManifestId)
    | Archive(id: ManifestId)
    | UpdateTags(id: ManifestId, tags: seq<Tag>)

  datatype Response = Done | NotFound | Conflict

  function ValidTargets(s: Status): set<Status> {
    match s
    case Draft => {Approved, Rejected, Archived}
    case Approved => {Enabled, Rejected, Archived}
    case Rejected => {Approved, Archived}
    case Enabled => {Disabled, Archived}
    case Disabled => {Enabled, Archived}
    case Archived => {}
  }

  predicate CanTransition(current: Status, target: Status) {
    target in ValidTargets(current)
  }

  /** Whether a manifest in some status may be asked for this. */
  predicate Allowed(s: Status, q: Request) {
    match q
    case Create(_, _, _) => false
    case Approve(_, _) => CanTransition(s, Approved)
    case Reject(_, _) => CanTransition(s, Rejected)
    case Enable(_, _) => CanTransition(s, Enabled)
    case Disable(_) => CanTransition(s, Disabled)
    case Archive(_) => CanTransition(s, Archived)
    case UpdateTags(_, _) => s != Archived
  }

  function Changed(r: Row, q: Request): Row {
    match q
    case Create(_, _, _) => r
    case Approve(_, approver) => r.(status := Approved, approvedBy := Some(approver), rejectionReason := None)
    case Reject(_, reason) => r.(status := Rejected, rejectionReason := Some(reason))
    case Enable(_, at) => r.(status := Enabled, enabledAt := Some(at))
    case Disable(_) => r.(status := Disabled)
    case Archive(_) => r.(status := Archived)
    case UpdateTags(_, tags) => r.(tags := tags)
  }

  /** The directory after an allowed request on a manifest with this row. */
  function DiskAfter(disk: map<ManifestId, Json>, r: Row, q: Request): map<ManifestId, Json> {
    if q.Enable? then disk[q.id := r.json]
    else if q.Disable? || (q.Archive? && r.status == Enabled) then disk - {q.id}
    else disk
  }

  function Serve(c: Catalogue, q: Request): (Catalogue, Response) {
    if q.Create? then
      if q.id in c.rows then (c, Conflict)
      else (c.(rows := c.rows[q.id := Row(Draft, q.json, q.tags, None, None, None)]), Done)
    else if q.id !in c.rows then (c, NotFound)
    else if !Allowed(c.rows[q.id].status, q) then (c, Conflict)
    else (Catalogue(c.rows[q.id := Changed(c.rows[q.id], q)], DiskAfter(c.disk, c.rows[q.id], q)), Done)
  }

  // ---------- the routes ----------

  class ManifestRoutes {
    var rows: map<ManifestId, Row>
    var disk: map<ManifestId, Json>

    ghost function View(): Catalogue
      reads this
    {
      Catalogue(rows, disk)
    }

    constructor ()
      ensures View() == EMPTY
    {
      rows, disk := map[], map[];
    }

    method WriteManifestToDisk(id: ManifestId, json: Json)
      modifies this`disk
      ensures disk == old(disk)[id := json]
    {
      disk := disk[id := json];
    }

    method RemoveManifestFromDisk(id: ManifestId)
      modifies this`disk
      ensures disk == old(disk) - {id}
    {
      disk := disk - {id};
    }

    method CreateManifest(id: ManifestId, json: Json, tags: seq<Tag>) returns (response: Response)
      modifies this
      ensures (View(), response) == Serve(old(View()), Create(id, json, tags))
    {
      if id in rows {
        return Conflict;
      }
      rows := rows[id := Row(Draft, json, tags, None, None, None)];
      response := Done;
    }

    method ApproveManifest(id: ManifestId, approver: string) returns (response: Response)
      modifies this
      ensures (View(), response) == Serve(old(View()), Approve(id, approver))
    {
      if id !in rows {
        return NotFound;
      }
      if !CanTransition(rows[id].status, Approved) {
        return Conflict;
      }
      rows := rows[id := rows[id].(status := Approved, approvedBy := Some(approver), rejectionReason := None)];
      response := Done;
    }

    method RejectManifest(id: ManifestId, reason: string) returns (response: Response)
      modifies this
      ensures (View(), response) == Serve(old(View()), Reject(id, reason))
    {
      if id !in rows {
        return NotFound;
      }
      if !CanTransition(rows[id].status, Rejected) {
        return Conflict;
      }
      rows := rows[id := rows[id].(status := Rejected, rejectionReason := Some(reason))];
      response := Done;
    }

    method EnableManifest(id: ManifestId, at: real) returns (response: Response)
      modifies this
      ensures (View(), response) == Serve(old(View()), Enable(id, at))
    {
      if id !in rows {
        return NotFound;
      }
      if !CanTransition(rows[id].status, Enabled) {
        return Conflict;
      }
      rows := rows[id := rows[id].(status := Enabled, enabledAt := Some(at))];
      WriteManifestToDisk(id, rows[id].json);
      response := Done;
    }

    method DisableManifest(id: ManifestId) returns (response: Response)
      modifies this
      ensures (View(), response) == Serve(old(View()), Disable(id))
    {
      if id !in rows {
        return NotFound;
      }
      if !CanTransition(rows[id].status, Disabled) {
        return Conflict;
      }
      rows := rows[id := rows[id].(status := Disabled)];
      RemoveManifestFromDisk(id);
      response := Done;
    }

    method UpdateManifestTags(id: ManifestId, tags: seq<Tag>) returns (response: Response)
      modifies this
      ensures (View(), response) == Serve(old(View()), UpdateTags(id, tags))
    {
      if id !in rows {
        return NotFound;
      }
      if rows[id].status == Archived {
        return Conflict;
      }
      rows := rows[id := rows[id].(tags := tags)];
      response := Done;
    }

    method ArchiveManifest(id: ManifestId) returns (response: Response)
      modifies this
      ensures (View(), response) == Serve(old(View()), Archive(id))
    {
      if id !in rows {
        return NotFound;
      }
      if !CanTransition(rows[id].status, Archived) {
        return Conflict;
      }
      if rows[id].status == Enabled {
        RemoveManifestFromDisk(id);
      }
      rows := rows[id := rows[id].(status := Archived)];
      response := Done;
    }
  }

  // ---------- runs ----------

  /** The catalogue after some requests, with those of them that were carried out. */
  datatype Outcome = Outcome(now: Catalogue, done: seq<Request>)

  function Extend(o: Outcome, q: Request): Outcome {
    var (c, response) := Serve(o.now, q);
    Outcome(c, if response == Done then o.done + [q] else o.done)
  }

  function Run(requests: seq<Request>): Outcome {
    if requests == [] then Outcome(EMPTY, [])
    else Extend(Run(requests[..|requests| - 1]), requests[|requests| - 1])
  }

  /** A manifest's file is on disk exactly while it is enabled, with its registered content. */
  ghost predicate DiskMirrorsEnabled(c: Catalogue) {
    forall id ::
      && (id in c.disk <==> id in c.rows && c.rows[id].status == Enabled)
      && (id in c.disk ==> c.disk[id] == c.rows[id].json)
  }

  lemma ServeKeepsMirror(c: Catalogue, q: Request)
    requires DiskMirrorsEnabled(c)
    ensures DiskMirrorsEnabled(Serve(c, q).0)
  {
  }

  lemma {:induction false} DiskAlwaysMirrorsEnabled(requests: seq<Request>)
    ensures DiskMirrorsEnabled(Run(requests).now)
  {
    if requests != [] {
      DiskAlwaysMirrorsEnabled(requests[..|requests| - 1]);
      ServeKeepsMirror(Run(requests[..|requests| - 1]).now, requests[|requests| - 1]);
    }
  }

  /** The last approval or rejection of a manifest among some requests. */
  function LastDecision(done: seq<Request>, id: ManifestId): Option<Request> {
    if done == [] then None
    else
      var last := done[|done| - 1];
      if (last.Approve? || last.Reject?) && last.id == id then Some(last)
      else LastDecision(done[..|done| - 1], id)
  }

  predicate ApprovedLast(decision: Option<Request>) {
    decision.Some? && decision.value.Approve?
  }

  /** What a row's status says about the last decision on the manifest. */
  predicate DecisionFits(r: Row, decision: Option<Request>) {
    match r.status
    case Draft => decision == None && r.approvedBy == None
    case Approved | Enabled | Disabled =>
      ApprovedLast(decision) && r.approvedBy == Some(decision.value.approver) && r.rejectionReason == None
    case Rejected =>
      decision.Some? && decision.value.Reject? && r.rejectionReason == Some(decision.value.reason)
    case Archived => true
  }

  lemma LastDecisionAppend(done: seq<Request>, q: Request, id: ManifestId)
    ensures LastDecision(done + [q], id)
         == if (q.Approve? || q.Reject?) && q.id == id then Some(q) else LastDecision(done, id)
  {
    assert (done + [q])[..|done|] == done;
  }

  /** The status always tells the last decision; an unknown manifest has had none. */
  lemma {:induction false} StatusTellsDecision(requests: seq<Request>, id: ManifestId)
    ensures var o := Run(requests);
            if id in o.now.rows then DecisionFits(o.now.rows[id], LastDecision(o.done, id))
            else LastDecision(o.done, id) == None
  {
    if requests != [] {
      var o, q := Run(requests[..|requests| - 1]), requests[|requests| - 1];
      StatusTellsDecision(requests[..|requests| - 1], id);
      LastDecisionAppend(o.done, q, id);
    }
  }

  /** Every enabling that was carried out followed an approval that no rejection had revoked. */
  lemma {:induction false} EnabledOnlyAfterApproval(requests: seq<Request>, i: nat)
    requires i < |Run(requests).done| && Run(requests).done[i].Enable?
    ensures ApprovedLast(LastDecision(Run(requests).done[..i], Run(requests).done[i].id))
  {
    var o, q := Run(requests[..|requests| - 1]), requests[|requests| - 1];
    if i < |o.done| {
      EnabledOnlyAfterApproval(requests[..|requests| - 1], i);
      assert Run(requests).done[..i] == o.done[..i];
    } else {
      StatusTellsDecision(requests[..|requests| - 1], q.id);
      assert Run(requests).done[..i] == o.done;
    }
  }

  /** Archived is final: the row never changes again, nothing asked of the manifest is done,
      and its file never comes back. */
  lemma {:induction false} ArchivedIsFinal(requests: seq<Request>, k: nat, id: ManifestId)
    requires k <= |requests|
    requires id in Run(requests[..k]).now.rows && Run(requests[..k]).now.rows[id].status == Archived
    ensures var c := Run(requests).now;
            && id in c.rows && c.rows[id] == Run(requests[..k]).now.rows[id]
            && id !in c.disk
            && forall q: Request :: q.id == id ==> Serve(c, q) == (c, Conflict)
    decreases |requests|
  {
    DiskAlwaysMirrorsEnabled(requests);
    if k < |requests| {
      var before := requests[..|requests| - 1];
      assert before[..k] == requests[..k];
      ArchivedIsFinal(before, k, id);
    } else {
      assert requests[..k] == requests;
    }
  }

  /** A manifest registered once stays registered, and its content never changes. */
  lemma {:induction false} ContentNeverChanges(requests: seq<Request>, k: nat, id: ManifestId)
    requires k <= |requests| && id in Run(requests[..k]).now.rows
    ensures id in Run(requests).now.rows
    ensures Run(requests).now.rows[id].json == Run(requests[..k]).now.rows[id].json
    decreases |requests|
  {
    if k < |requests| {
      var before := requests[..|requests| - 1];
      assert before[..k] == requests[..k];
      ContentNeverChanges(before, k, id);
    } else {
      assert requests[..k] == requests;
    }
  }

  predicate Withdraws(q: Request, id: ManifestId) {
    (q.Disable? || q.Archive?) && q.id == id
  }

  /** Some request carried out from the n-th on has disabled or archived the manifest. */
  ghost predicate WithdrawnSince(done: seq<Request>, n: nat, id: ManifestId) {
    exists i :: n <= i < |done| && Withdraws(done[i], id)
  }

  lemma EnabledStep(o: Outcome, q: Request, id: ManifestId)
    requires id in o.now.rows && o.now.rows[id].status == Enabled
    ensures var next := Extend(o, q);
            || (id in next.now.rows && next.now.rows[id].status == Enabled)
            || (next.done == o.done + [q] && Withdraws(q, id))
  {
  }

  lemma WithdrawnStays(o: Outcome, q: Request, n: nat, id: ManifestId)
    requires WithdrawnSince(o.done, n, id)
    ensures WithdrawnSince(Extend(o, q).done, n, id)
  {
    var i :| n <= i < |o.done| && Withdraws(o.done[i], id);
    assert Extend(o, q).done[i] == o.done[i];
  }

  lemma {:induction false} DoneOnlyGrows(requests: seq<Request>, k: nat)
    requires k <= |requests|
    ensures Run(requests[..k]).done <= Run(requests).done
    decreases |requests|
  {
    if k < |requests| {
      assert requests[..|requests| - 1][..k] == requests[..k];
      DoneOnlyGrows(requests[..|requests| - 1], k);
    } else {
      assert requests[..k] == requests;
    }
  }

  /** An enabled manifest stays enabled until it is disabled or archived. */
  lemma {:induction false} EnabledUntilWithdrawn(requests: seq<Request>, k: nat, id: ManifestId)
    requires k <= |requests|
    requires id in Run(requests[..k]).now.rows && Run(requests[..k]).now.rows[id].status == Enabled
    ensures || (id in Run(requests).now.rows && Run(requests).now.rows[id].status == Enabled)
            || WithdrawnSince(Run(requests).done, |Run(requests[..k]).done|, id)
    decreases |requests|
  {
    if k < |requests| {
      var before, q := requests[..|requests| - 1], requests[|requests| - 1];
      var o, n := Run(before), |Run(requests[..k]).done|;
      assert before[..k] == requests[..k];
      DoneOnlyGrows(before, k);
      EnabledUntilWithdrawn(before, k, id);
      if WithdrawnSince(o.done, n, id) {
        WithdrawnStays(o, q, n, id);
      } else {
        EnabledStep(o, q, id);
        assert Extend(o, q).done == o.done + [q] ==> Extend(o, q).done[|o.done|] == q;
      }
    } else {
      assert requests[..k] == requests;
    }
  }

  // ---------- rows, from the history ----------

  /** From which statuses each route may be used. */
  predicate AllowedFrom(s: Status, q: Request) {
    match q
    case Create(_, _, _) => false
    case Approve(_, _) => s == Draft || s == Rejected
    case Reject(_, _) => s == Draft || s == Approved
    case Enable(_, _) => s == Approved || s == Disabled
    case Disable(_) => s == Enabled
    case Archive(_) => s != Archived
    case UpdateTags(_, _) => s != Archived
  }

  /** A request is carried out exactly where its route allows it; otherwise nothing changes. */
  lemma DoneIffAllowed(c: Catalogue, q: Request)
    ensures Serve(c, q).1
         == if q.Create? then (if q.id in c.rows then Conflict else Done)
            else if q.id !in c.rows then NotFound
            else if AllowedFrom(c.rows[q.id].status, q) then Done
            else Conflict
    ensures Serve(c, q).1 != Done ==> Serve(c, q).0 == c
  {
  }

  /** The status that the last request on a manifest, of those that change it, has led to. */
  function StatusAfter(done: seq<Request>, id: ManifestId): Option<Status> {
    if done == [] then None
    else
      var before, q := StatusAfter(done[..|done| - 1], id), done[|done| - 1];
      if q.id != id then before
      else match q
        case Create(_, _, _) => Some(Draft)
        case Approve(_, _) => Some(Approved)
        case Reject(_, _) => Some(Rejected)
        case Enable(_, _) => Some(Enabled)
        case Disable(_) => Some(Disabled)
        case Archive(_) => Some(Archived)
        case UpdateTags(_, _) => before
  }

  /** The tags of the last registration or update. */
  function TagsAfter(done: seq<Request>, id: ManifestId): seq<Tag> {
    if done == [] then []
    else
      var before, q := TagsAfter(done[..|done| - 1], id), done[|done| - 1];
      if q.id == id && (q.Create? || q.UpdateTags?) then q.tags else before
  }

  /** The time of the last enabling. */
  function EnabledAfter(done: seq<Request>, id: ManifestId): Option<real> {
    if done == [] then None
    else
      var before, q := EnabledAfter(done[..|done| - 1], id), done[|done| - 1];
      if q.id == id && q.Enable? then Some(q.at) else before
  }

  /** The text of the registration. */
  function JsonAfter(done: seq<Request>, id: ManifestId): Json {
    if done == [] then ""
    else
      var before, q := JsonAfter(done[..|done| - 1], id), done[|done| - 1];
      if q.id == id && q.Create? then q.json else before
  }

  /** Who approved last. */
  function ApproverAfter(done: seq<Request>, id: ManifestId): Option<string> {
    if done == [] then None
    else
      var before, q := ApproverAfter(done[..|done| - 1], id), done[|done| - 1];
      if q.id == id && q.Approve? then Some(q.approver) else before
  }

  /** The reason of the last rejection, unless an approval came after it. */
  function RejectionAfter(done: seq<Request>, id: ManifestId): Option<string> {
    if done == [] then None
    else
      var before, q := RejectionAfter(done[..|done| - 1], id), done[|done| - 1];
      if q.id == id && q.Reject? then Some(q.reason)
      else if q.id == id && q.Approve? then None
      else before
  }

  ghost predicate RowFits(c: Catalogue, done: seq<Request>, id: ManifestId) {
    && (id in c.rows <==> StatusAfter(done, id).Some?)
    && (id in c.rows ==>
          && c.rows[id].status == StatusAfter(done, id).value
          && c.rows[id].tags == TagsAfter(done, id)
          && c.rows[id].enabledAt == EnabledAfter(done, id)
          && c.rows[id].approvedBy == ApproverAfter(done, id)
          && c.rows[id].rejectionReason == RejectionAfter(done, id)
          && c.rows[id].json == JsonAfter(done, id))
    && (id !in c.rows ==>
          EnabledAfter(done, id) == None && ApproverAfter(done, id) == None && RejectionAfter(done, id) == None)
  }

  lemma RowFitsStep(o: Outcome, q: Request, id: ManifestId)
    requires RowFits(o.now, o.done, id)
    ensures RowFits(Extend(o, q).now, Extend(o, q).done, id)
  {
    assert (o.done + [q])[..|o.done|] == o.done;
  }

  /** Over every run, each row is what the requests carried out say: its status, its tags, the time
      at which it was enabled last, and its text. */
  lemma {:induction false} RowsTellHistory(requests: seq<Request>, id: ManifestId)
    ensures RowFits(Run(requests).now, Run(requests).done, id)
  {
    if requests != [] {
      RowsTellHistory(requests[..|requests| - 1], id);
      RowFitsStep(Run(requests[..|requests| - 1]), requests[|requests| - 1], id);
    }
  }

  // ---------- the list that rule synchronisation reads ----------

  predicate IsEnabled(c: Catalogue, id: ManifestId) {
    id in c.rows && c.rows[id].status == Enabled
  }

  /** The ids of the enabled manifests, each once, the most recently enabled first. */
  ghost predicate ListsEnabled(c: Catalogue, ids: seq<ManifestId>) {
    && (forall id :: id in ids <==> IsEnabled(c, id))
    && (forall id :: id in ids ==> c.rows[id].enabledAt.Some?)
    && NewestFirst(c, ids)
  }

  /** No id twice, and none before one that was enabled later. */
  ghost predicate NewestFirst(c: Catalogue, ids: seq<ManifestId>) {
    && (forall i, j :: 0 <= i < j < |ids| ==> ids[i] != ids[j])
    && forall i, j :: 0 <= i < j < |ids| ==> EnabledTime(c, ids[i]) >= EnabledTime(c, ids[j])
  }

  function EnabledTime(c: Catalogue, id: ManifestId): real {
    if id in c.rows && c.rows[id].enabledAt.Some? then c.rows[id].enabledAt.value else 0.0
  }

  function CreativesOf(c: Catalogue, ids: seq<ManifestId>): (creatives: seq<Creative>)
    requires forall id :: id in ids ==> id in c.rows
    ensures |creatives| == |ids|
  {
    seq(|ids|, i requires 0 <= i < |ids| => Creative(ids[i], c.rows[ids[i]].tags))
  }

  /** An enabled manifest always has a time at which it was enabled. */
  lemma {:induction false} EnabledHasTime(requests: seq<Request>, id: ManifestId)
    requires id in Run(requests).now.rows && Run(requests).now.rows[id].status == Enabled
    ensures Run(requests).now.rows[id].enabledAt.Some?
  {
    var o, q := Run(requests[..|requests| - 1]), requests[|requests| - 1];
    if id in o.now.rows && o.now.rows[id].status == Enabled {
      EnabledHasTime(requests[..|requests| - 1], id);
    }
  }

  /** The list names these ids, the most recently enabled first. */
  ghost predicate Lists(c: Catalogue, ids: seq<ManifestId>, members: set<ManifestId>) {
    (forall id :: id in ids <==> id in members) && NewestFirst(c, ids)
  }

  /** Putting an id before the first one enabled earlier. */
  lemma ListOneMore(c: Catalogue, ids: seq<ManifestId>, members: set<ManifestId>, id: ManifestId)
    returns (more: seq<ManifestId>)
    requires Lists(c, ids, members) && id !in members
    ensures Lists(c, more, members + {id})
  {
    var p := 0;
    while p < |ids| && EnabledTime(c, ids[p]) >= EnabledTime(c, id)
      invariant p <= |ids|
      invariant forall i :: 0 <= i < p ==> EnabledTime(c, ids[i]) >= EnabledTime(c, id)
    {
      p := p + 1;
    }
    more := ids[..p] + [id] + ids[p..];
    assert forall x :: x in ids <==> x in ids[..p] || x in ids[p..];
  }

  lemma {:induction false} ListOf(c: Catalogue, members: set<ManifestId>) returns (ids: seq<ManifestId>)
    ensures Lists(c, ids, members)
    decreases |members|
  {
    ids := [];
    if members != {} {
      var id :| id in members;
      ids := ListOf(c, members - {id});
      ids := ListOneMore(c, ids, members - {id}, id);
      assert members - {id} + {id} == members;
    }
  }

  /** Rule synchronisation can always read its list. */
  lemma EnabledCanBeListed(requests: seq<Request>) returns (ids: seq<ManifestId>)
    ensures ListsEnabled(Run(requests).now, ids)
  {
    var c := Run(requests).now;
    ids := ListOf(c, set id | id in c.rows && c.rows[id].status == Enabled);
    forall id | id in ids
      ensures c.rows[id].enabledAt.Some?
    {
      EnabledHasTime(requests, id);
    }
  }
}
