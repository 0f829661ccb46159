/**
 The snapshot lifecycle of apps/api/src/services/snapshotService.ts as a state machine: the
 space_snapshots rows, the artifact directories, each space's active_snapshot_id, and the calls of
 buildSpaceSnapshot and pruneSpaceSnapshots in progress.  Every database transaction and every file
 system operation is a step of its own, so that a crash can fall between any two of them.
 Repository changes and agent turns are steps of the environment.
 */
module Snapshots {
  import opened Wrappers

  type SnapId = nat
  type SpaceId = nat
  type TurnId = nat
  type CallId = nat

  // ---------- Index quality ----------

  datatype IndexStatus = Indexed | IndexDegraded | IndexError | IndexSkipped | IndexUnknown
  datatype IndexQuality = Clean | Partial | Degraded | FailedQuality
  datatype CheckStatus = Ready | NotReady
  datatype CheckQuality = CheckComplete | CheckDegraded | CheckUnknown
  datatype Check = Check(status: CheckStatus, quality: CheckQuality)
  datatype Index = Index(status: IndexStatus, quality: IndexQuality, skippedCount: nat,
                         afterPrimary: Option<Check>, afterLinking: Option<Check>)
  datatype Quality = Complete | PartialQuality | DegradedQuality | UnknownQuality

  predicate CheckIsDegraded(check: Option<Check>) { check.Some? && check.value.quality.CheckDegraded? }

  predicate CheckIsGood(check: Option<Check>) { check == Some(Check(Ready, CheckComplete)) }

  // snapshotRepositoryIndexQuality
  function RepositoryQuality(index: Index, linking: bool): Quality {
    if index.status.IndexDegraded? || index.status.IndexError? || index.status.IndexSkipped? || index.quality.Degraded?
       || CheckIsDegraded(index.afterPrimary) || (linking && CheckIsDegraded(index.afterLinking)) then DegradedQuality
    else if index.skippedCount > 0 || index.quality.Partial? then PartialQuality
    else if !index.status.Indexed? || !index.quality.Clean? then UnknownQuality
    else if !CheckIsGood(index.afterPrimary) || (linking && !CheckIsGood(index.afterLinking)) then UnknownQuality
    else Complete
  }

  // ---------- Rows ----------

  datatype Repo = Repo(id: string, branch: Option<string>, commit: Option<string>, cloneStatus: string)

  datatype Entry = Entry(repo: string, branch: Option<string>, commit: Option<string>, index: Index)

  predicate SomeEntryIs(entries: seq<Entry>, quality: Quality, linking: bool) {
    exists k :: 0 <= k < |entries| && RepositoryQuality(entries[k].index, linking) == quality
  }

  // aggregateSnapshotQuality
  function AggregateQuality(entries: seq<Entry>, expected: nat, linking: bool): Quality {
    if SomeEntryIs(entries, DegradedQuality, linking) then DegradedQuality
    else if SomeEntryIs(entries, PartialQuality, linking) then PartialQuality
    else if |entries| != expected || SomeEntryIs(entries, UnknownQuality, linking) then UnknownQuality
    else Complete
  }

  // sameSnapshotInputs, over rows that are not removed
  predicate SameInputs(captured: seq<Repo>, current: seq<Repo>) {
    |captured| == |current| && forall k :: 0 <= k < |captured| ==>
      captured[k].id == current[k].id && captured[k].branch == current[k].branch
      && captured[k].commit == current[k].commit && captured[k].cloneStatus == current[k].cloneStatus
  }

  predicate Buildable(repos: seq<Repo>) {
    repos != [] && forall k :: 0 <= k < |repos| ==>
      repos[k].cloneStatus == "cloned" && repos[k].branch.Some? && repos[k].commit.Some?
  }

  datatype Status = Building | Active | Inactive | Failed | Pruning

  datatype Row = Row(space: SpaceId, version: nat, status: Status, manifest: seq<Entry>, quality: Quality)

  type Rows = map<SnapId, Row>

  // The local variables of one buildSpaceSnapshot call.
  datatype Build = Build(space: SpaceId, captured: seq<Repo>, manifest: seq<Entry>, linking: bool, linked: nat,
                         threw: bool)

  datatype Stage = Closing | Marked | Removed

  // The local variables of one pruneSpaceSnapshots call; `todo[0]` is the candidate being worked on.
  datatype Prune = Prune(ids: set<SnapId>, captured: map<SnapId, Status>, todo: seq<SnapId>, stage: Stage)

  datatype Turn = Turn(snapshot: SnapId, active: bool)

  datatype State = State(
    rows: Rows, artifacts: set<SnapId>, active: map<SpaceId, SnapId>,
    repos: map<SpaceId, seq<Repo>>, turns: map<TurnId, Turn>,
    builds: map<SnapId, Build>, prunes: map<CallId, Prune>, live: bool)

  datatype Config = Config(enforceQuality: bool)

  const EMPTY := State(map[], {}, map[], map[], map[], map[], map[], true)

  // ---------- Queries ----------

  function ReposOf(s: State, space: SpaceId): seq<Repo> { if space in s.repos then s.repos[space] else [] }

  predicate HasActiveTurn(s: State, id: SnapId) {
    exists t :: t in s.turns && s.turns[t].active && s.turns[t].snapshot == id
  }

  predicate InPruningSet(s: State, id: SnapId) { exists p :: p in s.prunes && id in s.prunes[p].ids }

  // Snapshot ids are random and never reused.
  predicate IsFreshId(s: State, id: SnapId) {
    id !in s.rows && id !in s.artifacts && id !in s.builds && !InPruningSet(s, id)
  }

  // COALESCE(MAX(version), 0) + 1 within the space
  ghost predicate IsNextVersion(rows: Rows, space: SpaceId, n: nat) {
    && (forall id :: id in rows && rows[id].space == space ==> rows[id].version < n)
    && (n == 1 || exists id :: id in rows && rows[id].space == space && rows[id].version + 1 == n)
  }

  function Newer(rows: Rows, space: SpaceId, version: nat): set<SnapId> {
    set k | k in rows && rows[k].space == space && rows[k].version > version
  }

  // Outside the newest `keep` rows of the space and not the active snapshot.
  predicate Expendable(s: State, space: SpaceId, keep: nat, id: SnapId) {
    && id in s.rows && s.rows[id].space == space && |Newer(s.rows, space, s.rows[id].version)| >= keep
    && !(space in s.active && s.active[space] == id)
  }

  function Candidates(s: State, space: SpaceId, keep: nat): set<SnapId> {
    set id | id in s.rows && Expendable(s, space, keep, id)
  }

  // assertAgentTurnCanStart: not in the pruning set, not marked, and of complete declared quality.
  predicate TurnCanStart(c: Config, s: State, id: SnapId) {
    && !InPruningSet(s, id)
    && (id in s.rows ==> !s.rows[id].status.Pruning? && (c.enforceQuality ==> s.rows[id].quality.Complete?))
  }

  // ---------- Build ----------

  function MakeDir(s: State, id: SnapId, space: SpaceId): State {
    s.(artifacts := s.artifacts + {id}, builds := s.builds[id := Build(space, ReposOf(s, space), [], false, 0, false)])
  }

  function InsertRow(s: State, id: SnapId, version: nat): State
    requires id in s.builds
  {
    s.(rows := s.rows[id := Row(s.builds[id].space, version, Building, [], UnknownQuality)])
  }

  // One persistBuildingManifest.
  function Persist(s: State, id: SnapId, build: Build): State
    requires id in s.rows
  {
    s.(rows := s.rows[id := s.rows[id].(manifest := build.manifest,
                                        quality := AggregateQuality(build.manifest, |build.captured|, build.linking))],
       builds := s.builds[id := build])
  }

  // A repository has been indexed; an index that may not activate makes the call throw.
  function RecordIndexed(c: Config, s: State, id: SnapId, index: Index): State
    requires id in s.builds && id in s.rows && |s.builds[id].manifest| < |s.builds[id].captured|
  {
    var build := s.builds[id];
    var repo := build.captured[|build.manifest|];
    var entry := Entry(repo.id, repo.branch, repo.commit, index.(afterLinking := None));
    Persist(s, id, build.(manifest := build.manifest + [entry],
                          threw := c.enforceQuality && !RepositoryQuality(entry.index, false).Complete?))
  }

  function BeginLinking(s: State, id: SnapId): State
    requires id in s.builds && id in s.rows
  {
    Persist(s, id, s.builds[id].(linking := true))
  }

  function Linked(c: Config, s: State, id: SnapId, check: Check): State
    requires id in s.builds && id in s.rows && s.builds[id].linked < |s.builds[id].manifest|
  {
    var build := s.builds[id];
    var k := build.linked;
    var entry := build.manifest[k].(index := build.manifest[k].index.(afterLinking := Some(check)));
    Persist(s, id, build.(manifest := build.manifest[k := entry], linked := k + 1,
                          threw := c.enforceQuality && !RepositoryQuality(entry.index, true).Complete?))
  }

  // The end of the try block: the quality gate, then the activation transaction.
  function Activate(c: Config, s: State, id: SnapId): State
    requires id in s.builds && id in s.rows
  {
    var build := s.builds[id];
    var quality := AggregateQuality(build.manifest, |build.captured|, build.linking);
    if (c.enforceQuality && !quality.Complete?) || !SameInputs(build.captured, ReposOf(s, build.space)) then
      s.(builds := s.builds[id := build.(threw := true)])
    else
      s.(rows := map k | k in s.rows ::
           if k == id then s.rows[k].(status := Active, manifest := build.manifest, quality := quality)
           else if s.rows[k].space == build.space && s.rows[k].status.Active? then s.rows[k].(status := Inactive)
           else s.rows[k],
         active := s.active[build.space := id],
         builds := s.builds - {id})
  }

  // The catch block.
  function Fail(s: State, id: SnapId): State
    requires id in s.builds && id in s.rows
  {
    var build := s.builds[id];
    s.(rows := s.rows[id := s.rows[id].(status := Failed, manifest := build.manifest,
         quality := AggregateQuality(build.manifest, |build.captured|, build.linking))],
       builds := s.builds - {id})
  }

  // softRemoveSpaceRepository on an included repository withdraws the active snapshot.
  function Revoke(s: State, space: SpaceId): State
    requires space in s.active
  {
    var id := s.active[space];
    s.(rows := if id in s.rows then s.rows[id := s.rows[id].(status := Inactive)] else s.rows,
       active := s.active - {space})
  }

  // ---------- Prune ----------

  function BeginPrune(s: State, p: CallId, ids: set<SnapId>, todo: seq<SnapId>): State
    requires ids <= s.rows.Keys
  {
    s.(prunes := s.prunes[p := Prune(ids, map id | id in ids :: s.rows[id].status, todo, Closing)])
  }

  function MarkPruning(s: State, p: CallId): State
    requires p in s.prunes && s.prunes[p].todo != [] && s.prunes[p].todo[0] in s.rows
  {
    var id := s.prunes[p].todo[0];
    s.(rows := s.rows[id := s.rows[id].(status := Pruning)], prunes := s.prunes[p := s.prunes[p].(stage := Marked)])
  }

  function RemoveArtifact(s: State, p: CallId): State
    requires p in s.prunes && s.prunes[p].todo != []
  {
    s.(artifacts := s.artifacts - {s.prunes[p].todo[0]}, prunes := s.prunes[p := s.prunes[p].(stage := Removed)])
  }

  function DeleteRow(s: State, p: CallId): State
    requires p in s.prunes && s.prunes[p].todo != []
  {
    s.(rows := s.rows - {s.prunes[p].todo[0]},
       prunes := s.prunes[p := s.prunes[p].(todo := s.prunes[p].todo[1..], stage := Closing)])
  }

  // ---------- Crash and recovery ----------

  function Crash(s: State): State { s.(builds := map[], prunes := map[], live := false) }

  // reconcileInterruptedSnapshotBuilds
  function FailBuilding(rows: Rows): Rows {
    map id | id in rows :: if rows[id].status.Building? then rows[id].(status := Failed, quality := UnknownQuality)
      else rows[id]
  }

  function PruningRows(rows: Rows): set<SnapId> { set id | id in rows && rows[id].status.Pruning? }

  // The whole constructor without I/O errors.
  function Recover(s: State): State {
    var failed := FailBuilding(s.rows);
    var pruning := PruningRows(failed);
    var rows := failed - pruning;
    s.(rows := rows, artifacts := (s.artifacts - pruning) * rows.Keys, live := true)
  }

  // ---------- Runs ----------

  datatype Event =
    | EMakeDir(id: SnapId, space: SpaceId)
    | EInsertRow(id: SnapId, version: nat)
    | EIndexed(id: SnapId, index: Index)
    | EBeginLinking(id: SnapId)
    | ELinked(id: SnapId, check: Check)
    | EActivate(id: SnapId)
    | EFail(id: SnapId)
    | EAbandon(id: SnapId)
    | ERepos(space: SpaceId, list: seq<Repo>)
    | ERevoke(space: SpaceId)
    | EBeginPrune(p: CallId, space: SpaceId, keep: nat, todo: seq<SnapId>)
    | EMarkPruning(p: CallId)
    | ERemoveArtifact(p: CallId)
    | EDeleteRow(p: CallId)
    | EEndPrune(p: CallId)
    | EStartTurn(t: TurnId, snapshot: SnapId)
    | EEndTurn(t: TurnId)
    | ECrash
    | EReconcile
    | ERecoverRemove(id: SnapId)
    | ERecoverDelete(id: SnapId)
    | EOrphan(id: SnapId)
    | ERecovered

  ghost predicate Working(s: State, id: SnapId) { s.live && id in s.builds && id in s.rows && !s.builds[id].threw }

  ghost predicate Recovering(s: State) { !s.live }

  ghost predicate AtStage(s: State, p: CallId, stage: Stage) {
    s.live && p in s.prunes && s.prunes[p].todo != [] && s.prunes[p].stage == stage
  }

  ghost predicate CanLink(s: State, id: SnapId) {
    Working(s, id) && s.builds[id].linking && s.builds[id].linked < |s.builds[id].manifest|
  }

  // Every repository is indexed and, when there are several, linked.
  ghost predicate CanActivate(s: State, id: SnapId) {
    && Working(s, id) && |s.builds[id].manifest| == |s.builds[id].captured|
    && (|s.builds[id].captured| > 1 ==> s.builds[id].linking && s.builds[id].linked == |s.builds[id].manifest|)
  }

  // No build of the space is running (assertNoActiveSpaceJobs), no candidate is being pruned or used.
  ghost predicate CanBeginPrune(s: State, p: CallId, space: SpaceId, keep: nat, todo: seq<SnapId>) {
    && s.live && p !in s.prunes && 1 <= keep <= 100
    && (forall id :: id in s.builds ==> s.builds[id].space != space)
    && (forall id :: id in todo <==> id in Candidates(s, space, keep))
    && (forall m, n :: 0 <= m < n < |todo| ==> todo[m] != todo[n])
    && (forall id :: id in todo ==> !InPruningSet(s, id) && !HasActiveTurn(s, id))
  }

  ghost predicate CanMark(s: State, p: CallId) {
    && AtStage(s, p, Closing) && !HasActiveTurn(s, s.prunes[p].todo[0])
    && s.prunes[p].todo[0] in s.rows && s.prunes[p].todo[0] in s.prunes[p].captured
    && s.rows[s.prunes[p].todo[0]].status == s.prunes[p].captured[s.prunes[p].todo[0]]
  }

  ghost predicate CanDelete(s: State, p: CallId) {
    AtStage(s, p, Removed) && s.prunes[p].todo[0] in s.rows && s.rows[s.prunes[p].todo[0]].status.Pruning?
  }

  ghost predicate Enabled(c: Config, s: State, e: Event) {
    match e
    case EMakeDir(id, space) => s.live && IsFreshId(s, id) && Buildable(ReposOf(s, space))
    case EInsertRow(id, n) => s.live && id in s.builds && id !in s.rows && IsNextVersion(s.rows, s.builds[id].space, n)
    case EIndexed(id, _) => Working(s, id) && !s.builds[id].linking && |s.builds[id].manifest| < |s.builds[id].captured|
    case EBeginLinking(id) =>
      Working(s, id) && !s.builds[id].linking && |s.builds[id].manifest| == |s.builds[id].captured| > 1
    case ELinked(id, _) => CanLink(s, id)
    case EActivate(id) => CanActivate(s, id)
    case EFail(id) => s.live && id in s.builds && id in s.rows
    case EAbandon(id) => s.live && id in s.builds && id !in s.rows
    case ERepos(_, _) => s.live
    case ERevoke(space) => s.live && space in s.active
    case EBeginPrune(p, space, keep, todo) => CanBeginPrune(s, p, space, keep, todo)
    case EMarkPruning(p) => CanMark(s, p)
    case ERemoveArtifact(p) => AtStage(s, p, Marked)
    case EDeleteRow(p) => CanDelete(s, p)
    case EEndPrune(p) => s.live && p in s.prunes
    // a chat's snapshot id is null once its row is gone
    case EStartTurn(t, id) => s.live && t !in s.turns && id in s.rows && TurnCanStart(c, s, id)
    case EEndTurn(t) => s.live && t in s.turns
    case ECrash => true
    case EReconcile => Recovering(s)
    case ERecoverRemove(id) => Recovering(s) && id in PruningRows(s.rows)
    case ERecoverDelete(id) => Recovering(s) && id in PruningRows(s.rows) && id !in s.artifacts
    case EOrphan(id) => Recovering(s) && id in s.artifacts && id !in s.rows
    case ERecovered => Recovering(s)
  }

  ghost function Apply(c: Config, s: State, e: Event): State
    requires Enabled(c, s, e)
  {
    match e
    case EMakeDir(id, space) => MakeDir(s, id, space)
    case EInsertRow(id, n) => InsertRow(s, id, n)
    case EIndexed(id, index) => RecordIndexed(c, s, id, index)
    case EBeginLinking(id) => BeginLinking(s, id)
    case ELinked(id, check) => Linked(c, s, id, check)
    case EActivate(id) => Activate(c, s, id)
    case EFail(id) => Fail(s, id)
    case EAbandon(id) => s.(builds := s.builds - {id})
    case ERepos(space, list) => s.(repos := s.repos[space := list])
    case ERevoke(space) => Revoke(s, space)
    case EBeginPrune(p, space, keep, todo) => BeginPrune(s, p, Candidates(s, space, keep), todo)
    case EMarkPruning(p) => MarkPruning(s, p)
    case ERemoveArtifact(p) => RemoveArtifact(s, p)
    case EDeleteRow(p) => DeleteRow(s, p)
    case EEndPrune(p) => s.(prunes := s.prunes - {p})
    case EStartTurn(t, id) => s.(turns := s.turns[t := Turn(id, true)])
    case EEndTurn(t) => s.(turns := s.turns[t := s.turns[t].(active := false)])
    case ECrash => Crash(s)
    case EReconcile => s.(rows := FailBuilding(s.rows))
    case ERecoverRemove(id) => s.(artifacts := s.artifacts - {id})
    case ERecoverDelete(id) => s.(rows := s.rows - {id})
    case EOrphan(id) => s.(artifacts := s.artifacts - {id})
    // what the constructor has not done yet, without a further crash
    case ERecovered => Recover(s)
  }

  ghost predicate Possible(c: Config, s: State, es: seq<Event>)
    decreases |es|
  {
    es == [] || (Enabled(c, s, es[0]) && Possible(c, Apply(c, s, es[0]), es[1..]))
  }

  ghost function Run(c: Config, s: State, es: seq<Event>): State
    requires Possible(c, s, es)
    decreases |es|
  {
    if es == [] then s else Run(c, Apply(c, s, es[0]), es[1..])
  }
}
