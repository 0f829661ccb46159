/** The synchronous sections of apps/api/src/services/snapshotService.ts, over module Snapshots. */
module SnapshotServices {
  import opened Wrappers
  import opened Snapshots
  import Outcomes = SnapshotOutcomes
  import Proofs = SnapshotProofs

  datatype SnapshotError = EmptySpace | NotCloned | NoSelection | ActiveJobs | BadRetention | AlreadyPruning
    | ActiveTurns

  ghost function Elems(list: seq<SnapId>): set<SnapId> { set id | id in list }

  // All rows of a space, ORDER BY version DESC.
  ghost predicate NewestFirst(rows: Rows, space: SpaceId, list: seq<SnapId>) {
    && (forall id :: id in list <==> id in rows && rows[id].space == space)
    && Descending(rows, list)
  }

  ghost predicate Descending(rows: Rows, list: seq<SnapId>) {
    && (forall m :: 0 <= m < |list| ==> list[m] in rows)
    && (forall m, n :: 0 <= m < n < |list| ==> rows[list[m]].version > rows[list[n]].version)
  }

  lemma {:induction false} DistinctElems(list: seq<SnapId>)
    requires forall m, n :: 0 <= m < n < |list| ==> list[m] != list[n]
    ensures |Elems(list)| == |list|
  {
    if list == [] {
      assert Elems(list) == {};
    } else {
      var k := |list| - 1;
      DistinctElems(list[..k]);
      assert Elems(list) == Elems(list[..k]) + {list[k]};
    }
  }

  /** Dropping the newest `keep` rows of the list drops exactly the rows with fewer than `keep` newer ones. */
  lemma NewerIsPrefix(rows: Rows, space: SpaceId, list: seq<SnapId>, k: nat)
    requires NewestFirst(rows, space, list) && k < |list| && list[k] in rows
    ensures Newer(rows, space, rows[list[k]].version) == Elems(list[..k])
    ensures |Newer(rows, space, rows[list[k]].version)| == k
  {
    DistinctElems(list[..k]);
    forall id | id in Newer(rows, space, rows[list[k]].version) ensures id in list[..k] {
      var m :| 0 <= m < |list| && list[m] == id;
      assert list[..k][m] == id;
    }
  }

  /** What pruning may delete: everything after the newest `keep` rows except the active snapshot. */
  lemma CandidatesAreTheTail(s: State, space: SpaceId, keep: nat, list: seq<SnapId>)
    requires NewestFirst(s.rows, space, list)
    ensures forall id :: id in Candidates(s, space, keep) <==>
      keep <= |list| && id in list[keep..] && !(space in s.active && s.active[space] == id)
  {
    forall id ensures id in Candidates(s, space, keep) <==>
      keep <= |list| && id in list[keep..] && !(space in s.active && s.active[space] == id)
    {
      if id in list {
        var k :| 0 <= k < |list| && list[k] == id;
        NewerIsPrefix(s.rows, space, list, k);
        assert keep <= k ==> list[keep..][k - keep] == id;
      }
    }
  }

  lemma SamePruningSet(s: State, t: State, p: CallId)
    requires p in s.prunes && p in t.prunes && t.prunes == s.prunes[p := t.prunes[p]]
    requires t.prunes[p].ids == s.prunes[p].ids
    ensures forall id :: InPruningSet(t, id) <==> InPruningSet(s, id)
  {
    forall id ensures InPruningSet(t, id) <==> InPruningSet(s, id) {
      assert forall q :: q in s.prunes ==> t.prunes[q].ids == s.prunes[q].ids;
    }
  }

  lemma PruningSetGrows(s: State, t: State, p: CallId)
    requires p !in s.prunes && p in t.prunes && t.prunes == s.prunes[p := t.prunes[p]]
    ensures forall id :: InPruningSet(t, id) <==> InPruningSet(s, id) || id in t.prunes[p].ids
  {
    forall id ensures InPruningSet(t, id) <==> InPruningSet(s, id) || id in t.prunes[p].ids {
      assert forall q :: q in s.prunes ==> t.prunes[q].ids == s.prunes[q].ids;
    }
  }

  ghost predicate InUse(s: State, ids: set<SnapId>) {
    exists id :: id in ids && (InPruningSet(s, id) || HasActiveTurn(s, id))
  }

  // Why a repository cannot be built: it is not cloned, or nothing of it is selected.
  ghost predicate Unfit(repo: Repo, error: SnapshotError) {
    if repo.cloneStatus != "cloned" then error == NotCloned
    else (repo.branch.None? || repo.commit.None?) && error == NoSelection
  }

  // What the next step of a build records; its row follows.
  ghost predicate Recorded(s: State, t: State, id: SnapId) {
    && id in s.builds && id in t.builds && id in s.rows && id in t.rows
    && t == s.(rows := s.rows[id := t.rows[id]], builds := s.builds[id := t.builds[id]])
    && t.rows[id] == s.rows[id].(manifest := t.builds[id].manifest, quality := t.rows[id].quality)
    && (t.rows[id].quality == Complete <==>
          && |t.builds[id].manifest| == |t.builds[id].captured|
          && forall k :: 0 <= k < |t.builds[id].manifest| ==>
               Proofs.GoodIndex(t.builds[id].manifest[k].index, t.builds[id].linking))
  }

  lemma PersistRecords(s: State, id: SnapId, build: Build)
    requires id in s.builds && id in s.rows
    ensures Recorded(s, Persist(s, id, build), id)
  {
    Proofs.AggregateIsComplete(build.manifest, |build.captured|, build.linking);
  }

  // No unended turn uses the snapshot, and its row is as it was when the call began.
  ghost predicate Idle(s: State, p: CallId)
    requires p in s.prunes && s.prunes[p].todo != []
  {
    var id := s.prunes[p].todo[0];
    && (forall t :: t in s.turns && s.turns[t].active ==> s.turns[t].snapshot != id)
    && id in s.rows && id in s.prunes[p].captured && s.rows[id].status == s.prunes[p].captured[id]
  }

  // An idle candidate is marked, and gone if its directory could be removed; others are left as they are.
  ghost predicate Pruned(s: State, t: State, p: CallId, removable: bool, deleted: bool)
    requires p in s.prunes && s.prunes[p].todo != []
  {
    var id := s.prunes[p].todo[0];
    && (deleted <==> Idle(s, p) && removable)
    && if deleted then
         && t.rows == s.rows - {id} && t.artifacts == s.artifacts - {id}
         && t.prunes == s.prunes[p := s.prunes[p].(todo := s.prunes[p].todo[1..])]
       else
         t.artifacts == s.artifacts
         && t.rows == if Idle(s, p) then s.rows[id := s.rows[id].(status := Pruning)] else s.rows
  }

  lemma PruneOutcomes(s: State, p: CallId)
    requires AtStage(s, p, Closing)
    ensures Idle(s, p) <==> CanMark(s, p)
    ensures CanMark(s, p) ==> Pruned(s, DeleteRow(RemoveArtifact(MarkPruning(s, p), p), p), p, true, true)
    ensures CanMark(s, p) ==> Pruned(s, MarkPruning(s, p), p, false, false)
    ensures !CanMark(s, p) ==> forall removable :: Pruned(s, s, p, removable, false)
  {
    var id := s.prunes[p].todo[0];
    assert HasActiveTurn(s, id) <==> exists t :: t in s.turns && s.turns[t].active && s.turns[t].snapshot == id;
    if CanMark(s, p) {
      var marked := s.rows[id := s.rows[id].(status := Pruning)];
      assert marked - {id} == s.rows - {id};
    }
  }

  // The snapshot is active, its manifest stored and complete if quality is enforced; the one active before is
  // not, and nothing else changes.
  ghost predicate Activated(c: Config, s: State, t: State, id: SnapId) {
    && id in s.rows && id in s.builds && t.artifacts == s.artifacts && t.builds == s.builds - {id}
    && t.active == s.active[s.builds[id].space := id] && t.rows.Keys == s.rows.Keys
    && t.rows[id] == s.rows[id].(status := Active, manifest := s.builds[id].manifest, quality := t.rows[id].quality)
    && (c.enforceQuality ==> t.rows[id].quality == Complete)
    && forall k :: k in s.rows && k != id ==>
         t.rows[k] == if s.rows[k].status == Active && s.rows[k].space == s.builds[id].space
                      then s.rows[k].(status := Inactive) else s.rows[k]
  }

  lemma ActivationRows(c: Config, s: State, id: SnapId, t: State)
    requires id in s.builds && id in s.rows && t == Activate(c, s, id)
    ensures Proofs.Activates(c, s, id) ==> Activated(c, s, t, id)
  {}

  function WithCheck(index: Index, check: Check): Index { index.(afterLinking := Some(check)) }

  lemma LinkedRecords(c: Config, s: State, id: SnapId, check: Check)
    requires id in s.builds && id in s.rows && s.builds[id].linked < |s.builds[id].manifest|
    ensures Recorded(s, Linked(c, s, id, check), id)
  {
    PersistRecords(s, id, Linked(c, s, id, check).builds[id]);
  }

  class SnapshotService {
    const config: Config
    // the database
    var rows: Rows
    var active: map<SpaceId, SnapId>
    var repos: map<SpaceId, seq<Repo>>
    var turns: map<TurnId, Turn>
    // the snapshot index directory
    var artifacts: set<SnapId>
    // in-memory state: the pruning set and the calls awaiting something
    var pruningIds: set<SnapId>
    var builds: map<SnapId, Build>
    var prunes: map<CallId, Prune>

    ghost function View(): State
      reads this
    {
      State(rows, artifacts, active, repos, turns, builds, prunes, true)
    }

    ghost predicate Valid()
      reads this
    {
      Proofs.Inv(config, View()) && forall id :: id in pruningIds <==> InPruningSet(View(), id)
    }

    // A new process over what the previous one left behind.
    constructor (config: Config, rows: Rows, artifacts: set<SnapId>, active: map<SpaceId, SnapId>,
                 repos: map<SpaceId, seq<Repo>>, turns: map<TurnId, Turn>)
      requires Proofs.Inv(config, State(rows, artifacts, active, repos, turns, map[], map[], false))
      ensures this.config == config && Valid() && Proofs.Settled(View())
      ensures View() == Recover(State(rows, artifacts, active, repos, turns, map[], map[], false))
    {
      this.config := config;
      this.rows, this.artifacts, this.active, this.repos, this.turns := rows, artifacts, active, repos, turns;
      pruningIds, builds, prunes := {}, map[], map[];
      new;
      ghost var before := State(rows, artifacts, active, repos, turns, map[], map[], false);
      ReconcileInterruptedSnapshotBuilds();
      RecoverInterruptedSnapshotPrunes();
      CleanupOrphanedSnapshotArtifacts();
      Proofs.RecoverSettles(config, before, View());
    }

    method ReconcileInterruptedSnapshotBuilds()
      modifies `rows
      ensures rows == FailBuilding(old(rows))
      ensures rows.Keys == old(rows).Keys && forall id :: id in rows ==>
        if old(rows)[id].status == Building
        then rows[id] == old(rows)[id].(status := Failed, quality := UnknownQuality) else rows[id] == old(rows)[id]
    {
      var todo := set id | id in rows && rows[id].status.Building?;
      while todo != {}
        invariant rows.Keys == old(rows).Keys && todo <= rows.Keys
        invariant forall id :: id in rows ==>
          rows[id] == if id in todo then old(rows)[id] else Proofs.FailedRow(old(rows)[id])
        invariant forall id :: id in todo ==> old(rows)[id].status.Building?
        decreases todo
      {
        var id :| id in todo;
        rows := rows[id := rows[id].(status := Failed, quality := UnknownQuality)];
        todo := todo - {id};
      }
    }

    method RecoverInterruptedSnapshotPrunes()
      modifies `rows, `artifacts
      ensures rows == old(rows) - PruningRows(old(rows)) && artifacts == old(artifacts) - PruningRows(old(rows))
      ensures forall id :: id in rows <==> id in old(rows) && old(rows)[id].status != Pruning
    {
      var pruning := PruningRows(rows);
      var todo := pruning;
      while todo != {}
        invariant todo <= pruning
        invariant rows == old(rows) - (pruning - todo) && artifacts == old(artifacts) - (pruning - todo)
        decreases todo
      {
        var id :| id in todo;
        artifacts := artifacts - {id};
        rows := rows - {id};
        todo := todo - {id};
      }
    }

    method CleanupOrphanedSnapshotArtifacts()
      modifies `artifacts
      ensures artifacts == old(artifacts) * rows.Keys
    {
      var todo := artifacts;
      while todo != {}
        invariant todo <= artifacts <= old(artifacts)
        invariant artifacts == todo + (old(artifacts) - todo) * rows.Keys
        decreases todo
      {
        var id :| id in todo;
        if id !in rows { artifacts := artifacts - {id}; }
        todo := todo - {id};
      }
    }

    method NextVersion(space: SpaceId) returns (n: nat)
      ensures IsNextVersion(rows, space, n)
    {
      n := 1;
      var todo := rows.Keys;
      while todo != {}
        invariant todo <= rows.Keys
        invariant forall id :: id in rows && id !in todo && rows[id].space == space ==> rows[id].version < n
        invariant n == 1 || exists id :: id in rows && rows[id].space == space && rows[id].version + 1 == n
        decreases todo
      {
        var id :| id in todo;
        if rows[id].space == space && rows[id].version >= n { n := rows[id].version + 1; }
        todo := todo - {id};
      }
    }

    // buildSpaceSnapshot up to its first await; `id` is fresh.
    method BeginBuild(space: SpaceId, id: SnapId) returns (r: Result<nat, SnapshotError>)
      requires Valid() && IsFreshId(View(), id)
      modifies `rows, `artifacts, `builds
      ensures Valid() && (r.Ok? <==> Buildable(ReposOf(old(View()), space)))
      ensures r.Ok? ==> IsNextVersion(old(rows), space, r.value)
      ensures r.Ok? ==> View() == InsertRow(MakeDir(old(View()), id, space), id, r.value)
      ensures r.Err? ==> View() == old(View())
      ensures r.Ok? ==> rows == old(rows)[id := Row(space, r.value, Building, [], UnknownQuality)]
      ensures r.Ok? ==> artifacts == old(artifacts) + {id}
      ensures r.Ok? ==> builds == old(builds)[id := Build(space, ReposOf(old(View()), space), [], false, 0, false)]
      ensures r == Err(EmptySpace) <==> ReposOf(old(View()), space) == []
      ensures r.Err? && r.error != EmptySpace ==>
        exists k :: 0 <= k < |ReposOf(old(View()), space)| && Unfit(ReposOf(old(View()), space)[k], r.error)
    {
      var captured := if space in repos then repos[space] else [];
      if captured == [] { return Err(EmptySpace); }
      for k := 0 to |captured|
        invariant forall m :: 0 <= m < k ==>
          captured[m].cloneStatus == "cloned" && captured[m].branch.Some? && captured[m].commit.Some?
      {
        if captured[k].cloneStatus != "cloned" { return Err(NotCloned); }
        if captured[k].branch.None? || captured[k].commit.None? { return Err(NoSelection); }
      }
      var n := NextVersion(space);
      Proofs.MakeDirKeepsInv(config, View(), id, space);
      Proofs.InsertRowKeepsInv(config, MakeDir(View(), id, space), id, n);
      artifacts := artifacts + {id};
      builds := builds[id := Build(space, captured, [], false, 0, false)];
      rows := rows[id := Row(space, n, Building, [], UnknownQuality)];
      assert forall k :: InPruningSet(View(), k) <==> InPruningSet(old(View()), k);
      return Ok(n);
    }

    method PersistBuildingManifest(id: SnapId, build: Build) returns (updated: bool)
      requires id in builds
      modifies `rows, `builds
      ensures updated == (id in old(rows) && old(rows)[id].status.Building?)
      ensures updated ==> View() == Persist(old(View()), id, build)
      ensures !updated ==> View() == old(View())
    {
      if !(id in rows && rows[id].status.Building?) { return false; }
      builds := builds[id := build];
      rows := rows[id := rows[id].(manifest := build.manifest,
                                   quality := AggregateQuality(build.manifest, |build.captured|, build.linking))];
      return true;
    }

    method RecordIndex(id: SnapId, index: Index) returns (complete: bool)
      requires Valid() && Enabled(config, View(), EIndexed(id, index))
      modifies `rows, `builds
      ensures Valid() && View() == RecordIndexed(config, old(View()), id, index)
      ensures complete <==> (config.enforceQuality ==> Proofs.GoodIndex(index, false))
      ensures Recorded(old(View()), View(), id) && (complete <==> !builds[id].threw)
      ensures Outcomes.IndexedBuild(config, old(builds)[id], builds[id], index)
    {
      Outcomes.IndexedMoves(config, View(), id, index, RecordIndexed(config, View(), id, index));
      var build := builds[id];
      var repo := build.captured[|build.manifest|];
      var entry := Entry(repo.id, repo.branch, repo.commit, index.(afterLinking := None));
      complete := !config.enforceQuality || RepositoryQuality(entry.index, false).Complete?;
      Proofs.CompleteIsGood(entry.index, false);
      Proofs.StepKeepsInv(config, View(), EIndexed(id, index), RecordIndexed(config, View(), id, index));
      PersistRecords(View(), id, build.(manifest := build.manifest + [entry], threw := !complete));
      var _ := PersistBuildingManifest(id, build.(manifest := build.manifest + [entry], threw := !complete));
      assert forall k :: InPruningSet(View(), k) <==> InPruningSet(old(View()), k);
    }

    method BeginLinkingRepositories(id: SnapId)
      requires Valid() && Enabled(config, View(), EBeginLinking(id))
      modifies `rows, `builds
      ensures Valid() && View() == BeginLinking(old(View()), id)
      ensures Recorded(old(View()), View(), id) && builds[id] == old(builds)[id].(linking := true)
    {
      PersistRecords(View(), id, builds[id].(linking := true));
      Proofs.StepKeepsInv(config, View(), EBeginLinking(id), BeginLinking(View(), id));
      var _ := PersistBuildingManifest(id, builds[id].(linking := true));
      assert forall k :: InPruningSet(View(), k) <==> InPruningSet(old(View()), k);
    }

    method RecordLinking(id: SnapId, check: Check) returns (complete: bool)
      requires Valid() && CanLink(View(), id)
      modifies `rows, `builds
      ensures Valid() && View() == Linked(config, old(View()), id, check)
      ensures Recorded(old(View()), View(), id) && (complete <==> !builds[id].threw)
      ensures Outcomes.LinkedBuild(config, old(builds)[id], builds[id], check)
      ensures complete <==> (config.enforceQuality ==>
        Proofs.GoodIndex(WithCheck(old(builds)[id].manifest[old(builds)[id].linked].index, check), true))
    {
      Outcomes.LinkedMoves(config, View(), id, check, Linked(config, View(), id, check));
      LinkedRecords(config, View(), id, check);
      Proofs.LinkedKeepsInv(config, View(), id, check, Linked(config, View(), id, check));
      complete := LinkRows(id, check);
      assert forall k :: InPruningSet(View(), k) <==> InPruningSet(old(View()), k);
    }

    method LinkRows(id: SnapId, check: Check) returns (complete: bool)
      requires id in builds && builds[id].linked < |builds[id].manifest| && id in rows && rows[id].status.Building?
      modifies `rows, `builds
      ensures View() == Linked(config, old(View()), id, check)
      ensures complete == !builds[id].threw
    {
      var build := builds[id];
      var k := build.linked;
      var entry := build.manifest[k].(index := build.manifest[k].index.(afterLinking := Some(check)));
      complete := !config.enforceQuality || RepositoryQuality(entry.index, true).Complete?;
      var manifest := build.manifest[k := entry];
      var _ := PersistBuildingManifest(id, build.(manifest := manifest, linked := k + 1, threw := !complete));
    }

    // The end of the try block; false means the call throws.
    method ActivateBuild(id: SnapId) returns (activated: bool)
      requires Valid() && CanActivate(View(), id)
      modifies `rows, `active, `builds
      ensures Valid() && View() == Activate(config, old(View()), id)
      ensures activated <==> Outcomes.GoesThrough(config, old(View()), id)
      ensures !activated ==> View() == old(View()).(builds := old(builds)[id := old(builds)[id].(threw := true)])
      ensures activated ==> Activated(config, old(View()), View(), id)
    {
      Outcomes.ActivatesExactly(config, View(), id);
      ActivationRows(config, View(), id, Activate(config, View(), id));
      Proofs.ActivateKeepsInv(config, View(), id);
      activated := ActivateRows(id);
      assert forall k :: InPruningSet(View(), k) <==> InPruningSet(old(View()), k);
    }

    method ActivateRows(id: SnapId) returns (activated: bool)
      requires id in builds && id in rows
      modifies `rows, `active, `builds
      ensures View() == Activate(config, old(View()), id)
      ensures activated <==> Proofs.Activates(config, old(View()), id)
    {
      var build := builds[id];
      var quality := AggregateQuality(build.manifest, |build.captured|, build.linking);
      var current := if build.space in repos then repos[build.space] else [];
      if (config.enforceQuality && !quality.Complete?) || !SameInputs(build.captured, current) {
        builds := builds[id := build.(threw := true)];
        return false;
      }
      var others := map k | k in rows ::
        if rows[k].space == build.space && k != id && rows[k].status.Active? then rows[k].(status := Inactive)
          else rows[k];
      rows := others[id := others[id].(status := Active, manifest := build.manifest, quality := quality)];
      active := active[build.space := id];
      builds := builds - {id};
      return true;
    }

    // The catch block.
    method FailBuild(id: SnapId)
      requires Valid() && id in builds && id in rows
      modifies `rows, `builds
      ensures Valid() && View() == Fail(old(View()), id)
      ensures builds == old(builds) - {id} && rows == old(rows)[id := rows[id]]
      ensures rows[id] ==
        old(rows)[id].(status := Failed, manifest := old(builds)[id].manifest, quality := rows[id].quality)
    {
      Proofs.FailKeepsInv(config, View(), id);
      var build := builds[id];
      rows := rows[id := rows[id].(status := Failed, manifest := build.manifest,
        quality := AggregateQuality(build.manifest, |build.captured|, build.linking))];
      builds := builds - {id};
      assert forall k :: InPruningSet(View(), k) <==> InPruningSet(old(View()), k);
    }

    // ORDER BY version DESC
    method SnapshotRows(space: SpaceId) returns (list: seq<SnapId>)
      requires Proofs.DistinctVersions(rows)
      ensures NewestFirst(rows, space, list)
    {
      list := [];
      var todo := set id | id in rows && rows[id].space == space;
      while todo != {}
        invariant todo <= rows.Keys && forall id :: id in todo ==> rows[id].space == space
        invariant forall id :: (id in list || id in todo) <==> id in rows && rows[id].space == space
        invariant Descending(rows, list)
        invariant list != [] ==> forall id :: id in todo ==> rows[id].version < rows[list[|list| - 1]].version
        decreases todo
      {
        var top := NewestOf(todo);
        list := list + [top];
        todo := todo - {top};
      }
    }

    method NewestOf(ids: set<SnapId>) returns (top: SnapId)
      requires ids != {} && ids <= rows.Keys && Proofs.DistinctVersions(rows)
      requires forall a, b :: a in ids && b in ids ==> rows[a].space == rows[b].space
      ensures top in ids && forall id :: id in ids && id != top ==> rows[top].version > rows[id].version
    {
      top :| top in ids;
      var todo := ids - {top};
      while todo != {}
        invariant todo <= ids && top in ids
        invariant forall id :: id in ids && id !in todo && id != top ==> rows[top].version > rows[id].version
        decreases todo
      {
        var id :| id in todo;
        if rows[id].version > rows[top].version { top := id; }
        todo := todo - {id};
      }
    }

    // The rows outside the newest `keep`, without the active snapshot.
    method PruneCandidates(space: SpaceId, keep: nat) returns (candidates: seq<SnapId>)
      requires Proofs.DistinctVersions(rows)
      ensures forall id :: id in candidates <==> id in Candidates(View(), space, keep)
      ensures forall m, n :: 0 <= m < n < |candidates| ==> candidates[m] != candidates[n]
    {
      var list := SnapshotRows(space);
      candidates := [];
      CandidatesAreTheTail(View(), space, keep, list);
      if keep >= |list| { return; }
      for k := keep to |list|
        invariant forall id :: id in candidates <==> id in list[keep..k] && !(space in active && active[space] == id)
        invariant forall m, n :: 0 <= m < n < |candidates| ==> candidates[m] != candidates[n]
      {
        assert list[keep..k + 1] == list[keep..k] + [list[k]];
        assert list[k] !in list[keep..k];
        if !(space in active && active[space] == list[k]) { candidates := candidates + [list[k]]; }
      }
      assert list[keep..|list|] == list[keep..];
    }

    // pruneSpaceSnapshots up to its first await; `activeJobs` counts the space's pending and running jobs.
    method BeginPrune(p: CallId, space: SpaceId, keep: int, activeJobs: nat)
      returns (r: Result<seq<SnapId>, SnapshotError>)
      requires Valid() && p !in prunes
      requires activeJobs == 0 ==> forall id :: id in builds ==> builds[id].space != space
      modifies `pruningIds, `prunes
      ensures Valid()
      ensures r.Ok? ==> 1 <= keep <= 100 && CanBeginPrune(old(View()), p, space, keep, r.value)
      ensures r.Ok? ==> View() == Snapshots.BeginPrune(old(View()), p, Candidates(old(View()), space, keep), r.value)
      ensures r.Err? ==> View() == old(View())
      ensures activeJobs > 0 ==> r == Err(ActiveJobs)
      ensures activeJobs == 0 && !(1 <= keep <= 100) ==> r == Err(BadRetention)
      ensures r.Err? && activeJobs == 0 && 1 <= keep <= 100 ==> r.error in {AlreadyPruning, ActiveTurns}
      ensures r.Err? && activeJobs == 0 && 1 <= keep <= 100 ==> InUse(old(View()), Candidates(old(View()), space, keep))
    {
      if activeJobs > 0 { return Err(ActiveJobs); }
      if keep < 1 || keep > 100 { return Err(BadRetention); }
      var todo := PruneCandidates(space, keep);
      var ids := set id | id in todo;
      assert ids == Candidates(View(), space, keep);
      var overlap := ids * pruningIds;
      if overlap != {} {
        var id :| id in overlap;
        assert id in ids;
        return Err(AlreadyPruning);
      }
      var inUse := AnyActiveTurn(ids);
      if inUse { return Err(ActiveTurns); }
      assert forall id :: id in todo ==> id in ids && id !in overlap;
      AddPrune(p, space, keep, ids, todo);
      return Ok(todo);
    }

    method AddPrune(p: CallId, ghost space: SpaceId, ghost keep: nat, ids: set<SnapId>, todo: seq<SnapId>)
      requires Valid() && CanBeginPrune(View(), p, space, keep, todo) && ids == Candidates(View(), space, keep)
      modifies `pruningIds, `prunes
      ensures Valid() && View() == Snapshots.BeginPrune(old(View()), p, ids, todo)
    {
      ghost var s, t := View(), Snapshots.BeginPrune(View(), p, ids, todo);
      Proofs.BeginPruneKeepsInv(config, s, p, space, keep, todo);
      PruningSetGrows(s, t, p);
      RegisterPrune(p, ids, todo);
    }

    method RegisterPrune(p: CallId, ids: set<SnapId>, todo: seq<SnapId>)
      requires p !in prunes && ids <= rows.Keys
      modifies `pruningIds, `prunes
      ensures View() == Snapshots.BeginPrune(old(View()), p, ids, todo) && pruningIds == old(pruningIds) + ids
    {
      pruningIds := pruningIds + ids;
      prunes := prunes[p := Prune(ids, map id | id in ids :: rows[id].status, todo, Closing)];
    }

    // assertNoActiveAgentTurns
    method AnyActiveTurn(ids: set<SnapId>) returns (found: bool)
      ensures found <==> exists id :: id in ids && HasActiveTurn(View(), id)
    {
      found := exists t :: t in turns && turns[t].active && turns[t].snapshot in ids;
      if found {
        var t :| t in turns && turns[t].active && turns[t].snapshot in ids;
        assert HasActiveTurn(View(), turns[t].snapshot);
      }
    }

    // One candidate after closeSession has returned.  `removable` says whether removing the directory
    // succeeds; when it does not, the row stays 'pruning'.
    method PruneCandidate(p: CallId, removable: bool) returns (deleted: bool)
      requires Valid() && AtStage(View(), p, Closing)
      modifies `rows, `artifacts, `prunes
      ensures Valid() && (deleted <==> CanMark(old(View()), p) && removable)
      ensures !CanMark(old(View()), p) ==> View() == old(View())
      ensures CanMark(old(View()), p) && !removable ==> View() == MarkPruning(old(View()), p)
      ensures deleted ==> View() == DeleteRow(RemoveArtifact(MarkPruning(old(View()), p), p), p)
      ensures Pruned(old(View()), View(), p, removable, deleted)
    {
      PruneOutcomes(View(), p);
      var id := prunes[p].todo[0];
      assert Proofs.PruneOk(View(), prunes[p]);
      var inUse := AnyActiveTurn({id});
      if inUse || !(id in rows && rows[id].status == prunes[p].captured[id]) { return false; }
      MarkRow(p);
      if !removable { return false; }
      RemoveDirectory(p);
      DeleteMarkedRow(p);
      return true;
    }

    method MarkRow(p: CallId)
      requires Valid() && CanMark(View(), p)
      modifies `rows, `prunes
      ensures Valid() && View() == MarkPruning(old(View()), p) && prunes[p].todo[0] in rows
    {
      Proofs.MarkPruningKeepsInv(config, View(), p);
      var id := prunes[p].todo[0];
      rows := rows[id := rows[id].(status := Pruning)];
      prunes := prunes[p := prunes[p].(stage := Marked)];
      SamePruningSet(old(View()), View(), p);
    }

    method RemoveDirectory(p: CallId)
      requires Valid() && AtStage(View(), p, Marked)
      modifies `artifacts, `prunes
      ensures Valid() && View() == RemoveArtifact(old(View()), p)
    {
      Proofs.RemoveArtifactKeepsInv(config, View(), p);
      artifacts := artifacts - {prunes[p].todo[0]};
      prunes := prunes[p := prunes[p].(stage := Removed)];
      SamePruningSet(old(View()), View(), p);
    }

    method DeleteMarkedRow(p: CallId)
      requires Valid() && CanDelete(View(), p)
      modifies `rows, `prunes
      ensures Valid() && View() == DeleteRow(old(View()), p)
    {
      Proofs.DeleteRowKeepsInv(config, View(), p);
      rows := rows - {prunes[p].todo[0]};
      prunes := prunes[p := prunes[p].(todo := prunes[p].todo[1..], stage := Closing)];
      SamePruningSet(old(View()), View(), p);
    }

    // The finally block: this call's ids leave the pruning set.
    method EndPrune(p: CallId)
      requires Valid() && p in prunes
      modifies `pruningIds, `prunes
      ensures Valid() && View() == old(View()).(prunes := old(prunes) - {p})
    {
      ghost var s := View();
      pruningIds := pruningIds - prunes[p].ids;
      prunes := prunes - {p};
      Proofs.QuietKeepsInv(config, s, View());
      assert forall id :: InPruningSet(View(), id) <==> InPruningSet(s, id) && id !in s.prunes[p].ids;
    }

    method AssertAgentTurnCanStart(id: SnapId) returns (ok: bool)
      requires Valid()
      ensures ok <==> TurnCanStart(config, View(), id)
      ensures ok <==> id !in pruningIds && (id in rows ==>
        rows[id].status != Pruning && (config.enforceQuality ==> rows[id].quality == Complete))
    {
      if id in pruningIds || (id in rows && rows[id].status.Pruning?) { return false; }
      return !(config.enforceQuality && id in rows && !rows[id].quality.Complete?);
    }
  }
}
