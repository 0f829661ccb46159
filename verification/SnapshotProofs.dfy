/** Crash safety, activation soundness and the interlock with agent turns for module Snapshots. */
module SnapshotProofs {
  import opened Snapshots

  // ---------- Invariants ----------

  // Rows keep their directories until they are marked.
  ghost predicate HasArtifacts(rows: Rows, artifacts: set<SnapId>) {
    forall id :: id in rows && !rows[id].status.Pruning? ==> id in artifacts
  }

  // Each space has at most one active row, the one it names.
  ghost predicate OneActive(rows: Rows, active: map<SpaceId, SnapId>) {
    && (forall space :: space in active ==> IsActiveOf(rows, active[space], space))
    && (forall id :: id in rows && rows[id].status.Active? ==> rows[id].space in active && active[rows[id].space] == id)
  }

  ghost predicate IsActiveOf(rows: Rows, id: SnapId, space: SpaceId) {
    id in rows && rows[id].status.Active? && rows[id].space == space
  }

  // No live turn loses its snapshot.
  ghost predicate TurnsPinned(rows: Rows, turns: map<TurnId, Turn>) {
    forall t :: t in turns && turns[t].active ==> turns[t].snapshot in rows && !rows[turns[t].snapshot].status.Pruning?
  }

  // The index metadata that allows activation.
  ghost predicate GoodIndex(index: Index, linked: bool) {
    && index.status.Indexed? && index.quality.Clean? && index.skippedCount == 0
    && CheckIsGood(index.afterPrimary) && (linked ==> CheckIsGood(index.afterLinking))
  }

  ghost predicate GoodManifest(manifest: seq<Entry>) {
    forall k :: 0 <= k < |manifest| ==> GoodIndex(manifest[k].index, |manifest| > 1)
  }

  ghost predicate ActiveIsGood(c: Config, rows: Rows) {
    c.enforceQuality ==> forall id ::
      id in rows && rows[id].status.Active? ==> GoodManifest(rows[id].manifest) && rows[id].quality.Complete?
  }

  // A manifest entry describes the repository row captured when the build began.
  ghost predicate Describes(entry: Entry, repo: Repo) {
    entry.repo == repo.id && entry.branch == repo.branch && entry.commit == repo.commit
  }

  ghost predicate BuildOk(build: Build) {
    && |build.manifest| <= |build.captured| && build.linked <= |build.manifest|
    && (build.linking ==> |build.captured| > 1)
    && forall k :: 0 <= k < |build.manifest| ==> Describes(build.manifest[k], build.captured[k])
  }

  ghost predicate BuildsOk(s: State) {
    && (forall id :: id in s.builds ==> id in s.artifacts && BuildOk(s.builds[id]))
    && (forall id :: id in s.builds && id in s.rows ==>
          s.rows[id].status.Building? && s.rows[id].space == s.builds[id].space)
    && (s.live ==> forall id :: id in s.rows && s.rows[id].status.Building? ==> id in s.builds)
    && (!s.live ==> s.builds == map[] && s.prunes == map[])
  }

  ghost predicate PruneShape(prune: Prune) {
    && prune.captured.Keys == prune.ids
    && (forall id :: id in prune.todo ==> id in prune.ids)
    && (forall m, n :: 0 <= m < n < |prune.todo| ==> prune.todo[m] != prune.todo[n])
    && (forall id :: id in prune.ids ==> !prune.captured[id].Active? && !prune.captured[id].Building?)
    && (prune.todo == [] ==> prune.stage.Closing?)
  }

  // The candidate in hand has been marked, and its directory removed.
  ghost predicate HeadOk(rows: Rows, artifacts: set<SnapId>, prune: Prune) {
    && (prune.todo != [] && !prune.stage.Closing? ==> MarkedRow(rows, prune.todo[0]))
    && (prune.todo != [] && prune.stage.Removed? ==> prune.todo[0] !in artifacts)
  }

  ghost predicate PruneOk(s: State, prune: Prune) {
    PruneShape(prune) && HeadOk(s.rows, s.artifacts, prune) && prune.ids !! s.builds.Keys
  }

  ghost predicate MarkedRow(rows: Rows, id: SnapId) { id in rows && rows[id].status.Pruning? }

  ghost predicate PrunesOk(s: State) {
    forall p :: p in s.prunes ==> PruneOk(s, s.prunes[p])
  }

  // No two calls prune the same snapshot.
  ghost predicate DisjointPrunes(prunes: map<CallId, Prune>) {
    forall p, q, id :: p in prunes && q in prunes && id in prunes[p].ids && id in prunes[q].ids ==> p == q
  }

  ghost predicate DistinctVersions(rows: Rows) {
    forall a, b :: a in rows && b in rows && rows[a].space == rows[b].space && rows[a].version == rows[b].version ==>
      a == b
  }

  ghost predicate RowsOk(c: Config, s: State) {
    && HasArtifacts(s.rows, s.artifacts)
    && OneActive(s.rows, s.active)
    && TurnsPinned(s.rows, s.turns)
    && ActiveIsGood(c, s.rows)
    && DistinctVersions(s.rows)
  }

  ghost predicate Inv(c: Config, s: State) {
    RowsOk(c, s) && BuildsOk(s) && PrunesOk(s) && DisjointPrunes(s.prunes)
  }

  // ---------- Quality ----------

  /** A repository index is complete exactly when it is indexed, clean, skipped nothing and every
      required check is ready and complete. */
  lemma CompleteIsGood(index: Index, linking: bool)
    ensures RepositoryQuality(index, linking).Complete? <==> GoodIndex(index, linking)
  {
    assert CheckIsGood(index.afterPrimary) ==> !CheckIsDegraded(index.afterPrimary);
    assert CheckIsGood(index.afterLinking) ==> !CheckIsDegraded(index.afterLinking);
  }

  /** The aggregate is complete exactly when the manifest has the expected entries and all are. */
  lemma AggregateIsComplete(entries: seq<Entry>, expected: nat, linking: bool)
    ensures AggregateQuality(entries, expected, linking).Complete? <==>
      |entries| == expected && forall k :: 0 <= k < |entries| ==> GoodIndex(entries[k].index, linking)
  {
    forall k | 0 <= k < |entries|
      ensures RepositoryQuality(entries[k].index, linking).Complete? <==> GoodIndex(entries[k].index, linking)
    {
      CompleteIsGood(entries[k].index, linking);
    }
    if |entries| == expected && !AggregateQuality(entries, expected, linking).Complete? {
      var k :| 0 <= k < |entries| && !RepositoryQuality(entries[k].index, linking).Complete?;
      assert !GoodIndex(entries[k].index, linking);
    }
  }

  // ---------- Every event keeps the invariant ----------

  lemma MakeDirKeepsInv(c: Config, s: State, id: SnapId, space: SpaceId)
    requires Inv(c, s) && s.live && IsFreshId(s, id)
    ensures Inv(c, MakeDir(s, id, space))
  {
    var t := MakeDir(s, id, space);
    forall p | p in t.prunes ensures PruneOk(t, t.prunes[p]) {
      assert PruneOk(s, s.prunes[p]);
    }
  }

  lemma InsertRowKeepsInv(c: Config, s: State, id: SnapId, n: nat)
    requires Inv(c, s) && s.live && id in s.builds && id !in s.rows && IsNextVersion(s.rows, s.builds[id].space, n)
    ensures Inv(c, InsertRow(s, id, n))
  {
    InsertRowKeepsRows(c, s, id, n, InsertRow(s, id, n));
    InsertRowKeepsCalls(s, id, n, InsertRow(s, id, n));
  }

  lemma InsertRowKeepsRows(c: Config, s: State, id: SnapId, n: nat, t: State)
    requires RowsOk(c, s) && id in s.builds && id in s.artifacts && id !in s.rows
    requires IsNextVersion(s.rows, s.builds[id].space, n) && t == InsertRow(s, id, n)
    ensures RowsOk(c, t)
  {
  }

  lemma InsertRowKeepsCalls(s: State, id: SnapId, n: nat, t: State)
    requires BuildsOk(s) && PrunesOk(s) && s.live && id in s.builds && id !in s.rows && t == InsertRow(s, id, n)
    ensures BuildsOk(t) && PrunesOk(t)
  {
    forall p | p in t.prunes ensures PruneOk(t, t.prunes[p]) {
      assert PruneOk(s, s.prunes[p]);
    }
  }

  lemma PersistKeepsInv(c: Config, s: State, id: SnapId, build: Build)
    requires Inv(c, s) && s.live && id in s.builds && id in s.rows
    requires BuildOk(build) && build.space == s.builds[id].space
    ensures Inv(c, Persist(s, id, build))
  {
    var t := Persist(s, id, build);
    forall p | p in t.prunes ensures PruneOk(t, t.prunes[p]) {
      assert PruneOk(s, s.prunes[p]);
    }
  }

  lemma ActivateKeepsInv(c: Config, s: State, id: SnapId)
    requires Inv(c, s) && CanActivate(s, id)
    ensures Inv(c, Activate(c, s, id))
  {
    if Activates(c, s, id) {
      var t := Activate(c, s, id);
      ActivateKeepsRows(c, s, id, t);
      ActivateKeepsCalls(c, s, id, t);
    } else {
      var t := s.(builds := s.builds[id := s.builds[id].(threw := true)]);
      assert BuildOk(s.builds[id]) && BuildsOk(t);
      QuietKeepsInv(c, s, t);
    }
  }

  // The activation transaction commits.
  ghost predicate Activates(c: Config, s: State, id: SnapId)
    requires id in s.builds
  {
    var build := s.builds[id];
    && (c.enforceQuality ==> AggregateQuality(build.manifest, |build.captured|, build.linking).Complete?)
    && SameInputs(build.captured, ReposOf(s, build.space))
  }

  lemma ActivateKeepsRows(c: Config, s: State, id: SnapId, t: State)
    requires RowsOk(c, s) && CanActivate(s, id) && Activates(c, s, id) && t == Activate(c, s, id)
    requires s.rows[id].status.Building? && s.rows[id].space == s.builds[id].space && id in s.artifacts
    ensures RowsOk(c, t)
  {
    ActivationIsGood(c, s, id);
    ActivateKeepsActive(c, s, id, t);
  }

  lemma ActivateKeepsActive(c: Config, s: State, id: SnapId, t: State)
    requires OneActive(s.rows, s.active) && id in s.rows && id in s.builds && Activates(c, s, id)
    requires t == Activate(c, s, id) && s.rows[id].status.Building? && s.rows[id].space == s.builds[id].space
    ensures OneActive(t.rows, t.active)
  {
    forall space | space in t.active ensures IsActiveOf(t.rows, t.active[space], space) {
      assert space in s.active ==> IsActiveOf(s.rows, s.active[space], space);
    }
  }

  lemma ActivateKeepsCalls(c: Config, s: State, id: SnapId, t: State)
    requires BuildsOk(s) && PrunesOk(s) && s.live && id in s.rows && id in s.builds && Activates(c, s, id)
    requires t == Activate(c, s, id)
    ensures BuildsOk(t) && PrunesOk(t)
  {
    forall p | p in t.prunes ensures PruneOk(t, t.prunes[p]) {
      assert PruneOk(s, s.prunes[p]);
    }
  }

  lemma ActivationIsGood(c: Config, s: State, id: SnapId)
    requires ActiveIsGood(c, s.rows) && CanActivate(s, id)
    ensures ActiveIsGood(c, Activate(c, s, id).rows)
  {
    var build := s.builds[id];
    AggregateIsComplete(build.manifest, |build.captured|, build.linking);
  }

  lemma FailKeepsInv(c: Config, s: State, id: SnapId)
    requires Inv(c, s) && s.live && id in s.builds && id in s.rows
    ensures Inv(c, Fail(s, id))
  {
    var t := Fail(s, id);
    forall p | p in t.prunes ensures PruneOk(t, t.prunes[p]) {
      assert PruneOk(s, s.prunes[p]);
    }
  }

  lemma RevokeKeepsInv(c: Config, s: State, space: SpaceId)
    requires Inv(c, s) && s.live && space in s.active
    ensures Inv(c, Revoke(s, space))
  {
    var t := Revoke(s, space);
    assert IsActiveOf(s.rows, s.active[space], space);
    forall p | p in t.prunes ensures PruneOk(t, t.prunes[p]) {
      assert PruneOk(s, s.prunes[p]);
    }
  }

  lemma BeginPruneKeepsInv(c: Config, s: State, p: CallId, space: SpaceId, keep: nat, todo: seq<SnapId>)
    requires Inv(c, s) && CanBeginPrune(s, p, space, keep, todo)
    ensures Inv(c, BeginPrune(s, p, Candidates(s, space, keep), todo))
  {
    var t := BeginPrune(s, p, Candidates(s, space, keep), todo);
    CandidatesAreIdle(c, s, p, space, keep, todo, t.prunes[p]);
    NewPruneKeepsPrunes(s, p, t.prunes[p], t);
  }

  // A call that registers ids nobody prunes or builds.
  lemma NewPruneKeepsPrunes(s: State, p: CallId, prune: Prune, t: State)
    requires PrunesOk(s) && DisjointPrunes(s.prunes) && p !in s.prunes && t == s.(prunes := s.prunes[p := prune])
    requires PruneOk(s, prune) && forall id :: id in prune.ids ==> !InPruningSet(s, id)
    ensures PrunesOk(t) && DisjointPrunes(t.prunes)
  {
    forall q | q in t.prunes ensures PruneOk(t, t.prunes[q]) {
      assert q != p ==> PruneOk(s, s.prunes[q]);
    }
  }

  lemma CandidatesAreIdle(c: Config, s: State, p: CallId, space: SpaceId, keep: nat, todo: seq<SnapId>, prune: Prune)
    requires OneActive(s.rows, s.active) && BuildsOk(s) && CanBeginPrune(s, p, space, keep, todo)
    requires prune == BeginPrune(s, p, Candidates(s, space, keep), todo).prunes[p]
    ensures PruneOk(s, prune) && forall id :: id in prune.ids ==> !InPruningSet(s, id)
  {
    forall id | id in prune.ids ensures id !in s.builds && id in todo {
      assert Expendable(s, space, keep, id);
    }
  }

  lemma MarkPruningKeepsInv(c: Config, s: State, p: CallId)
    requires Inv(c, s) && CanMark(s, p)
    ensures Inv(c, MarkPruning(s, p))
  {
    assert PruneOk(s, s.prunes[p]);
    MarkPruningKeepsRows(c, s, p, MarkPruning(s, p));
    MarkPruningKeepsPrunes(s, p, MarkPruning(s, p));
  }

  // The candidate is neither active nor building, and no live turn uses it.
  lemma MarkPruningKeepsRows(c: Config, s: State, p: CallId, t: State)
    requires RowsOk(c, s) && BuildsOk(s) && CanMark(s, p) && PruneShape(s.prunes[p]) && t == MarkPruning(s, p)
    ensures RowsOk(c, t) && BuildsOk(t)
  {
  }

  lemma MarkPruningKeepsPrunes(s: State, p: CallId, t: State)
    requires PrunesOk(s) && DisjointPrunes(s.prunes) && CanMark(s, p) && t == MarkPruning(s, p)
    ensures PrunesOk(t) && DisjointPrunes(t.prunes)
  {
    var id := s.prunes[p].todo[0];
    assert PruneOk(s, s.prunes[p]) && id in s.prunes[p].ids;
    forall q | q in s.prunes ensures PruneOk(t, t.prunes[q]) {
      assert PruneOk(s, s.prunes[q]);
      assert q != p ==> id !in s.prunes[q].ids;
    }
  }

  lemma RemoveArtifactKeepsInv(c: Config, s: State, p: CallId)
    requires Inv(c, s) && AtStage(s, p, Marked)
    ensures Inv(c, RemoveArtifact(s, p))
  {
    var t := RemoveArtifact(s, p);
    assert PruneOk(s, s.prunes[p]);
    RemoveArtifactKeepsPrunes(s, p, t);
  }

  lemma RemoveArtifactKeepsPrunes(s: State, p: CallId, t: State)
    requires PrunesOk(s) && DisjointPrunes(s.prunes) && AtStage(s, p, Marked) && t == RemoveArtifact(s, p)
    ensures PrunesOk(t) && DisjointPrunes(t.prunes)
  {
    var id := s.prunes[p].todo[0];
    assert PruneOk(s, s.prunes[p]) && id in s.prunes[p].ids;
    forall q | q in s.prunes ensures PruneOk(t, t.prunes[q]) {
      assert PruneOk(s, s.prunes[q]);
      assert q != p ==> id !in s.prunes[q].ids;
    }
  }

  lemma DeleteRowKeepsInv(c: Config, s: State, p: CallId)
    requires Inv(c, s) && CanDelete(s, p)
    ensures Inv(c, DeleteRow(s, p))
  {
    var t := DeleteRow(s, p);
    assert PruneOk(s, s.prunes[p]);
    DeleteRowKeepsPrunes(s, p, t);
  }

  lemma DeleteRowKeepsPrunes(s: State, p: CallId, t: State)
    requires PrunesOk(s) && DisjointPrunes(s.prunes) && CanDelete(s, p) && t == DeleteRow(s, p)
    ensures PrunesOk(t) && DisjointPrunes(t.prunes)
  {
    var id := s.prunes[p].todo[0];
    assert PruneOk(s, s.prunes[p]) && id in s.prunes[p].ids;
    forall q | q in s.prunes ensures PruneOk(t, t.prunes[q]) {
      assert PruneOk(s, s.prunes[q]);
      assert q != p ==> id !in s.prunes[q].ids;
    }
  }

  // Steps that leave rows, directories and active snapshots as they are.
  lemma QuietKeepsInv(c: Config, s: State, t: State)
    requires Inv(c, s) && t.rows == s.rows && t.artifacts == s.artifacts && t.active == s.active
    requires TurnsPinned(t.rows, t.turns) && BuildsOk(t)
    requires t.builds.Keys <= s.builds.Keys && t.prunes.Keys <= s.prunes.Keys
    requires forall p :: p in t.prunes ==> t.prunes[p] == s.prunes[p]
    ensures Inv(c, t)
  {
    forall p | p in t.prunes ensures PruneOk(t, t.prunes[p]) {
      assert PruneOk(s, s.prunes[p]);
    }
  }

  // Steps of the constructor: nothing is in progress.
  ghost predicate Recovers(s: State, t: State) {
    && t.builds == map[] && t.prunes == map[] && t.turns == s.turns && t.active == s.active
    && t.rows.Keys <= s.rows.Keys
    && (forall id :: id in s.rows && id !in t.rows ==> s.rows[id].status.Pruning?)
    && (forall id :: id in t.rows ==> t.rows[id] == FailedRow(s.rows[id]) || t.rows[id] == s.rows[id])
    && (forall id :: id in t.rows && !t.rows[id].status.Pruning? && id in s.artifacts ==> id in t.artifacts)
  }

  ghost function FailedRow(row: Row): Row {
    if row.status.Building? then row.(status := Failed, quality := UnknownQuality) else row
  }

  lemma RecoveryKeepsInv(c: Config, s: State, t: State)
    requires Inv(c, s) && Recovers(s, t)
    requires t.live ==> forall id :: id in t.rows ==> !t.rows[id].status.Building?
    ensures Inv(c, t)
  {
  }

  lemma RecoveryEvents(c: Config, s: State, e: Event, t: State)
    requires BuildsOk(s) && Enabled(c, s, e) && IsRecovery(e) && t == Apply(c, s, e)
    ensures Recovers(s, t) && (t.live ==> forall id :: id in t.rows ==> !t.rows[id].status.Building?)
  {
    if e.ERecovered? { RecoverRecovers(s); }
  }

  lemma RecoverRecovers(s: State)
    requires s.builds == map[] && s.prunes == map[]
    ensures Recovers(s, Recover(s)) && forall id :: id in Recover(s).rows ==> !Recover(s).rows[id].status.Building?
  {}

  lemma StepKeepsInv(c: Config, s: State, e: Event, t: State)
    requires Inv(c, s) && Enabled(c, s, e) && t == Apply(c, s, e)
    requires e.EIndexed? || e.EBeginLinking? || e.ELinked?
    ensures Inv(c, t)
  {
    var build := s.builds[e.id];
    assert BuildOk(build);
    assert BuildOk(t.builds[e.id]);
    PersistKeepsInv(c, s, e.id, t.builds[e.id]);
  }

  lemma LinkedKeepsInv(c: Config, s: State, id: SnapId, check: Check, t: State)
    requires Inv(c, s) && CanLink(s, id) && t == Linked(c, s, id, check)
    ensures Inv(c, t) && s.rows[id].status.Building?
  {
    StepKeepsInv(c, s, ELinked(id, check), t);
  }

  predicate IsQuiet(e: Event) {
    e.EAbandon? || e.ERepos? || e.EEndPrune? || e.EStartTurn? || e.EEndTurn? || e.ECrash?
  }

  predicate IsRecovery(e: Event) {
    e.EReconcile? || e.ERecoverRemove? || e.ERecoverDelete? || e.EOrphan? || e.ERecovered?
  }

  predicate IsPruneStep(e: Event) {
    e.EBeginPrune? || e.EMarkPruning? || e.ERemoveArtifact? || e.EDeleteRow?
  }

  predicate IsBuildStep(e: Event) {
    e.EMakeDir? || e.EInsertRow? || e.EActivate? || e.EFail? || e.ERevoke?
  }

  lemma QuietEvents(c: Config, s: State, e: Event, t: State)
    requires Enabled(c, s, e) && t == Apply(c, s, e) && IsQuiet(e)
    ensures t.rows == s.rows && t.artifacts == s.artifacts && t.active == s.active
    ensures t.builds.Keys <= s.builds.Keys && t.prunes.Keys <= s.prunes.Keys
    ensures forall p :: p in t.prunes ==> t.prunes[p] == s.prunes[p]
    ensures TurnsPinned(s.rows, s.turns) ==> TurnsPinned(t.rows, t.turns)
    ensures BuildsOk(s) ==> BuildsOk(t)
  {
  }

  lemma PruneEventKeepsInv(c: Config, s: State, e: Event)
    requires Inv(c, s) && Enabled(c, s, e) && IsPruneStep(e)
    ensures Inv(c, Apply(c, s, e))
  {
    match e
    case EBeginPrune(p, space, keep, todo) => BeginPruneKeepsInv(c, s, p, space, keep, todo);
    case EMarkPruning(p) => MarkPruningKeepsInv(c, s, p);
    case ERemoveArtifact(p) => RemoveArtifactKeepsInv(c, s, p);
    case EDeleteRow(p) => DeleteRowKeepsInv(c, s, p);
  }

  lemma BuildEventKeepsInv(c: Config, s: State, e: Event)
    requires Inv(c, s) && Enabled(c, s, e) && IsBuildStep(e)
    ensures Inv(c, Apply(c, s, e))
  {
    match e
    case EMakeDir(id, space) => MakeDirKeepsInv(c, s, id, space);
    case EInsertRow(id, n) => InsertRowKeepsInv(c, s, id, n);
    case EActivate(id) => ActivateKeepsInv(c, s, id);
    case EFail(id) => FailKeepsInv(c, s, id);
    case ERevoke(space) => RevokeKeepsInv(c, s, space);
  }

  lemma EventKeepsInv(c: Config, s: State, e: Event)
    requires Inv(c, s) && Enabled(c, s, e)
    ensures Inv(c, Apply(c, s, e))
  {
    var t := Apply(c, s, e);
    if IsQuiet(e) {
      QuietEvents(c, s, e, t);
      QuietKeepsInv(c, s, t);
    } else if IsRecovery(e) {
      RecoveryEvents(c, s, e, t);
      RecoveryKeepsInv(c, s, t);
    } else if IsPruneStep(e) {
      PruneEventKeepsInv(c, s, e);
    } else if IsBuildStep(e) {
      BuildEventKeepsInv(c, s, e);
    } else {
      StepKeepsInv(c, s, e, t);
    }
  }

  lemma {:induction false} RunKeepsInv(c: Config, s: State, es: seq<Event>)
    requires Inv(c, s) && Possible(c, s, es)
    ensures Inv(c, Run(c, s, es))
    decreases |es|
  {
    if es != [] {
      EventKeepsInv(c, s, es[0]);
      RunKeepsInv(c, Apply(c, s, es[0]), es[1..]);
    }
  }

  // ---------- Main results ----------

  ghost predicate Settled(s: State) {
    && s.rows.Keys == s.artifacts
    && forall id :: id in s.rows ==> !s.rows[id].status.Building? && !s.rows[id].status.Pruning?
  }

  lemma RecoverSettles(c: Config, s: State, r: State)
    requires Inv(c, s) && s.builds == map[] && s.prunes == map[] && r == Recover(s)
    ensures Settled(r) && Inv(c, r)
  {
    RecoveryKeepsInv(c, s, r);
  }

  /** After any run, a crash at that point followed by the constructor leaves no row 'building' or
      'pruning' and pairs rows with directories.  No row is lost but those being pruned: finished
      ones are untouched, and the snapshots of active spaces and live turns survive. */
  lemma CrashSafety(c: Config, es: seq<Event>, s: State, r: State)
    requires Possible(c, EMPTY, es) && s == Run(c, EMPTY, es) && r == Recover(Crash(s))
    ensures Settled(r)
    ensures forall id :: id in s.rows ==> (id in r.rows <==> !s.rows[id].status.Pruning?)
    ensures forall id :: id in r.rows ==> r.rows[id] == FailedRow(s.rows[id])
    ensures r.active == s.active && forall space :: space in r.active ==> r.active[space] in r.rows
    ensures forall t :: t in r.turns && r.turns[t].active ==> r.turns[t].snapshot in r.rows
  {
    RunKeepsInv(c, EMPTY, es);
    forall space | space in s.active ensures IsActiveOf(s.rows, s.active[space], space) {}
  }

  /** Recovery itself may be interrupted: after any of its steps, starting over ends in the same state. */
  lemma RecoveryRestarts(c: Config, s: State, e: Event, t: State)
    requires BuildsOk(s) && Enabled(c, s, e) && IsRecovery(e) && t == Apply(c, s, e)
    ensures Recover(Crash(t)) == Recover(Crash(s))
  {
    match e
    case EReconcile => assert FailBuilding(t.rows) == t.rows;
    case ERecoverRemove(id) =>
      assert t.artifacts - PruningRows(FailBuilding(t.rows)) == s.artifacts - PruningRows(FailBuilding(s.rows));
    case ERecoverDelete(id) => DeletingRestarts(s, id, t);
    case EOrphan(id) => OrphanRestarts(s, id, t);
    case ERecovered => RecoverTwice(s, t);
  }

  lemma DeletingRestarts(s: State, id: SnapId, t: State)
    requires id in PruningRows(s.rows) && id !in s.artifacts && t == s.(rows := s.rows - {id})
    ensures Recover(Crash(t)) == Recover(Crash(s))
  {
    var a, b := FailBuilding(s.rows), FailBuilding(t.rows);
    assert b - PruningRows(b) == a - PruningRows(a);
    assert s.artifacts - PruningRows(a) == s.artifacts - PruningRows(b);
  }

  lemma OrphanRestarts(s: State, id: SnapId, t: State)
    requires id !in s.rows && t == s.(artifacts := s.artifacts - {id})
    ensures Recover(Crash(t)) == Recover(Crash(s))
  {
    var a := FailBuilding(s.rows);
    assert (t.artifacts - PruningRows(a)) * (a - PruningRows(a)).Keys
      == (s.artifacts - PruningRows(a)) * (a - PruningRows(a)).Keys;
  }

  lemma RecoverTwice(s: State, t: State)
    requires s.builds == map[] && s.prunes == map[] && t == Recover(s)
    ensures Recover(Crash(t)) == Recover(Crash(s))
  {
    assert PruningRows(t.rows) == {};
    assert FailBuilding(t.rows) == t.rows;
    assert t.rows - {} == t.rows;
    assert (t.artifacts - {}) * t.rows.Keys == t.artifacts;
  }

  ghost predicate DescribesAll(manifest: seq<Entry>, repos: seq<Repo>) {
    |manifest| == |repos| && forall k :: 0 <= k < |repos| ==> Describes(manifest[k], repos[k])
  }

  /** With quality enforced, the only event that makes a snapshot active is the end of its build, and
      then the manifest describes exactly the repositories and commits the space has at that moment,
      with every index indexed, clean, complete and, for several repositories, verified after linking. */
  lemma ActivationSoundness(c: Config, es: seq<Event>, s: State, e: Event, t: State, id: SnapId)
    requires Possible(c, EMPTY, es) && s == Run(c, EMPTY, es) && Enabled(c, s, e) && t == Apply(c, s, e)
    requires c.enforceQuality
    requires id in t.rows && t.rows[id].status.Active? && !(id in s.rows && s.rows[id].status.Active?)
    ensures e == EActivate(id)
    ensures DescribesAll(t.rows[id].manifest, ReposOf(t, t.rows[id].space))
    ensures GoodManifest(t.rows[id].manifest)
    ensures t.active == s.active[t.rows[id].space := id]
  {
    RunKeepsInv(c, EMPTY, es);
    BecomesActive(c, s, e, t, id);
    ActivationMatches(c, s, id, t);
  }

  lemma BecomesActive(c: Config, s: State, e: Event, t: State, id: SnapId)
    requires BuildsOk(s) && Enabled(c, s, e) && t == Apply(c, s, e)
    requires id in t.rows && t.rows[id].status.Active? && !(id in s.rows && s.rows[id].status.Active?)
    ensures e == EActivate(id)
  {
    if IsQuiet(e) {
      QuietEvents(c, s, e, t);
    } else if IsRecovery(e) {
      RecoveryEvents(c, s, e, t);
    } else if IsPruneStep(e) {
      PruneActivatesNone(c, s, e, t, id);
    } else {
      BuildActivatesItself(c, s, e, t, id);
    }
  }

  lemma PruneActivatesNone(c: Config, s: State, e: Event, t: State, id: SnapId)
    requires Enabled(c, s, e) && t == Apply(c, s, e) && IsPruneStep(e)
    ensures id in t.rows && t.rows[id].status.Active? ==> id in s.rows && s.rows[id].status.Active?
  {}

  lemma BuildActivatesItself(c: Config, s: State, e: Event, t: State, id: SnapId)
    requires BuildsOk(s) && Enabled(c, s, e) && t == Apply(c, s, e)
    requires !IsQuiet(e) && !IsRecovery(e) && !IsPruneStep(e)
    ensures id in t.rows && t.rows[id].status.Active? ==>
      (id in s.rows && s.rows[id].status.Active?) || e == EActivate(id)
  {}

  lemma ActivationMatches(c: Config, s: State, id: SnapId, t: State)
    requires Inv(c, s) && CanActivate(s, id) && t == Activate(c, s, id) && t.rows[id].status.Active?
    ensures DescribesAll(t.rows[id].manifest, ReposOf(t, t.rows[id].space))
    ensures c.enforceQuality ==> GoodManifest(t.rows[id].manifest)
    ensures t.active == s.active[t.rows[id].space := id]
  {
    assert BuildOk(s.builds[id]);
    assert Activates(c, s, id);
    ActivationIsGood(c, s, id);
  }

  /** In every reachable state a space has at most one active snapshot row, the one it names. */
  lemma OneActiveSnapshot(c: Config, es: seq<Event>, s: State)
    requires Possible(c, EMPTY, es) && s == Run(c, EMPTY, es)
    ensures forall id :: id in s.rows ==>
      (s.rows[id].status.Active? <==> s.rows[id].space in s.active && s.active[s.rows[id].space] == id)
    ensures forall space :: space in s.active ==> s.active[space] in s.rows && s.rows[s.active[space]].space == space
  {
    RunKeepsInv(c, EMPTY, es);
    forall space | space in s.active ensures IsActiveOf(s.rows, s.active[space], space) {}
  }

  /** In every reachable state the snapshot of a queued, pending or running turn exists and is not
      being pruned, and no step deletes or marks it. */
  lemma TurnInterlock(c: Config, es: seq<Event>, s: State, t: TurnId)
    requires Possible(c, EMPTY, es) && s == Run(c, EMPTY, es) && t in s.turns && s.turns[t].active
    ensures s.turns[t].snapshot in s.rows && !s.rows[s.turns[t].snapshot].status.Pruning?
    ensures s.turns[t].snapshot in s.artifacts
  {
    RunKeepsInv(c, EMPTY, es);
  }

  /** The guard `status = 'building'` of persistBuildingManifest never fails. */
  lemma ManifestUpdatesApply(c: Config, es: seq<Event>, s: State, id: SnapId)
    requires Possible(c, EMPTY, es) && s == Run(c, EMPTY, es) && Working(s, id)
    ensures s.rows[id].status.Building?
  {
    RunKeepsInv(c, EMPTY, es);
  }

  /** Versions within a space are pairwise distinct. */
  lemma VersionsAreUnique(c: Config, es: seq<Event>, s: State, a: SnapId, b: SnapId)
    requires Possible(c, EMPTY, es) && s == Run(c, EMPTY, es) && a in s.rows && b in s.rows && a != b
    ensures s.rows[a].space == s.rows[b].space ==> s.rows[a].version != s.rows[b].version
  {
    RunKeepsInv(c, EMPTY, es);
  }
}
