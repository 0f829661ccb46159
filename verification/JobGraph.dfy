/**
 What the pipeline functions of apps/api/src/services/operationsService.ts guarantee about the job
 graph: it stays acyclic, so the scheduler always makes progress and drains, and a snapshot
 rebuild waits for every repository job that was active in its space when it was wired.
 */
module JobGraph {
  import opened Wrappers
  import opened Jobs
  import Safety = JobSafety

  const REBUILD := "rebuild_space_snapshot"
  const REPOSITORY_KINDS := {"clone_space_repository", "checkout_space_repository", "index_space_repository"}

  ghost predicate NoRebuild(jobs: Table, ids: set<JobId>) {
    forall d :: d in ids && d in jobs ==> jobs[d].kind != REBUILD
  }

  // The calls the pipeline makes: rebuilds are coalesced and space-wide, and nothing depends on one.
  ghost predicate PipelineEvent(s: State, e: Event) {
    match e
    case EEnqueue(i, _) => i.kind != REBUILD && NoRebuild(s.jobs, i.deps)
    case ECoalesce(i, _) => i.kind == REBUILD && i.repo.None? && NoRebuild(s.jobs, i.deps)
    case _ => true
  }

  ghost predicate PipelineRun(c: Config, s: State, es: seq<Event>)
    decreases |es|
  {
    && Possible(c, s, es)
    && (es != [] ==> PipelineEvent(s, es[0]) && PipelineRun(c, Apply(c, s, es[0]), es[1..]))
  }

  // Rebuild jobs are sources of the graph; every other job depends on earlier jobs only.
  ghost predicate Acyclic(jobs: Table) {
    forall id :: id in jobs ==>
      NoRebuild(jobs, jobs[id].deps) && (jobs[id].kind == REBUILD || forall d :: d in jobs[id].deps ==> d < id)
  }

  // Rebuilds name no repository, so a row's stored key names the repository of the row.
  ghost predicate RepositoryColumns(jobs: Table) {
    forall id :: id in jobs ==> jobs[id].key.repo == jobs[id].repo && (jobs[id].kind == REBUILD ==> jobs[id].repo.None?)
  }

  ghost predicate Disciplined(jobs: Table) { Acyclic(jobs) && RepositoryColumns(jobs) }

  // Kinds and non-rebuild dependencies never change, and rows never vanish.
  ghost predicate Extends(a: Table, b: Table) {
    forall id :: id in a ==>
      && id in b && b[id].kind == a[id].kind && b[id].space == a[id].space
      && (a[id].kind == REBUILD || b[id].deps == a[id].deps)
      && (a[id].status.Succeeded? ==> b[id].status.Succeeded?)
  }

  // Status updates leave the graph alone.
  lemma StatusKeepsGraph(a: Table, b: Table)
    requires Disciplined(a) && OnlyStatuses(a, b)
    ensures Disciplined(b) && Extends(a, b)
  {
    forall id | id in b
      ensures NoRebuild(b, b[id].deps) && (b[id].kind == REBUILD || forall d :: d in b[id].deps ==> d < id)
    {
      assert NoRebuild(a, a[id].deps);
    }
  }

  // Adding a row, or rewiring a rebuild row, keeps the order because no row depends on a rebuild.
  lemma WriteKeepsGraph(a: Table, id: JobId, job: Job)
    requires Disciplined(a) && (forall k :: k in a ==> a[k].deps <= a.Keys)
    requires NoRebuild(a, job.deps) && job.deps <= a.Keys && id !in job.deps
    requires job.kind == REBUILD || forall d :: d in job.deps ==> d < id
    requires job.key.repo == job.repo && (job.kind == REBUILD ==> job.repo.None?)
    requires id in a ==> a[id].kind == job.kind == REBUILD && job.space == a[id].space && !a[id].status.Succeeded?
    ensures Disciplined(a[id := job]) && Extends(a, a[id := job])
  {
    var b := a[id := job];
    forall k | k in b
      ensures NoRebuild(b, b[k].deps) && (b[k].kind == REBUILD || forall d :: d in b[k].deps ==> d < k)
    {
      assert k != id ==> NoRebuild(a, a[k].deps) && a[k].deps <= a.Keys;
    }
  }

  lemma InsertKeepsGraph(s: State, i: Input, now: int)
    requires WellFormed(s) && Disciplined(s.jobs) && NoRebuild(s.jobs, i.deps) && i.deps <= s.jobs.Keys
    requires i.kind == REBUILD ==> i.repo.None?
    ensures Disciplined(Insert(s, i, now).jobs) && Extends(s.jobs, Insert(s, i, now).jobs)
  {
    WriteKeepsGraph(s.jobs, s.nextId, NewJob(i, now));
  }

  lemma CoalesceKeepsGraph(s: State, i: Input, now: int)
    requires WellFormed(s) && Disciplined(s.jobs) && i.kind == REBUILD && i.repo.None? && NoRebuild(s.jobs, i.deps)
    ensures Disciplined(Coalesce(s, i, now).0.jobs) && Extends(s.jobs, Coalesce(s, i, now).0.jobs)
  {
    var matches, waiting := Matches(s.jobs, i), PendingRivals(s.jobs, i);
    if matches != {} {
      if s.jobs[First(s.jobs, matches)].status.Running? && waiting != {} {
        StatusKeepsGraph(s.jobs, WithStatus(s.jobs, First(s.jobs, waiting), Cancelled));
      } else {
        StatusKeepsGraph(s.jobs, s.jobs);
      }
    } else if waiting != {} {
      var id := First(s.jobs, waiting);
      if i.deps <= s.jobs.Keys && id !in i.deps {
        WriteKeepsGraph(s.jobs, id, Rewire(s.jobs[id], i));
      } else {
        StatusKeepsGraph(s.jobs, s.jobs);
      }
    } else if i.deps <= s.jobs.Keys {
      InsertKeepsGraph(s, i, now);
    } else {
      StatusKeepsGraph(s.jobs, s.jobs);
    }
  }

  lemma EnqueueKeepsGraph(s: State, i: Input, now: int)
    requires WellFormed(s) && Disciplined(s.jobs) && NoRebuild(s.jobs, i.deps) && (i.kind == REBUILD ==> i.repo.None?)
    ensures Disciplined(Enqueue(s, i, now).0.jobs) && Extends(s.jobs, Enqueue(s, i, now).0.jobs)
  {
    var t := Enqueue(s, i, now).0;
    if t == s {
      StatusKeepsGraph(s.jobs, s.jobs);
    } else {
      InsertKeepsGraph(s, i, now);
    }
  }

  // Every other event only moves statuses, and never moves one away from Succeeded.
  ghost predicate OnlyStatuses(a: Table, b: Table) {
    Safety.SameRows(a, b) && forall id :: id in a && a[id].status.Succeeded? ==> b[id].status.Succeeded?
  }

  lemma SettleOnlyStatuses(c: Config, s: State, id: JobId, o: Outcome)
    requires Bookkeeping(c, s) && id in s.controllers
    ensures OnlyStatuses(s.jobs, Settle(s, id, o).jobs)
  {
    assert s.jobs[id].status.Running?;
  }

  lemma LaunchOnlyStatuses(c: Config, s: State, id: JobId)
    requires id in s.jobs && s.jobs[id].status.Pending?
    ensures OnlyStatuses(s.jobs, Launch(c, s, id).jobs)
  {}

  lemma SweepOnlyStatuses(jobs: Table)
    ensures OnlyStatuses(jobs, SkipDoomed(jobs)) && OnlyStatuses(jobs, FailRunning(jobs))
  {}

  lemma CancelOnlyStatuses(s: State, id: JobId)
    ensures OnlyStatuses(s.jobs, Cancel(s, id).jobs)
  {
    if id in s.jobs && s.jobs[id].status.Pending? {
      var ended := WithStatus(s.jobs, id, Cancelled);
      SweepOnlyStatuses(ended);
      assert Cancel(s, id).jobs == SkipDoomed(ended);
      assert OnlyStatuses(s.jobs, ended);
    } else {
      assert Cancel(s, id).jobs == s.jobs;
    }
  }

  lemma EventKeepsGraph(c: Config, s: State, e: Event)
    requires Inv(c, s) && Disciplined(s.jobs) && Enabled(c, s, e) && PipelineEvent(s, e)
    ensures Disciplined(Apply(c, s, e).jobs) && Extends(s.jobs, Apply(c, s, e).jobs)
  {
    match e
    case EEnqueue(i, now) => EnqueueKeepsGraph(s, i, now);
    case ECoalesce(i, now) => CoalesceKeepsGraph(s, i, now);
    case ERetry(id, now) => EnqueueKeepsGraph(s, RetryInput(s.jobs[id]), now);
    case ELaunch(id) =>
      Safety.StartableIsReady(s.jobs, id);
      LaunchOnlyStatuses(c, s, id);
      StatusKeepsGraph(s.jobs, Launch(c, s, id).jobs);
    case ESettle(id, o) =>
      SettleOnlyStatuses(c, s, id, o);
      StatusKeepsGraph(s.jobs, Settle(s, id, o).jobs);
    case ERetire(id) => StatusKeepsGraph(s.jobs, s.jobs);
    case ESkip => SweepOnlyStatuses(s.jobs); StatusKeepsGraph(s.jobs, SkipDoomed(s.jobs));
    case ECancel(id) => CancelOnlyStatuses(s, id); StatusKeepsGraph(s.jobs, Cancel(s, id).jobs);
    case ERestart => SweepOnlyStatuses(s.jobs); StatusKeepsGraph(s.jobs, FailRunning(s.jobs));
  }

  lemma ExtendsTransitive(a: Table, b: Table, d: Table)
    requires Extends(a, b) && Extends(b, d)
    ensures Extends(a, d)
  {
    forall id | id in a
      ensures id in d && d[id].kind == a[id].kind && d[id].space == a[id].space
      ensures a[id].kind == REBUILD || d[id].deps == a[id].deps
      ensures a[id].status.Succeeded? ==> d[id].status.Succeeded?
    {
      assert id in b;
    }
  }

  lemma {:induction false} RunKeepsGraph(c: Config, s: State, es: seq<Event>)
    requires Inv(c, s) && Disciplined(s.jobs) && PipelineRun(c, s, es)
    ensures Inv(c, Run(c, s, es)) && Disciplined(Run(c, s, es).jobs) && Extends(s.jobs, Run(c, s, es).jobs)
    decreases |es|
  {
    if es == [] {
      StatusKeepsGraph(s.jobs, s.jobs);
    } else {
      var next := Apply(c, s, es[0]);
      EventKeepsGraph(c, s, es[0]);
      Safety.EventKeepsInv(c, s, es[0]);
      RunKeepsGraph(c, next, es[1..]);
      ExtendsTransitive(s.jobs, next.jobs, Run(c, s, es).jobs);
    }
  }

  // ---------- Coverage of a rebuild ----------

  predicate RepositoryJob(jobs: Table, id: JobId, space: string) {
    IsActive(jobs, id) && jobs[id].space == Some(space) && jobs[id].kind in REPOSITORY_KINDS
  }

  function RepositoryJobs(jobs: Table, space: string): set<JobId> {
    set id | id in jobs && RepositoryJob(jobs, id, space)
  }

  // The query of enqueueSnapshotRebuild: active repository jobs no active repository job depends on.
  function Sinks(jobs: Table, space: string): set<JobId> {
    set id | id in RepositoryJobs(jobs, space) &&
      !exists k :: k in RepositoryJobs(jobs, space) && id in jobs[k].deps
  }

  // `path` follows dependency edges from its first job to its last.
  ghost predicate Path(jobs: Table, path: seq<JobId>) {
    && path != []
    && (forall n :: 0 <= n < |path| ==> path[n] in jobs)
    && (forall n :: 0 <= n < |path| - 1 ==> path[n + 1] in jobs[path[n]].deps)
  }

  ghost predicate Reaches(jobs: Table, from: JobId, to: JobId) {
    exists path :: Path(jobs, path) && path[0] == from && path[|path| - 1] == to
  }

  lemma ExtendPath(jobs: Table, from: JobId, mid: JobId, to: JobId)
    requires Reaches(jobs, from, mid) && mid in jobs && to in jobs && to in jobs[mid].deps
    ensures Reaches(jobs, from, to)
  {
    var path :| Path(jobs, path) && path[0] == from && path[|path| - 1] == mid;
    var longer := path + [to];
    assert Path(jobs, longer) && longer[0] == from && longer[|longer| - 1] == to;
  }

  /** The sinks transitively cover every active repository job of the space. */
  lemma {:induction false} SinksCover(jobs: Table, space: string, id: JobId, bound: nat)
    requires Disciplined(jobs) && RepositoryJob(jobs, id, space) && forall k :: k in jobs ==> k <= bound
    ensures exists sink :: sink in Sinks(jobs, space) && Reaches(jobs, sink, id)
    decreases bound - id
  {
    assert id in RepositoryJobs(jobs, space);
    if k :| k in RepositoryJobs(jobs, space) && id in jobs[k].deps {
      SinksCover(jobs, space, k, bound);
      var sink :| sink in Sinks(jobs, space) && Reaches(jobs, sink, k);
      ExtendPath(jobs, sink, k, id);
    } else {
      var path := [id];
      assert Path(jobs, path) && path[0] == id && path[|path| - 1] == id;
      assert Reaches(jobs, id, id);
    }
  }

  /** No sink is waited for by an active repository job of the space, and every job that none waits for is one. */
  lemma SinksAreLast(jobs: Table, space: string, id: JobId)
    ensures id in Sinks(jobs, space) <==>
      RepositoryJob(jobs, id, space) && forall k :: RepositoryJob(jobs, k, space) ==> id !in jobs[k].deps
  {
    assert forall k :: RepositoryJob(jobs, k, space) <==> k in RepositoryJobs(jobs, space);
  }

  // ---------- A rebuild waits ----------

  // Paths out of repository jobs survive every later event.
  lemma {:induction false} PathSurvives(a: Table, b: Table, path: seq<JobId>, n: nat)
    requires Disciplined(a) && Extends(a, b) && Path(a, path) && a[path[0]].kind != REBUILD && n < |path|
    ensures a[path[n]].kind != REBUILD && (n > 0 ==> path[n] in b[path[n - 1]].deps)
  {
    if n > 0 {
      PathSurvives(a, b, path, n - 1);
      assert path[n] in a[path[n - 1]].deps;
      assert NoRebuild(a, a[path[n - 1]].deps);
    }
  }

  lemma ReachSurvives(a: Table, b: Table, from: JobId, to: JobId)
    requires Disciplined(a) && Extends(a, b) && Reaches(a, from, to) && from in a && a[from].kind != REBUILD
    ensures Reaches(b, from, to)
  {
    var path :| Path(a, path) && path[0] == from && path[|path| - 1] == to;
    forall n | 0 <= n < |path| - 1 ensures path[n + 1] in b[path[n]].deps {
      PathSurvives(a, b, path, n + 1);
    }
    assert Path(b, path);
  }

  // Success propagates backwards along dependency edges.
  lemma {:induction false} PathSucceeds(jobs: Table, path: seq<JobId>, n: nat)
    requires DependenciesDone(jobs) && Path(jobs, path) && jobs[path[0]].status.Succeeded? && n < |path|
    ensures jobs[path[n]].status.Succeeded?
  {
    if n > 0 {
      PathSucceeds(jobs, path, n - 1);
      assert AllSucceeded(jobs, jobs[path[n - 1]].deps);
      assert HasStatus(jobs, path[n], Succeeded);
    }
  }

  // Once the sinks of `a` have succeeded in a later table, so has everything they cover.
  lemma CoveredSucceeds(a: Table, b: Table, space: string, id: JobId, bound: nat)
    requires Disciplined(a) && Extends(a, b) && DependenciesDone(b) && (forall k :: k in a ==> k <= bound)
    requires AllSucceeded(b, Sinks(a, space)) && RepositoryJob(a, id, space)
    ensures HasStatus(b, id, Succeeded)
  {
    SinksCover(a, space, id, bound);
    var sink :| sink in Sinks(a, space) && Reaches(a, sink, id);
    ReachSurvives(a, b, sink, id);
    assert HasStatus(b, sink, Succeeded);
    var path :| Path(b, path) && path[0] == sink && path[|path| - 1] == id;
    PathSucceeds(b, path, |path| - 1);
  }

  function RebuildInput(jobs: Table, space: string, callerIds: set<JobId>, payload: Payload): Input {
    Input(REBUILD, Some(space), None, payload, Sinks(jobs, space) + callerIds)
  }

  // Sinks are clone, checkout or index jobs.
  lemma WiringNamesNoRebuild(jobs: Table, space: string, callerIds: set<JobId>)
    requires NoRebuild(jobs, callerIds)
    ensures NoRebuild(jobs, Sinks(jobs, space) + callerIds)
  {
    forall d | d in Sinks(jobs, space) + callerIds && d in jobs ensures jobs[d].kind != REBUILD {
      if d in Sinks(jobs, space) { assert RepositoryJob(jobs, d, space); }
    }
  }

  // The wiring itself leaves a table in order.
  lemma RebuildWires(c: Config, s: State, i: Input, now: int, t: State, a: Answer)
    requires Inv(c, s) && Disciplined(s.jobs) && i.kind == REBUILD && i.repo.None? && NoRebuild(s.jobs, i.deps)
    requires (t, a) == Coalesce(s, i, now) && a.Accepted?
    ensures Inv(c, t) && Disciplined(t.jobs) && Extends(s.jobs, t.jobs)
  {
    CoalesceKeepsGraph(s, i, now);
    Safety.CoalesceKeepsInv(c, s, i, now);
  }

  // A rebuild that starts with the sinks of an earlier table among its dependencies.
  lemma LateStart(c: Config, before: Table, bound: nat, t: State, es: seq<Event>, job: JobId, space: string, id: JobId)
    requires Inv(c, t) && Disciplined(before) && Disciplined(t.jobs) && Extends(before, t.jobs)
    requires PipelineRun(c, t, es) && (forall k :: k in before ==> k <= bound)
    requires job in Run(c, t, es).jobs && Started(Run(c, t, es).jobs[job].status)
    requires Sinks(before, space) <= Run(c, t, es).jobs[job].deps && RepositoryJob(before, id, space)
    ensures HasStatus(Run(c, t, es).jobs, id, Succeeded)
  {
    RunKeepsGraph(c, t, es);
    var u := Run(c, t, es);
    ExtendsTransitive(before, t.jobs, u.jobs);
    assert AllSucceeded(u.jobs, u.jobs[job].deps);
    CoveredSucceeds(before, u.jobs, space, id, bound);
  }

  /** Wire a rebuild in `s`; whenever it is started in a later state without having been rewired to
      other dependencies, every repository job that was active in the space at the wiring has
      succeeded. */
  lemma RebuildWaits(c: Config, s: State, space: string, callerIds: set<JobId>, payload: Payload, now: int,
                     t: State, a: Answer, es: seq<Event>, id: JobId)
    requires Inv(c, s) && Disciplined(s.jobs) && NoRebuild(s.jobs, callerIds)
    requires (t, a) == Coalesce(s, RebuildInput(s.jobs, space, callerIds, payload), now) && a.Accepted?
    requires PipelineRun(c, t, es) && a.job in Run(c, t, es).jobs
    requires Run(c, t, es).jobs[a.job].deps == Sinks(s.jobs, space) + callerIds
    requires Started(Run(c, t, es).jobs[a.job].status)
    requires RepositoryJob(s.jobs, id, space)
    ensures HasStatus(Run(c, t, es).jobs, id, Succeeded)
  {
    var i := RebuildInput(s.jobs, space, callerIds, payload);
    WiringNamesNoRebuild(s.jobs, space, callerIds);
    RebuildWires(c, s, i, now, t, a);
    LateStart(c, s.jobs, s.nextId, t, es, a.job, space, id);
  }
}
