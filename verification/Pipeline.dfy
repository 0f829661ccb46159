/** The enqueueing half of apps/api/src/services/operationsService.ts. */
module Pipeline {
  import opened Wrappers
  import opened Jobs
  import opened JobGraph
  import Safety = JobSafety
  import Progress = JobProgress
  import Runners = JobRunners

  // The columns of a space repository that the recovery path looks at.
  datatype RepositoryRow = RepositoryRow(id: string, cloned: bool, hasCommit: bool, indexed: bool)

  const CLONE := "clone_space_repository"
  const CHECKOUT := "checkout_space_repository"
  const INDEX := "index_space_repository"

  // What a job of a repository is to do: its type, and its payload besides the repository.
  datatype Work = Work(kind: string, body: string)

  const CLONING := Work(CLONE, "{}")
  const INDEXING := Work(INDEX, "{}")

  // A checkout reuses the fetch of a clone just before it.
  function CheckingOut(useExistingFetch: bool): Work {
    Work(CHECKOUT, if useExistingFetch then "{\"useExistingFetch\":true}" else "{\"useExistingFetch\":false}")
  }

  ghost predicate IsRepositoryJob(jobs: Table, id: JobId, work: Work, space: string, repo: string, deps: set<JobId>) {
    && id in jobs && jobs[id].kind == work.kind && jobs[id].payload == Payload(work.body, None)
    && jobs[id].space == Some(space) && jobs[id].repo == Some(repo) && jobs[id].deps == deps
  }

  ghost predicate Stage(jobs: Table, ids: seq<JobId>, works: seq<Work>, n: nat, space: string, repo: string)
    requires n < |ids| == |works|
  {
    IsRepositoryJob(jobs, ids[n], works[n], space, repo, if n == 0 then {} else {ids[n - 1]})
  }

  // A chain of jobs of one repository, each depending on exactly the one before it.
  ghost predicate Chain(jobs: Table, ids: seq<JobId>, works: seq<Work>, space: string, repo: string) {
    && |ids| == |works|
    && (forall n: nat :: n < |works| ==> works[n].kind in REPOSITORY_KINDS)
    && (forall n: nat :: n < |ids| ==> Stage(jobs, ids, works, n, space, repo))
  }

  lemma ChainSurvives(a: Table, b: Table, ids: seq<JobId>, works: seq<Work>, space: string, repo: string)
    requires Kept(a, b) && Chain(a, ids, works, space, repo)
    ensures Chain(b, ids, works, space, repo)
  {
    forall n: nat | n < |ids| ensures Stage(b, ids, works, n, space, repo) {
      assert Stage(a, ids, works, n, space, repo) && works[n].kind in REPOSITORY_KINDS;
    }
  }

  lemma ChainSnoc(jobs: Table, ids: seq<JobId>, works: seq<Work>, space: string, repo: string, id: JobId,
                  work: Work)
    requires Chain(jobs, ids, works, space, repo) && work.kind in REPOSITORY_KINDS
    requires IsRepositoryJob(jobs, id, work, space, repo, if ids == [] then {} else {ids[|ids| - 1]})
    ensures Chain(jobs, ids + [id], works + [work], space, repo)
  {
    forall n: nat | n < |ids + [id]| ensures Stage(jobs, ids + [id], works + [work], n, space, repo) {
      if n < |ids| { assert Stage(jobs, ids, works, n, space, repo); }
    }
  }

  // Extends, and repository columns stay too, and the payloads of all but rebuilds.
  ghost predicate Kept(a: Table, b: Table) { Extends(a, b) && KeepsRequests(a, b) }

  ghost predicate KeepsRequests(a: Table, b: Table) {
    forall id :: id in a ==>
      id in b && b[id].repo == a[id].repo && (a[id].kind == REBUILD || b[id].payload == a[id].payload)
  }

  lemma KeptTransitive(a: Table, b: Table, d: Table)
    requires Kept(a, b) && Kept(b, d)
    ensures Kept(a, d)
  {
    ExtendsTransitive(a, b, d);
    forall id | id in a
      ensures id in d && d[id].repo == a[id].repo && (a[id].kind == REBUILD || d[id].payload == a[id].payload)
    {
      assert id in b;
    }
  }

  ghost predicate IsRebuild(jobs: Table, id: JobId, space: string, payload: Payload, deps: set<JobId>) {
    && id in jobs && jobs[id].kind == REBUILD && jobs[id].space == Some(space) && jobs[id].payload == payload
    && jobs[id].deps == deps
  }

  // A rebuild of the space that waits for each of `ids`.
  ghost predicate WiredBehind(jobs: Table, id: JobId, space: string, payload: Payload, ids: seq<JobId>) {
    id in jobs && IsRebuild(jobs, id, space, payload, jobs[id].deps) && forall d :: d in ids ==> d in jobs[id].deps
  }

  class OperationsService {
    const runner: Runners.JobRunner
    const snapshotOnlyIndexing: bool

    constructor (runner: Runners.JobRunner, snapshotOnlyIndexing: bool)
      ensures this.runner == runner && this.snapshotOnlyIndexing == snapshotOnlyIndexing
    {
      this.runner := runner;
      this.snapshotOnlyIndexing := snapshotOnlyIndexing;
    }

    ghost predicate Valid()
      reads runner
    {
      runner.Valid() && Disciplined(runner.jobs)
    }

    // A tick that the call just made may have run.
    lemma AfterTick(mid: State)
      requires Inv(runner.config, mid) && Disciplined(mid.jobs) && runner.Requested(mid)
      ensures Disciplined(runner.jobs) && Kept(mid.jobs, runner.jobs) && OnlyStatuses(mid.jobs, runner.jobs)
    {
      if runner.View() != mid { Progress.TickOnlyStatuses(runner.config, mid, runner.View()); }
      StatusKeepsGraph(mid.jobs, runner.jobs);
    }

    // One jobs.enqueue of a repository job after an optional earlier repository job.
    method EnqueueRepositoryJob(work: Work, space: string, repo: string, after: Option<JobId>, now: int)
      returns (id: JobId)
      requires Valid() && work.kind in REPOSITORY_KINDS
      requires after.Some? ==> after.value in runner.jobs && runner.jobs[after.value].kind in REPOSITORY_KINDS
      modifies runner
      ensures Valid() && runner.deferTickDepth == old(runner.deferTickDepth) && Kept(old(runner.jobs), runner.jobs)
      ensures IsRepositoryJob(runner.jobs, id, work, space, repo, if after.Some? then {after.value} else {})
      ensures old(runner.deferTickDepth) > 0 ==> Active(runner.jobs[id].status)
    {
      var deps := if after.Some? then {after.value} else {};
      var i := Input(work.kind, Some(space), Some(repo), Payload(work.body, None), deps);
      ghost var before := runner.View();
      ghost var (mid, answer) := Jobs.Enqueue(before, i, now);
      EnqueueKeepsGraph(before, i, now);
      Safety.EnqueueKeepsInv(runner.config, before, i, now);
      Safety.EnqueueAnswers(runner.config, before, i, now);
      var r := runner.Enqueue(i, now);
      id := r.value;
      AfterTick(mid);
      assert KeyDescribes(mid.jobs[id]);
      KeptTransitive(before.jobs, mid.jobs, runner.jobs);
    }

    method EnqueueRepositoryPreparation(ghost start: Table, space: string, repo: string, now: int)
      returns (ids: seq<JobId>)
      requires Valid() && Kept(start, runner.jobs)
      modifies runner
      ensures Valid() && runner.deferTickDepth == old(runner.deferTickDepth) && Kept(start, runner.jobs)
      ensures Kept(old(runner.jobs), runner.jobs)
      ensures Chain(runner.jobs, ids, PreparationWorks(), space, repo)
      ensures PreparationWorks() ==
        [Work(CLONE, "{}"), Work(CHECKOUT, "{\"useExistingFetch\":true}")]
        + if snapshotOnlyIndexing then [] else [Work(INDEX, "{}")]
    {
      ghost var before := runner.jobs;
      StatusKeepsGraph(before, before);
      ids := ClonedChain(before, space, repo, now);
      if !snapshotOnlyIndexing {
        ids := ExtendChain(before, ids, [CLONING, CheckingOut(true)], INDEXING, space, repo, Some(ids[|ids| - 1]), now);
      } else {
        assert [CLONING, CheckingOut(true)] + [] == [CLONING, CheckingOut(true)];
      }
      KeptTransitive(start, before, runner.jobs);
    }

    // The clone and checkout stages of the preparation.
    method ClonedChain(ghost start: Table, space: string, repo: string, now: int) returns (ids: seq<JobId>)
      requires Valid() && Kept(start, runner.jobs)
      modifies runner
      ensures Valid() && runner.deferTickDepth == old(runner.deferTickDepth) && Kept(start, runner.jobs)
      ensures Chain(runner.jobs, ids, [CLONING, CheckingOut(true)], space, repo)
    {
      ids := ExtendChain(start, [], [], CLONING, space, repo, None, now);
      ids := ExtendChain(start, ids, [] + [CLONING], CheckingOut(true), space, repo, Some(ids[|ids| - 1]), now);
      assert [] + [CLONING] + [CheckingOut(true)] == [CLONING, CheckingOut(true)];
    }

    function PreparationWorks(): seq<Work> {
      [CLONING, CheckingOut(true)] + if snapshotOnlyIndexing then [] else [INDEXING]
    }

    // The stages a repository still needs, in order.
    predicate NeedsCheckout(row: RepositoryRow) { !row.cloned || !row.hasCommit }

    predicate NeedsIndex(row: RepositoryRow) { !snapshotOnlyIndexing && (NeedsCheckout(row) || !row.indexed) }

    function SourceWorks(row: RepositoryRow): seq<Work> {
      (if row.cloned then [] else [CLONING]) + (if NeedsCheckout(row) then [CheckingOut(!row.cloned)] else [])
    }

    function RecoveryWorks(row: RepositoryRow): seq<Work> {
      SourceWorks(row) + if NeedsIndex(row) then [INDEXING] else []
    }

    method EnqueueRepositoryRecovery(space: string, row: RepositoryRow, now: int) returns (ids: seq<JobId>)
      requires Valid()
      modifies runner
      ensures Valid() && runner.deferTickDepth == old(runner.deferTickDepth) && Kept(old(runner.jobs), runner.jobs)
      ensures Chain(runner.jobs, ids, RecoveryWorks(row), space, row.id)
      // a clone unless there is one, a checkout unless a commit of a clone is checked out, and an index unless
      // that commit is indexed or indexing is left to the snapshots
      ensures RecoveryWorks(row) ==
        (if !row.cloned then [Work(CLONE, "{}")] else [])
        + (if !row.cloned then [Work(CHECKOUT, "{\"useExistingFetch\":true}")]
           else if !row.hasCommit then [Work(CHECKOUT, "{\"useExistingFetch\":false}")]
           else [])
        + if snapshotOnlyIndexing || (row.cloned && row.hasCommit && row.indexed) then [] else [Work(INDEX, "{}")]
    {
      ghost var start := runner.jobs;
      var dependency: Option<JobId>;
      ids, dependency := EnqueueSourceRecovery(space, row, now);
      if !snapshotOnlyIndexing && (dependency.Some? || !row.indexed) {
        ids := ExtendChain(start, ids, SourceWorks(row), INDEXING, space, row.id, dependency, now);
      } else {
        assert SourceWorks(row) + [] == SourceWorks(row);
      }
    }

    // The clone and checkout stages; `dependency` is the last job enqueued.
    method EnqueueSourceRecovery(space: string, row: RepositoryRow, now: int)
      returns (ids: seq<JobId>, dependency: Option<JobId>)
      requires Valid()
      modifies runner
      ensures Valid() && runner.deferTickDepth == old(runner.deferTickDepth) && Kept(old(runner.jobs), runner.jobs)
      ensures Chain(runner.jobs, ids, SourceWorks(row), space, row.id)
      ensures dependency == (if ids == [] then None else Some(ids[|ids| - 1]))
      ensures dependency.Some? <==> NeedsCheckout(row)
    {
      ghost var start := runner.jobs;
      StatusKeepsGraph(start, start);
      ids, dependency := [], None;
      if !row.cloned {
        ids := ExtendChain(start, [], [], CLONING, space, row.id, None, now);
        assert [] + [CLONING] == [CLONING];
        dependency := Some(ids[|ids| - 1]);
      }
      ghost var works := if row.cloned then [] else [CLONING];
      if dependency.Some? || !row.hasCommit {
        var work := CheckingOut(dependency.Some?);
        ids := ExtendChain(start, ids, works, work, space, row.id, dependency, now);
        dependency := Some(ids[|ids| - 1]);
        assert works + [work] == SourceWorks(row);
      } else {
        assert works + [] == works;
      }
    }

    // Append one stage that waits for the last one.
    method ExtendChain(ghost start: Table, ids: seq<JobId>, ghost works: seq<Work>, work: Work, space: string,
                       repo: string, dependency: Option<JobId>, now: int)
      returns (longer: seq<JobId>)
      requires Valid() && work.kind in REPOSITORY_KINDS && Chain(runner.jobs, ids, works, space, repo)
      requires Kept(start, runner.jobs)
      requires dependency == if ids == [] then None else Some(ids[|ids| - 1])
      modifies runner
      ensures Valid() && runner.deferTickDepth == old(runner.deferTickDepth) && Kept(start, runner.jobs)
      ensures Chain(runner.jobs, longer, works + [work], space, repo) && longer != []
    {
      assert ids != [] ==> Stage(runner.jobs, ids, works, |ids| - 1, space, repo);
      var id := EnqueueRepositoryJob(work, space, repo, dependency, now);
      ChainSurvives(old(runner.jobs), runner.jobs, ids, works, space, repo);
      KeptTransitive(start, old(runner.jobs), runner.jobs);
      ChainSnoc(runner.jobs, ids, works, space, repo, id, work);
      longer := ids + [id];
    }

    // `payload` carries the fingerprint of the space's current repositories, a digest that is never blank.
    method EnqueueSnapshotRebuild(space: string, callerIds: set<JobId>, payload: Payload, now: int)
      returns (r: Result<JobId, Runners.JobError>)
      requires Valid() && IsStamped(payload) && NoRebuild(runner.jobs, callerIds)
      modifies runner
      ensures Valid() && runner.deferTickDepth == old(runner.deferTickDepth) && Kept(old(runner.jobs), runner.jobs)
      ensures var (mid, answer) := Coalesce(old(runner.View()),
                                            RebuildInput(old(runner.jobs), space, callerIds, payload), now);
        && (answer.Accepted? ==> r == Ok(answer.job) && runner.Requested(mid))
        && (answer.Rejected? ==> r.Err? && runner.View() == old(runner.View()))
      ensures callerIds <= old(runner.jobs).Keys ==> r.Ok?
      ensures r.Ok? ==> IsRebuild(runner.jobs, r.value, space, payload, Sinks(old(runner.jobs), space) + callerIds)
    {
      ghost var before := runner.View();
      var i := RebuildInput(runner.jobs, space, callerIds, payload);
      ghost var (mid, answer) := Coalesce(before, i, now);
      CoalesceKeepsGraph(before, i, now);
      Safety.CoalesceKeepsInv(runner.config, before, i, now);
      Safety.CoalesceAnswers(runner.config, before, i, now);
      CoalesceKeepsRepositories(before, i, now);
      NeverRejected(before.jobs, i);
      StatusKeepsGraph(runner.jobs, runner.jobs);
      r := runner.EnqueueCoalesced(i, payload.fingerprint.value, now);
      if answer.Accepted? {
        AfterTick(mid);
        KeptTransitive(before.jobs, mid.jobs, runner.jobs);
      }
    }

    // Outside a transaction: every enqueue may tick before the next one.
    method EnqueueCheckout(space: string, repo: string, body: string, payload: Payload, now: int)
      returns (ids: seq<JobId>, rebuild: JobId)
      requires Valid() && IsStamped(payload)
      modifies runner
      ensures Valid() && Kept(old(runner.jobs), runner.jobs)
      ensures Chain(runner.jobs, ids,
                    [Work(CHECKOUT, body)] + if snapshotOnlyIndexing then [] else [Work(INDEX, "{}")], space, repo)
      ensures WiredBehind(runner.jobs, rebuild, space, payload, [ids[|ids| - 1]])
    {
      ids := EnqueueCheckoutChain(space, repo, body, now);
      ghost var works := [Work(CHECKOUT, body)] + if snapshotOnlyIndexing then [] else [Work(INDEX, "{}")];
      ghost var chained := runner.jobs;
      assert Stage(chained, ids, works, |ids| - 1, space, repo);
      var r := EnqueueSnapshotRebuild(space, {ids[|ids| - 1]}, payload, now);
      rebuild := r.value;
      KeptTransitive(old(runner.jobs), chained, runner.jobs);
      ChainSurvives(chained, runner.jobs, ids, works, space, repo);
    }

    method EnqueueCheckoutChain(space: string, repo: string, body: string, now: int) returns (ids: seq<JobId>)
      requires Valid()
      modifies runner
      ensures Valid() && Kept(old(runner.jobs), runner.jobs)
      ensures Chain(runner.jobs, ids,
                    [Work(CHECKOUT, body)] + if snapshotOnlyIndexing then [] else [Work(INDEX, "{}")], space, repo)
    {
      ghost var start := runner.jobs;
      StatusKeepsGraph(start, start);
      var work := Work(CHECKOUT, body);
      ids := ExtendChain(start, [], [], work, space, repo, None, now);
      assert [] + [work] == [work] == [work] + [];
      if !snapshotOnlyIndexing {
        ids := ExtendChain(start, ids, [work], INDEXING, space, repo, Some(ids[|ids| - 1]), now);
      }
    }

    // The transaction of enqueueRepositorySet, once the repositories have their rows: prepare each
    // one, then wire one rebuild behind all of them.
    method EnqueueRepositorySet(space: string, repos: seq<string>, payload: Payload, now: int)
      returns (chains: seq<seq<JobId>>, rebuild: JobId)
      requires Valid() && IsStamped(payload) && runner.deferTickDepth == 0
      modifies runner
      ensures Valid() && runner.deferTickDepth == 0 && Kept(old(runner.jobs), runner.jobs)
      ensures Chains(runner.jobs, chains, PreparationWorks(), space, repos)
      ensures WiredBehind(runner.jobs, rebuild, space, payload, Lasts(chains))
    {
      ghost var start, works := runner.jobs, PreparationWorks();
      StatusKeepsGraph(start, start);
      assert Kept(start, start);
      runner.BeginAtomically();
      chains := PrepareAll(start, space, repos, now);
      ghost var prepared := runner.jobs;
      LastsAreOrdinary(prepared, chains, works, space, repos);
      rebuild := WireRebuild(space, Lasts(chains), payload, now);
      ChainsSurvive(prepared, runner.jobs, chains, works, space, repos);
      KeptTransitive(start, prepared, runner.jobs);
      ghost var wired := runner.View();
      runner.EndAtomically();
      AfterEnd(wired);
      ChainsSurvive(wired.jobs, runner.jobs, chains, works, space, repos);
      KeptTransitive(start, wired.jobs, runner.jobs);
    }

    method WireRebuild(space: string, terminals: seq<JobId>, payload: Payload, now: int) returns (rebuild: JobId)
      requires Valid() && IsStamped(payload) && runner.deferTickDepth > 0
      requires forall id :: id in terminals ==> id in runner.jobs && runner.jobs[id].kind != REBUILD
      modifies runner
      ensures Valid() && runner.deferTickDepth == old(runner.deferTickDepth) && Kept(old(runner.jobs), runner.jobs)
      ensures WiredBehind(runner.jobs, rebuild, space, payload, terminals)
    {
      var callerIds := set id | id in terminals;
      var r := EnqueueSnapshotRebuild(space, callerIds, payload, now);
      rebuild := r.value;
    }

    lemma AfterEnd(wired: State)
      requires Inv(runner.config, wired) && Disciplined(wired.jobs)
      requires runner.View() == wired || TickEnds(runner.config, wired, runner.View())
      ensures Disciplined(runner.jobs) && Kept(wired.jobs, runner.jobs) && OnlyStatuses(wired.jobs, runner.jobs)
    {
      if runner.View() != wired { Progress.TickOnlyStatuses(runner.config, wired, runner.View()); }
      StatusKeepsGraph(wired.jobs, runner.jobs);
    }

    method PrepareNext(ghost start: Table, chains: seq<seq<JobId>>, space: string, ghost prepared: seq<string>,
                       repo: string, now: int)
      returns (longer: seq<seq<JobId>>)
      requires Valid() && Kept(start, runner.jobs)
      requires Chains(runner.jobs, chains, PreparationWorks(), space, prepared)
      modifies runner
      ensures Valid() && runner.deferTickDepth == old(runner.deferTickDepth) && Kept(start, runner.jobs)
      ensures Chains(runner.jobs, longer, PreparationWorks(), space, prepared + [repo])
    {
      ghost var before := runner.jobs;
      var ids := EnqueueRepositoryPreparation(start, space, repo, now);
      ChainsSurvive(before, runner.jobs, chains, PreparationWorks(), space, prepared);
      ChainsSnoc(runner.jobs, chains, PreparationWorks(), space, prepared, ids, repo);
      longer := chains + [ids];
    }

    method PrepareAll(ghost start: Table, space: string, repos: seq<string>, now: int)
      returns (chains: seq<seq<JobId>>)
      requires Valid() && Kept(start, runner.jobs)
      modifies runner
      ensures Valid() && runner.deferTickDepth == old(runner.deferTickDepth) && Kept(start, runner.jobs)
      ensures Chains(runner.jobs, chains, PreparationWorks(), space, repos)
    {
      chains := [];
      var n := 0;
      while n < |repos|
        invariant n <= |repos| && Valid() && runner.deferTickDepth == old(runner.deferTickDepth)
        invariant Kept(start, runner.jobs) && Chains(runner.jobs, chains, PreparationWorks(), space, repos[..n])
      {
        chains := PrepareNext(start, chains, space, repos[..n], repos[n], now);
        assert repos[..n] + [repos[n]] == repos[..n + 1];
        n := n + 1;
      }
      assert repos[..n] == repos;
    }
  }

  // One chain for each repository, in order.
  ghost predicate Chains(jobs: Table, chains: seq<seq<JobId>>, works: seq<Work>, space: string, repos: seq<string>) {
    && works != [] && |chains| == |repos|
    && forall n :: 0 <= n < |chains| ==> chains[n] != [] && Chain(jobs, chains[n], works, space, repos[n])
  }

  lemma ChainsSnoc(jobs: Table, chains: seq<seq<JobId>>, works: seq<Work>, space: string, repos: seq<string>,
                   ids: seq<JobId>, repo: string)
    requires Chains(jobs, chains, works, space, repos) && Chain(jobs, ids, works, space, repo)
    ensures Chains(jobs, chains + [ids], works, space, repos + [repo])
  {}

  lemma ChainsSurvive(a: Table, b: Table, chains: seq<seq<JobId>>, works: seq<Work>, space: string,
                      repos: seq<string>)
    requires Kept(a, b) && Chains(a, chains, works, space, repos)
    ensures Chains(b, chains, works, space, repos)
  {
    forall n | 0 <= n < |chains| ensures Chain(b, chains[n], works, space, repos[n]) {
      ChainSurvives(a, b, chains[n], works, space, repos[n]);
    }
  }

  // The last job of each chain.
  function Lasts(chains: seq<seq<JobId>>): seq<JobId>
    requires forall n :: 0 <= n < |chains| ==> chains[n] != []
  {
    seq(|chains|, n requires 0 <= n < |chains| => chains[n][|chains[n]| - 1])
  }

  lemma LastsAreOrdinary(jobs: Table, chains: seq<seq<JobId>>, works: seq<Work>, space: string, repos: seq<string>)
    requires Chains(jobs, chains, works, space, repos)
    ensures forall id :: id in Lasts(chains) ==> id in jobs && jobs[id].kind != REBUILD
  {
    forall id | id in Lasts(chains) ensures id in jobs && jobs[id].kind != REBUILD {
      var n :| 0 <= n < |chains| && id == chains[n][|chains[n]| - 1];
      assert Stage(jobs, chains[n], works, |chains[n]| - 1, space, repos[n]);
    }
  }

  lemma CoalesceKeepsRepositories(s: State, i: Input, now: int)
    requires WellFormed(s)
    ensures i.kind == REBUILD ==> KeepsRequests(s.jobs, Coalesce(s, i, now).0.jobs)
  {}

  // A pipeline rebuild only names known jobs, and never itself.
  lemma NeverRejected(jobs: Table, i: Input)
    requires i.kind == REBUILD && NoRebuild(jobs, i.deps)
    ensures i.deps * PendingRivals(jobs, i) == {}
  {}
}
