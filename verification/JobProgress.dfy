/** An acyclic job table never deadlocks: ticks make progress and the queue drains. */
module JobProgress {
  import opened Wrappers
  import opened Jobs
  import Safety = JobSafety
  import Cycles = JobCycles
  import Graph = JobGraph
  import opened JobWindows

  /** No deadlock: an idle scheduler over an acyclic table with a pending job can skip or start one,
      whoever made the calls. */
  lemma NoDeadlock(c: Config, s: State)
    requires Inv(c, s) && !Cycles.Cyclic(s.jobs) && s.inflight == {} && PendingJobs(s.jobs) != {}
    ensures (exists id :: Doomed(s.jobs, id)) || ((exists id :: CanStart(s.jobs, id)) && !Stuck(s.jobs))
  {
    Cycles.AcyclicReleases(s.jobs);
    Cycles.IdleMovesExactly(c, s);
  }

  // ---------- One tick ----------

  lemma {:induction false} LaunchesEndNothingPending(c: Config, s: State, ids: seq<JobId>, t: State, id: JobId)
    requires Launches(c, s, ids, t) && id in s.jobs
    ensures id in t.jobs && (id in ids ==> !t.jobs[id].status.Pending?)
    ensures !s.jobs[id].status.Pending? ==> !t.jobs[id].status.Pending?
    decreases |ids|
  {
    if ids != [] {
      Safety.StartableIsReady(s.jobs, ids[0]);
      LaunchesEndNothingPending(c, Launch(c, s, ids[0]), ids[1..], t, id);
    }
  }

  lemma NothingToSkip(jobs: Table)
    requires forall id :: !Doomed(jobs, id)
    ensures SkipDoomed(jobs) == jobs
  {}

  // Either the skip pass ends some pending job, or the first launch takes one.
  lemma TickSplits(c: Config, s: State, t: State) returns (mid: State, ids: seq<JobId>)
    requires TickEnds(c, s, t)
    ensures mid == s.(jobs := SkipDoomed(s.jobs)) && Launches(c, mid, ids, t)
    ensures |t.inflight| >= c.concurrency || Stuck(t.jobs)
  {
    mid := s.(jobs := SkipDoomed(s.jobs));
    ids :| Launches(c, mid, ids, t);
  }

  // With nothing to skip, the tick launches at least one ready job.
  lemma FirstLaunch(c: Config, s: State, mid: State, ids: seq<JobId>, t: State)
    requires mid == s.(jobs := SkipDoomed(s.jobs)) && Launches(c, mid, ids, t)
    requires s.inflight == {} && c.concurrency >= 1 && !Stuck(s.jobs) && forall id :: !Doomed(s.jobs, id)
    requires |t.inflight| >= c.concurrency || Stuck(t.jobs)
    ensures ids != [] && ids[0] in PendingJobs(s.jobs)
  {
    NothingToSkip(s.jobs);
    assert mid == s;
    if ids != [] { Safety.StartableIsReady(s.jobs, ids[0]); }
  }

  /** From an idle state with work left and room for one run, a single tick starts, fails or skips
      some pending job. */
  lemma TickAdvances(c: Config, s: State, t: State) returns (id: JobId)
    requires Inv(c, s) && !Cycles.Cyclic(s.jobs) && s.inflight == {} && c.concurrency >= 1
    requires PendingJobs(s.jobs) != {} && TickEnds(c, s, t)
    ensures id in PendingJobs(s.jobs) && id in t.jobs && !t.jobs[id].status.Pending?
  {
    NoDeadlock(c, s);
    var mid, ids := TickSplits(c, s, t);
    if victim :| Doomed(s.jobs, victim) {
      id := victim;
      assert !mid.jobs[id].status.Pending?;
    } else {
      FirstLaunch(c, s, mid, ids, t);
      id := ids[0];
    }
    LaunchesEndNothingPending(c, mid, ids, t, id);
  }

  // A tick only moves statuses.
  lemma {:induction false} LaunchesOnlyStatuses(c: Config, s: State, ids: seq<JobId>, t: State)
    requires Launches(c, s, ids, t)
    ensures Graph.OnlyStatuses(s.jobs, t.jobs)
    decreases |ids|
  {
    if ids != [] {
      Safety.StartableIsReady(s.jobs, ids[0]);
      Graph.LaunchOnlyStatuses(c, s, ids[0]);
      LaunchesOnlyStatuses(c, Launch(c, s, ids[0]), ids[1..], t);
    }
  }

  lemma TickOnlyStatuses(c: Config, s: State, t: State)
    requires TickEnds(c, s, t)
    ensures Graph.OnlyStatuses(s.jobs, t.jobs)
  {
    var mid := s.(jobs := SkipDoomed(s.jobs));
    var ids :| Launches(c, mid, ids, t);
    Graph.SweepOnlyStatuses(s.jobs);
    LaunchesOnlyStatuses(c, mid, ids, t);
  }

  // Launches one after the other are a run of launch events ...
  lemma {:induction false} LaunchesAreRuns(c: Config, s: State, ids: seq<JobId>, t: State) returns (es: seq<Event>)
    requires Launches(c, s, ids, t)
    ensures Possible(c, s, es) && Run(c, s, es) == t && Graph.PipelineRun(c, s, es)
    decreases |ids|
  {
    es := [];
    if ids != [] {
      var rest := LaunchesAreRuns(c, Launch(c, s, ids[0]), ids[1..], t);
      es := [ELaunch(ids[0])] + rest;
      assert es[1..] == rest;
    }
  }

  /** ... so one tick is a run of the state machine: what every run keeps, every tick keeps. */
  lemma TickIsRun(c: Config, s: State, t: State) returns (es: seq<Event>)
    requires TickEnds(c, s, t)
    ensures Possible(c, s, es) && Run(c, s, es) == t && Graph.PipelineRun(c, s, es)
  {
    var mid := s.(jobs := SkipDoomed(s.jobs));
    var ids :| Launches(c, mid, ids, t);
    var launches := LaunchesAreRuns(c, mid, ids, t);
    es := [ESkip] + launches;
    assert es[1..] == launches;
  }

  /** A tick taken in a reachable state ends in a reachable state. */
  lemma TickStaysReachable(c: Config, es: seq<Event>, t: State) returns (more: seq<Event>)
    requires Possible(c, EMPTY, es) && TickEnds(c, Run(c, EMPTY, es), t)
    ensures Possible(c, EMPTY, more) && Run(c, EMPTY, more) == t && es <= more
  {
    var tick := TickIsRun(c, Run(c, EMPTY, es), t);
    RunConcat(c, EMPTY, es, tick);
    more := es + tick;
  }

  // ---------- Draining ----------

  predicate Scheduling(e: Event) { e.ESkip? || e.ELaunch? || e.ESettle? || e.ERetire? }

  // Pending jobs weigh more than the running job and the open run they turn into.
  function Work(s: State): nat {
    3 * |PendingJobs(s.jobs)| + |s.controllers| + |s.inflight|
  }

  // An event of the scheduler itself that does something: a fruitful skip, a launch, a handler
  // settling or a run being finalised.
  ghost predicate Fruitful(c: Config, s: State, e: Event) {
    Scheduling(e) && Enabled(c, s, e) && (e.ESkip? ==> exists id :: Doomed(s.jobs, id))
  }

  lemma SkipReduces(jobs: Table)
    ensures PendingJobs(SkipDoomed(jobs)) <= PendingJobs(jobs)
    ensures (exists id :: Doomed(jobs, id)) ==> |PendingJobs(SkipDoomed(jobs))| < |PendingJobs(jobs)|
  {
    var after, before := PendingJobs(SkipDoomed(jobs)), PendingJobs(jobs);
    if id :| Doomed(jobs, id) {
      assert id in before && after <= before - {id};
      SubsetSize(after, before - {id});
    }
  }

  lemma LaunchReduces(c: Config, s: State, id: JobId)
    requires Bookkeeping(c, s) && id in s.jobs && s.jobs[id].status.Pending?
    ensures Work(Launch(c, s, id)) < Work(s)
  {
    var t := Launch(c, s, id);
    assert PendingJobs(t.jobs) == PendingJobs(s.jobs) - {id};
    assert |PendingJobs(s.jobs) - {id}| == |PendingJobs(s.jobs)| - 1;
    assert |s.inflight + {id}| == |s.inflight| + 1;
    if s.jobs[id].kind in c.handlers {
      assert t.controllers == s.controllers[id := false];
      assert |t.controllers| == |s.controllers| + 1;
    }
  }

  lemma SettleReduces(c: Config, s: State, id: JobId, o: Outcome)
    requires Inv(c, s) && id in s.controllers
    ensures Work(Settle(s, id, o)) < Work(s)
  {
    var t := Settle(s, id, o);
    assert t.controllers.Keys == s.controllers.Keys - {id};
    Safety.SettleAdvances(s, id, o);
    SubsetSize(PendingJobs(t.jobs), PendingJobs(s.jobs));
  }

  lemma FruitfulReduces(c: Config, s: State, e: Event)
    requires Inv(c, s) && Fruitful(c, s, e)
    ensures Work(Apply(c, s, e)) < Work(s)
  {
    match e
    case ESkip => SkipReduces(s.jobs);
    case ELaunch(id) => Safety.StartableIsReady(s.jobs, id); LaunchReduces(c, s, id);
    case ESettle(id, o) => SettleReduces(c, s, id, o);
    case ERetire(id) => assert |s.inflight - {id}| == |s.inflight| - 1;
  }

  ghost predicate Drain(c: Config, s: State, es: seq<Event>)
    decreases |es|
  {
    es == [] || (Fruitful(c, s, es[0]) && Drain(c, Apply(c, s, es[0]), es[1..]))
  }

  lemma SchedulingKeepsAcyclic(c: Config, s: State, e: Event)
    requires Enabled(c, s, e) && Scheduling(e) && !Cycles.Cyclic(s.jobs)
    ensures !Cycles.Cyclic(Apply(c, s, e).jobs)
  {
    Safety.RunnerEventsAdvance(c, s, e, Apply(c, s, e));
    Cycles.SameDepsSameLoops(s.jobs, Apply(c, s, e).jobs);
  }

  lemma {:induction false} DrainKeeps(c: Config, s: State, es: seq<Event>)
    requires Inv(c, s) && !Cycles.Cyclic(s.jobs) && Drain(c, s, es)
    ensures Possible(c, s, es) && Inv(c, Run(c, s, es)) && !Cycles.Cyclic(Run(c, s, es).jobs)
    decreases |es|
  {
    if es != [] {
      SchedulingKeepsAcyclic(c, s, es[0]);
      Safety.EventKeepsInv(c, s, es[0]);
      DrainKeeps(c, Apply(c, s, es[0]), es[1..]);
    }
  }

  /** With no new enqueues every schedule is at most Work(s) effective steps long. */
  lemma {:induction false} DrainIsBounded(c: Config, s: State, es: seq<Event>)
    requires Inv(c, s) && Drain(c, s, es)
    ensures |es| <= Work(s)
    decreases |es|
  {
    if es != [] {
      FruitfulReduces(c, s, es[0]);
      Safety.EventKeepsInv(c, s, es[0]);
      DrainIsBounded(c, Apply(c, s, es[0]), es[1..]);
    }
  }

  // A run in flight can settle, or be finalised once its handler has settled.
  lemma OpenRunIsFruitful(c: Config, s: State, id: JobId)
    requires id in s.inflight
    ensures Fruitful(c, s, if id in s.controllers then ESettle(id, Completed) else ERetire(id))
  {
  }

  lemma IdleIsFruitful(c: Config, s: State) returns (e: Event)
    requires Inv(c, s) && !Cycles.Cyclic(s.jobs) && c.concurrency >= 1
    requires s.inflight == {} && PendingJobs(s.jobs) != {}
    ensures Fruitful(c, s, e)
  {
    NoDeadlock(c, s);
    if exists k :: Doomed(s.jobs, k) {
      e := ESkip;
    } else {
      var k :| CanStart(s.jobs, k);
      e := ELaunch(k);
    }
  }

  lemma UnfinishedIsFruitful(c: Config, s: State, id: JobId) returns (e: Event)
    requires Inv(c, s) && !Cycles.Cyclic(s.jobs) && c.concurrency >= 1
    requires IsActive(s.jobs, id) || id in s.inflight
    ensures Fruitful(c, s, e)
  {
    if k :| k in s.inflight {
      OpenRunIsFruitful(c, s, k);
      e := if k in s.controllers then ESettle(k, Completed) else ERetire(k);
    } else {
      assert id in PendingJobs(s.jobs);
      e := IdleIsFruitful(c, s);
    }
  }

  /** ... and over an acyclic table no schedule is stuck before every job has reached a terminal status
      and every run has been finalised: some effective step is still possible. */
  lemma DrainContinues(c: Config, s: State, es: seq<Event>, id: JobId) returns (e: Event)
    requires Inv(c, s) && !Cycles.Cyclic(s.jobs) && c.concurrency >= 1 && Drain(c, s, es)
    requires Possible(c, s, es) && (IsActive(Run(c, s, es).jobs, id) || id in Run(c, s, es).inflight)
    ensures Fruitful(c, Run(c, s, es), e)
  {
    DrainKeeps(c, s, es);
    e := UnfinishedIsFruitful(c, Run(c, s, es), id);
  }

  /** After any run of pipeline calls every schedule can be continued until everything has ended. */
  lemma PipelineDrains(c: Config, calls: seq<Event>, es: seq<Event>, id: JobId) returns (e: Event)
    requires Graph.PipelineRun(c, EMPTY, calls) && c.concurrency >= 1
    requires Drain(c, Run(c, EMPTY, calls), es) && Possible(c, Run(c, EMPTY, calls), es)
    requires var s := Run(c, Run(c, EMPTY, calls), es); IsActive(s.jobs, id) || id in s.inflight
    ensures Fruitful(c, Run(c, Run(c, EMPTY, calls), es), e)
  {
    Graph.RunKeepsGraph(c, EMPTY, calls);
    Safety.RunKeepsInv(c, EMPTY, calls);
    Cycles.DisciplineIsAcyclic(Run(c, EMPTY, calls).jobs);
    e := DrainContinues(c, Run(c, EMPTY, calls), es, id);
  }
}
