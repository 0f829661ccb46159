/** The JobRunner class of apps/api/src/services/jobRunner.ts, over the tables of module Jobs. */
module JobRunners {
  import opened Wrappers
  import opened Jobs
  import Safety = JobSafety
  import Texts
  import Windows = JobWindows

  datatype JobError = NotFound | Conflict | EmptyFingerprint | Constraint

  lemma {:induction false} LaunchesSnoc(c: Config, s: State, ids: seq<JobId>, t: State, id: JobId)
    requires Launches(c, s, ids, t) && Enabled(c, t, ELaunch(id))
    ensures Launches(c, s, ids + [id], Launch(c, t, id))
    decreases |ids|
  {
    if ids != [] {
      assert (ids + [id])[0] == ids[0] && (ids + [id])[1..] == ids[1..] + [id];
      LaunchesSnoc(c, Launch(c, s, ids[0]), ids[1..], t, id);
    }
  }

  ghost function Elems(rows: seq<JobId>): set<JobId> { set id | id in rows }

  ghost predicate Listed(jobs: Table, ready: set<JobId>, rows: seq<JobId>)
    requires ready <= jobs.Keys
  {
    && Elems(rows) <= ready && |Elems(rows)| == |rows|
    && (forall n :: 0 <= n < |rows| ==> rows[n] in jobs)
    && Windows.Prefix(jobs, ready, Elems(rows))
    && forall n, m :: 0 <= n < m < |rows| ==> jobs[rows[n]].createdAt <= jobs[rows[m]].createdAt
  }

  lemma ListedSnoc(jobs: Table, ready: set<JobId>, rows: seq<JobId>, id: JobId)
    requires ready <= jobs.Keys && Listed(jobs, ready, rows) && Windows.Oldest(jobs, ready - Elems(rows), id)
    ensures Listed(jobs, ready, rows + [id]) && Elems(rows + [id]) == Elems(rows) + {id}
  {
    assert Elems(rows + [id]) == Elems(rows) + {id};
    assert |Elems(rows) + {id}| == |rows| + 1;
    forall n | 0 <= n < |rows| ensures jobs[rows[n]].createdAt <= jobs[id].createdAt {
      assert rows[n] in Elems(rows);
    }
  }

  lemma ListedNone(jobs: Table, ready: set<JobId>)
    requires ready <= jobs.Keys
    ensures Listed(jobs, ready, []) && ready - Elems([]) == ready
  {}

  lemma RestShrinks(ready: set<JobId>, rows: seq<JobId>, id: JobId, rest: set<JobId>)
    requires rest == ready - Elems(rows) && id in rest && Elems(rows + [id]) == Elems(rows) + {id}
    ensures rest - {id} == ready - Elems(rows + [id]) && |rest - {id}| == |rest| - 1
  {}

  // Exactly the pending jobs with a failed, skipped or cancelled dependency become skipped.
  ghost predicate Skipping(before: Table, after: Table) {
    after.Keys == before.Keys && forall id :: id in before ==>
      if before[id].status.Pending? && DeadBehind(before, before[id].deps)
      then after[id] == before[id].(status := Skipped) else after[id] == before[id]
  }

  ghost predicate DeadBehind(jobs: Table, deps: set<JobId>) {
    exists d :: d in deps && d in jobs && jobs[d].status in {Failed, Skipped, Cancelled}
  }

  // A completion that was not aborted succeeds, an abort or an abort-like error cancels and skips the direct
  // dependents, and any other error fails.
  ghost predicate Ended(before: Table, after: Table, aborted: bool, id: JobId, o: Outcome) {
    && id in before && id in after && after[id] == before[id].(status := after[id].status)
    && (after[id].status.Succeeded? <==> o.Completed? && !aborted)
    && (after[id].status.Failed? <==> o == Threw(false) && !aborted)
    && (after[id].status.Cancelled? <==> o == Threw(true) || aborted)
    && (if after[id].status.Cancelled? then Skipping(before[id := after[id]], after)
        else after == before[id := after[id]])
  }

  class JobRunner {
    const config: Config
    // database rows
    var jobs: Table
    var nextId: JobId
    // in-memory fields
    var controllers: map<JobId, bool>
    var activeJobs: int
    var deferTickDepth: int
    var tickRequested: bool
    var recoveredRunningJobs: bool
    // which runs `activeJobs` counts
    ghost var inflight: set<JobId>

    ghost function View(): State
      reads this
    {
      State(jobs, nextId, inflight, controllers)
    }

    ghost predicate Valid()
      reads this
    {
      Inv(config, View()) && activeJobs == |inflight|
    }

    // A new process over an existing database: start() recovers before its first tick.
    constructor Start(config: Config, jobs: Table, nextId: JobId, ghost before: State)
      requires Inv(config, before) && before.jobs == jobs && before.nextId == nextId
      ensures this.config == config && Valid() && TickEnds(config, Restart(before), View())
    {
      this.config := config;
      this.jobs, this.nextId := jobs, nextId;
      controllers, activeJobs, inflight := map[], 0, {};
      deferTickDepth, tickRequested, recoveredRunningJobs := 0, false, false;
      new;
      var _ := RecoverRunningJobs();
      Safety.RestartKeepsInv(config, before);
      assert View() == Restart(before);
      Tick();
    }

    method RecoverRunningJobs() returns (count: nat)
      modifies `jobs, `recoveredRunningJobs
      ensures recoveredRunningJobs
      ensures old(recoveredRunningJobs) ==> count == 0 && jobs == old(jobs)
      ensures !old(recoveredRunningJobs) ==> jobs == FailRunning(old(jobs)) && count == |Safety.RunningJobs(old(jobs))|
      ensures !old(recoveredRunningJobs) ==> jobs.Keys == old(jobs).Keys && forall id :: id in jobs ==>
        jobs[id] == old(jobs)[id].(status := if old(jobs)[id].status.Running? then Failed else old(jobs)[id].status)
    {
      if recoveredRunningJobs { return 0; }
      recoveredRunningJobs := true;
      var running := set id | id in jobs && jobs[id].status.Running?;
      assert running == Safety.RunningJobs(jobs);
      count := |running|;
      var todo := running;
      while todo != {}
        invariant recoveredRunningJobs && todo <= running && jobs.Keys == old(jobs).Keys
        invariant forall id :: id in jobs ==>
          jobs[id] == if id in running - todo then old(jobs)[id].(status := Failed) else old(jobs)[id]
        decreases todo
      {
        var id :| id in todo;
        jobs := WithStatus(jobs, id, Failed);
        todo := todo - {id};
      }
    }

    method SkipBlockedDependents()
      modifies `jobs
      ensures jobs == SkipDoomed(old(jobs))
      ensures Skipping(old(jobs), jobs)
    {
      var blocked := set id | id in jobs && Doomed(jobs, id);
      var todo := blocked;
      while todo != {}
        invariant todo <= blocked && jobs.Keys == old(jobs).Keys
        invariant forall id :: id in jobs ==>
          jobs[id] == if id in blocked - todo then old(jobs)[id].(status := Skipped) else old(jobs)[id]
        decreases todo
      {
        var id :| id in todo;
        jobs := WithStatus(jobs, id, Skipped);
        todo := todo - {id};
      }
    }

    // The row the query would list next: the oldest of those not listed yet.
    method OldestOf(ids: set<JobId>) returns (oldest: JobId)
      requires ids != {} && ids <= jobs.Keys
      ensures Windows.Oldest(jobs, ids, oldest)
    {
      oldest :| oldest in ids;
      var todo := ids - {oldest};
      while todo != {}
        invariant todo <= ids && oldest in ids
        invariant forall k :: k in ids - todo ==> jobs[oldest].createdAt <= jobs[k].createdAt
        decreases todo
      {
        var k :| k in todo;
        if jobs[k].createdAt < jobs[oldest].createdAt { oldest := k; }
        todo := todo - {k};
      }
    }

    // ORDER BY created_at LIMIT n over the rows `ready`.
    method OldestFirst(ready: set<JobId>, limit: nat) returns (rows: seq<JobId>)
      requires ready <= jobs.Keys
      ensures Listed(jobs, ready, rows) && |rows| == if |ready| < limit then |ready| else limit
    {
      rows := [];
      var rest := ready;
      ListedNone(jobs, ready);
      while rest != {} && |rows| < limit
        invariant Listed(jobs, ready, rows) && rest == ready - Elems(rows) && |rows| + |rest| == |ready|
        invariant |rows| <= limit
        decreases rest
      {
        var id := OldestOf(rest);
        ListedSnoc(jobs, ready, rows, id);
        RestShrinks(ready, rows, id, rest);
        rows, rest := rows + [id], rest - {id};
      }
    }

    method NextRunnableJob() returns (next: Option<JobId>)
      ensures next.Some? ==> CanStart(jobs, next.value)
      ensures next.None? ==> Stuck(jobs)
      // ready and unblocked, with fewer than 20 older ready jobs, all of them blocked
      ensures next.Some? ==> Windows.IsNext(jobs, next.value)
      ensures next.None? ==> forall id :: Ready(jobs, id) && !Blocked(jobs, id) ==>
        |Windows.BlockedAhead(jobs, id)| >= 20
    {
      var candidates := OldestFirst(ReadySet(jobs), CANDIDATE_LIMIT);
      ghost var listed := Elems(candidates);
      assert Window(jobs, listed);
      var n := 0;
      while n < |candidates|
        invariant n <= |candidates|
        invariant forall m :: 0 <= m < n ==> Blocked(jobs, candidates[m])
      {
        if !Blocked(jobs, candidates[n]) {
          assert FirstUnblocked(jobs, listed, candidates[n]);
          Windows.CanStartExactly(jobs, candidates[n]);
          return Some(candidates[n]);
        }
        n := n + 1;
      }
      assert AllBlocked(jobs, listed);
      Windows.StuckExactly(jobs);
      return None;
    }

    // The synchronous head of run(): up to the await of the handler, or the missing-handler failure.
    method StartRun(id: JobId)
      requires Valid() && activeJobs < config.concurrency && Ready(jobs, id) && !Blocked(jobs, id)
      modifies `jobs, `controllers, `activeJobs, `inflight
      ensures Valid() && View() == Launch(config, old(View()), id)
      ensures activeJobs == old(activeJobs) + 1
      ensures jobs == old(jobs)[id := old(jobs)[id].(status := if id in controllers then Running else Failed)]
      ensures id in controllers <==> old(jobs)[id].kind in config.handlers
      ensures id in controllers ==> !controllers[id]
    {
      Safety.LaunchKeepsInv(config, View(), id);
      assert id !in inflight && |inflight + {id}| == |inflight| + 1;
      StartRunRows(id);
    }

    method StartRunRows(id: JobId)
      requires id in jobs
      modifies `jobs, `controllers, `activeJobs, `inflight
      ensures View() == Launch(config, old(View()), id) && activeJobs == old(activeJobs) + 1
    {
      activeJobs := activeJobs + 1;
      inflight := inflight + {id};
      if jobs[id].kind !in config.handlers {
        jobs := WithStatus(jobs, id, Failed);
        return;
      }
      controllers := controllers[id := false];
      jobs := WithStatus(jobs, id, Running);
    }

    method Tick()
      requires Valid()
      modifies `jobs, `controllers, `activeJobs, `inflight
      ensures Valid() && TickEnds(config, old(View()), View())
    {
      Safety.EventKeepsInv(config, View(), ESkip);
      SkipBlockedDependents();
      ghost var start := View();
      ghost var ids: seq<JobId> := [];
      while activeJobs < config.concurrency
        invariant Valid() && nextId == old(nextId) && Launches(config, start, ids, View())
        decreases config.concurrency - activeJobs
      {
        var next := NextRunnableJob();
        if next.None? { return; }
        LaunchesSnoc(config, start, ids, View(), next.value);
        ids := ids + [next.value];
        Safety.StartableIsReady(jobs, next.value);
        StartRun(next.value);
      }
    }

    // What requestTick does to the tables: nothing while ticks are deferred, one tick otherwise.
    ghost predicate Requested(before: State)
      reads this
    {
      if deferTickDepth > 0 then View() == before && tickRequested else TickEnds(config, before, View())
    }

    method RequestTick()
      requires Valid()
      modifies `jobs, `controllers, `activeJobs, `inflight, `tickRequested
      ensures Valid() && Requested(old(View()))
      ensures deferTickDepth == 0 ==> tickRequested == old(tickRequested)
    {
      if deferTickDepth > 0 {
        tickRequested := true;
        return;
      }
      Tick();
    }

    // runAtomically, split where the operation runs.
    method BeginAtomically()
      modifies `deferTickDepth
      ensures deferTickDepth == old(deferTickDepth) + 1
    {
      deferTickDepth := deferTickDepth + 1;
    }

    method EndAtomically()
      requires Valid()
      modifies `jobs, `controllers, `activeJobs, `inflight, `tickRequested, `deferTickDepth
      ensures Valid() && deferTickDepth == Max(0, old(deferTickDepth) - 1)
      ensures deferTickDepth > 0 || !old(tickRequested) ==> View() == old(View())
      ensures deferTickDepth == 0 && old(tickRequested) ==> !tickRequested && TickEnds(config, old(View()), View())
    {
      deferTickDepth := Max(0, deferTickDepth - 1);
      if deferTickDepth == 0 && tickRequested {
        tickRequested := false;
        Tick();
      }
    }

    method InsertJob(i: Input, now: int) returns (id: JobId)
      requires i.deps <= jobs.Keys
      modifies `jobs, `nextId
      ensures View() == Insert(old(View()), i, now) && id == old(nextId)
    {
      id := nextId;
      jobs := jobs[id := NewJob(i, now)];
      nextId := nextId + 1;
    }

    method Enqueue(i: Input, now: int) returns (r: Result<JobId, JobError>)
      requires Valid()
      modifies this
      ensures Valid() && deferTickDepth == old(deferTickDepth)
      ensures var (mid, answer) := Jobs.Enqueue(old(View()), i, now);
        if answer.Accepted? then r == Ok(answer.job) && Requested(mid)
        else r == Err(Constraint) && View() == old(View())
    {
      Safety.EnqueueKeepsInv(config, View(), i, now);
      var answer := EnqueueRows(i, now);
      if answer.Rejected? { return Err(Constraint); }
      r := Ok(answer.job);
      RequestTick();
    }

    // The transaction of enqueue; with distinct keys there is at most one duplicate to find.
    method EnqueueRows(i: Input, now: int) returns (answer: Answer)
      requires DistinctKeys(jobs)
      modifies `jobs, `nextId
      ensures (View(), answer) == Jobs.Enqueue(old(View()), i, now)
    {
      var duplicates := set id | id in jobs && HoldsKey(jobs, id, KeyOf(i));
      assert forall k :: HoldsKey(jobs, k, KeyOf(i)) <==> k in duplicates;
      if duplicates != {} {
        var id :| id in duplicates;
        return Accepted(id);
      }
      if !(i.deps <= jobs.Keys) { return Rejected; }
      var id := InsertJob(i, now);
      return Accepted(id);
    }

    // ORDER BY running first, created_at, id: the head of the listed rows.
    method FirstOf(ids: set<JobId>) returns (first: JobId)
      requires ids != {} && ids <= jobs.Keys
      ensures first == First(jobs, ids)
    {
      first :| first in ids;
      var todo := ids - {first};
      while todo != {}
        invariant todo <= ids && first in ids
        invariant forall k :: k in ids - todo ==> Before(jobs, first, k)
        decreases todo
      {
        var k :| k in todo;
        if !Before(jobs, first, k) {
          assert forall x :: x in ids && Before(jobs, first, x) ==> Before(jobs, k, x);
          first := k;
        }
        todo := todo - {k};
      }
      assert IsFirst(jobs, ids, first);
      FirstUnique(jobs, ids, first, First(jobs, ids));
    }

    method EnqueueCoalesced(i: Input, fingerprint: string, now: int) returns (r: Result<JobId, JobError>)
      requires Valid() && i.space.Some?
      modifies this
      ensures Valid() && deferTickDepth == old(deferTickDepth)
      ensures Texts.IsBlank(fingerprint) ==> r == Err(EmptyFingerprint) && View() == old(View())
      ensures !Texts.IsBlank(fingerprint) ==>
        var request := i.(payload := Payload(i.payload.body, Some(fingerprint)));
        var (mid, answer) := Coalesce(old(View()), request, now);
        if answer.Accepted? then r == Ok(answer.job) && Requested(mid)
        else r == Err(Constraint) && View() == old(View())
    {
      if Texts.IsBlank(fingerprint) { return Err(EmptyFingerprint); }
      Safety.CoalesceKeepsInv(config, View(), Stamped(i, fingerprint), now);
      var answer := CoalesceRows(Stamped(i, fingerprint), now);
      if answer.Rejected? { return Err(Constraint); }
      r := Ok(answer.job);
      RequestTick();
    }

    method CoalesceRows(i: Input, now: int) returns (answer: Answer)
      modifies `jobs, `nextId
      ensures (View(), answer) == Coalesce(old(View()), i, now)
    {
      var matches, waiting := Matches(jobs, i), PendingRivals(jobs, i);
      if matches != {} {
        var candidate := FirstOf(matches);
        if jobs[candidate].status.Running? && waiting != {} {
          var obsolete := FirstOf(waiting);
          jobs := WithStatus(jobs, obsolete, Cancelled);
        }
        return Accepted(candidate);
      }
      if waiting != {} {
        var id := FirstOf(waiting);
        if !(i.deps <= jobs.Keys) || id in i.deps { return Rejected; }
        jobs := jobs[id := Rewire(jobs[id], i)];
        return Accepted(id);
      }
      if !(i.deps <= jobs.Keys) { return Rejected; }
      var id := InsertJob(i, now);
      return Accepted(id);
    }

    method RetryJob(id: JobId, now: int) returns (r: Result<JobId, JobError>)
      requires Valid()
      modifies this
      ensures Valid() && deferTickDepth == old(deferTickDepth)
      ensures id !in old(jobs) ==> r == Err(NotFound) && View() == old(View())
      ensures id in old(jobs) && old(jobs)[id].status !in {Failed, Skipped, Cancelled} ==>
        r == Err(Conflict) && View() == old(View())
      ensures id in old(jobs) && old(jobs)[id].status in {Failed, Skipped, Cancelled} ==>
        var job := old(jobs)[id];
        var request := Input(job.kind, job.space, job.repo, job.payload, {});
        var (mid, answer) := Jobs.Enqueue(old(View()), request, now);
        r == Ok(answer.job) && Requested(mid)
    {
      if id !in jobs { return Err(NotFound); }
      if !Dead(jobs[id].status) { return Err(Conflict); }
      r := Enqueue(RetryInput(jobs[id]), now);
    }

    // No tick here: a cancelled pending job only propagates one level.
    method CancelJob(id: JobId) returns (r: Result<JobId, JobError>)
      requires Valid()
      modifies this
      ensures Valid() && View() == Cancel(old(View()), id) && deferTickDepth == old(deferTickDepth)
      ensures id !in old(jobs) ==> r == Err(NotFound)
      ensures id in old(jobs) ==> r == if Active(old(jobs)[id].status) then Ok(id) else Err(Conflict)
      ensures r.Ok? && old(jobs)[id].status.Running? ==>
        jobs == old(jobs) && controllers == old(controllers)[id := true]
      ensures r.Ok? && old(jobs)[id].status.Pending? ==>
        controllers == old(controllers) && Skipping(old(jobs)[id := old(jobs)[id].(status := Cancelled)], jobs)
    {
      Safety.CancelKeepsInv(config, View(), id);
      if id !in jobs { return Err(NotFound); }
      if jobs[id].status.Running? {
        if id !in controllers { return Err(Conflict); }
        if !controllers[id] { controllers := controllers[id := true]; }
        assert View() == Cancel(old(View()), id);
        return Ok(id);
      }
      if !jobs[id].status.Pending? { return Err(Conflict); }
      CancelPending(id);
      return Ok(id);
    }

    method CancelPending(id: JobId)
      requires id in jobs && jobs[id].status.Pending?
      modifies `jobs
      ensures jobs == SkipDoomed(WithStatus(old(jobs), id, Cancelled))
      ensures Skipping(old(jobs)[id := old(jobs)[id].(status := Cancelled)], jobs)
    {
      jobs := WithStatus(jobs, id, Cancelled);
      SkipBlockedDependents();
    }

    // The tail of run(): the handler's promise settled with `o`.
    method SettleRun(id: JobId, o: Outcome)
      requires Valid() && id in controllers
      modifies this
      ensures Valid() && View() == Settle(old(View()), id, o)
      ensures deferTickDepth == old(deferTickDepth)
      ensures Settled(old(jobs), old(controllers), id, o)
    {
      Safety.SettleKeepsInv(config, View(), id, o);
      SettleRows(id, o);
    }

    method SettleRows(id: JobId, o: Outcome)
      requires id in controllers && id in jobs && jobs[id].status.Running?
      modifies `jobs, `controllers
      ensures View() == Settle(old(View()), id, o) && Settled(old(jobs), old(controllers), id, o)
    {
      if id in jobs && jobs[id].status.Running? { EndRow(id, o); }
      controllers := controllers - {id};
    }

    // How a running job ends: by its controller's flag and its handler's outcome.
    ghost predicate Settled(before: Table, flags: map<JobId, bool>, id: JobId, o: Outcome)
      requires id in flags
      reads this
    {
      && controllers == flags - {id} && Ended(before, jobs, flags[id], id, o)
    }

    method EndRow(id: JobId, o: Outcome)
      requires id in controllers && id in jobs && jobs[id].status.Running?
      modifies `jobs
      ensures jobs == Settle(old(View()), id, o).jobs
      ensures Ended(old(jobs), jobs, controllers[id], id, o)
    {
      if controllers[id] || (o.Threw? && o.abortLike) {
        jobs := WithStatus(jobs, id, Cancelled);
        SkipBlockedDependents();
      } else if o.Completed? {
        jobs := WithStatus(jobs, id, Succeeded);
      } else {
        jobs := WithStatus(jobs, id, Failed);
      }
    }

    // run(next).finally(...)
    method FinishRun(id: JobId)
      requires Valid() && id in inflight && id !in controllers
      modifies this
      ensures Valid() && TickEnds(config, Retire(old(View()), id), View())
    {
      Safety.RetireKeepsInv(config, View(), id);
      activeJobs := Max(0, activeJobs - 1);
      assert |inflight - {id}| == |inflight| - 1;
      inflight := inflight - {id};
      Tick();
    }
  }

  lemma FirstUnique(jobs: Table, ids: set<JobId>, a: JobId, b: JobId)
    requires ids <= jobs.Keys && IsFirst(jobs, ids, a) && IsFirst(jobs, ids, b)
    ensures a == b
  {
    assert Before(jobs, a, b) && Before(jobs, b, a);
  }
}
