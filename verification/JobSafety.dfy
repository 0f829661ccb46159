/** Every reachable state of the job table satisfies the scheduler invariant. */
module JobSafety {
  import opened Wrappers
  import opened Jobs

  // A status change that keeps rows in place: everything but the status stays as it was.
  ghost predicate SameRows(a: Table, b: Table) {
    a.Keys == b.Keys && forall id :: id in a ==> b[id] == a[id].(status := b[id].status)
  }

  // Jobs only leave Pending for a status that is not Started, or stay as they are.
  ghost predicate OnlyEndsPending(a: Table, b: Table) {
    SameRows(a, b) && forall id :: id in a && a[id].status != b[id].status ==>
      a[id].status.Pending? && Dead(b[id].status)
  }

  // Dependencies stay satisfied when successes stay and every newly started job had its own done.
  lemma DoneKept(a: Table, b: Table)
    requires DependenciesDone(a)
    requires forall d :: HasStatus(a, d, Succeeded) ==> HasStatus(b, d, Succeeded)
    requires forall id :: id in b && Started(b[id].status) ==>
      id in a && b[id].deps == a[id].deps && (Started(a[id].status) || AllSucceeded(a, a[id].deps))
    ensures DependenciesDone(b)
  {
    forall id | id in b && Started(b[id].status) ensures AllSucceeded(b, b[id].deps) {
      assert AllSucceeded(a, a[id].deps);
    }
  }

  lemma KeysKept(a: Table, b: Table)
    requires DistinctKeys(a) && SameRows(a, b)
    requires forall id :: IsActive(b, id) ==> IsActive(a, id)
    ensures DistinctKeys(b)
  {
    forall id | id in b ensures KeyDescribes(b[id]) { assert KeyDescribes(a[id]); }
  }

  lemma EndingPendingBooks(c: Config, s: State, jobs: Table)
    requires WellFormed(s) && Bookkeeping(c, s) && OnlyEndsPending(s.jobs, jobs)
    ensures WellFormed(s.(jobs := jobs)) && Bookkeeping(c, s.(jobs := jobs))
  {
    forall id | id in jobs
      ensures jobs[id].deps == s.jobs[id].deps && (jobs[id].status.Running? <==> s.jobs[id].status.Running?)
    {}
  }

  lemma EndingPendingKeepsInv(c: Config, s: State, jobs: Table)
    requires Inv(c, s) && OnlyEndsPending(s.jobs, jobs)
    ensures Inv(c, s.(jobs := jobs))
  {
    EndingPendingBooks(c, s, jobs);
    DoneKept(s.jobs, jobs);
    KeysKept(s.jobs, jobs);
  }

  lemma SkipOnlyEndsPending(jobs: Table)
    ensures OnlyEndsPending(jobs, SkipDoomed(jobs))
  {}

  lemma LaunchExclusive(jobs: Table, id: JobId, st: Status)
    requires Exclusive(jobs) && id in jobs && !Blocked(jobs, id)
    ensures Exclusive(WithStatus(jobs, id, st))
  {
    forall r | r in jobs && r != id && jobs[r].status.Running?
      ensures Compatible(jobs[r], jobs[id]) && Compatible(jobs[id], jobs[r])
    {}
  }

  lemma StartableIsReady(jobs: Table, id: JobId)
    requires CanStart(jobs, id)
    ensures Ready(jobs, id) && !Blocked(jobs, id)
  {
    var w :| Window(jobs, w) && FirstUnblocked(jobs, w, id);
  }

  // One row moves to a status that its dependencies allow.
  lemma MoveKeepsTable(jobs: Table, id: JobId, st: Status)
    requires DependenciesDone(jobs) && DistinctKeys(jobs) && id in jobs && Active(jobs[id].status) && !st.Pending?
    requires Started(st) && !Started(jobs[id].status) ==> AllSucceeded(jobs, jobs[id].deps)
    ensures DependenciesDone(WithStatus(jobs, id, st)) && DistinctKeys(WithStatus(jobs, id, st))
  {
    var t := WithStatus(jobs, id, st);
    assert forall d :: HasStatus(jobs, d, Succeeded) ==> d != id && HasStatus(t, d, Succeeded);
    DoneKept(jobs, t);
    KeysKept(jobs, t);
  }

  lemma LaunchBooks(c: Config, s: State, id: JobId)
    requires WellFormed(s) && Bookkeeping(c, s) && |s.inflight| < c.concurrency
    requires id in s.jobs && s.jobs[id].status.Pending?
    ensures WellFormed(Launch(c, s, id)) && Bookkeeping(c, Launch(c, s, id))
  {
    var t := Launch(c, s, id);
    assert |s.inflight + {id}| == |s.inflight| + 1;
    forall k | k in t.jobs ensures t.jobs[k].deps <= t.jobs.Keys && k !in t.jobs[k].deps {
      assert t.jobs[k].deps == s.jobs[k].deps;
    }
  }

  lemma SettleBooks(c: Config, s: State, id: JobId, st: Status)
    requires WellFormed(s) && Bookkeeping(c, s) && id in s.controllers && !Active(st)
    ensures var t := s.(jobs := WithStatus(s.jobs, id, st), controllers := s.controllers - {id});
      WellFormed(t) && Bookkeeping(c, t)
  {
    var t := s.(jobs := WithStatus(s.jobs, id, st), controllers := s.controllers - {id});
    forall k | k in t.jobs ensures t.jobs[k].deps <= t.jobs.Keys && k !in t.jobs[k].deps {
      assert t.jobs[k].deps == s.jobs[k].deps;
    }
  }

  lemma LaunchKeepsInv(c: Config, s: State, id: JobId)
    requires Inv(c, s) && |s.inflight| < c.concurrency && Ready(s.jobs, id) && !Blocked(s.jobs, id)
    ensures Inv(c, Launch(c, s, id))
  {
    var st := if s.jobs[id].kind in c.handlers then Running else Failed;
    assert AllSucceeded(s.jobs, s.jobs[id].deps) by { assert s.jobs[id].deps <= s.jobs.Keys; }
    LaunchExclusive(s.jobs, id, st);
    MoveKeepsTable(s.jobs, id, st);
    LaunchBooks(c, s, id);
  }

  lemma SettleKeepsInv(c: Config, s: State, id: JobId, o: Outcome)
    requires Inv(c, s) && id in s.controllers
    ensures Inv(c, Settle(s, id, o))
  {
    var final := FinalStatus(s.controllers[id], o);
    var t := s.(jobs := WithStatus(s.jobs, id, final), controllers := s.controllers - {id});
    MoveKeepsTable(s.jobs, id, final);
    SettleBooks(c, s, id, final);
    assert Exclusive(t.jobs);
    if final.Cancelled? { SkipKeepsInv(c, t); }
  }

  lemma RetireKeepsInv(c: Config, s: State, id: JobId)
    requires Inv(c, s) && Enabled(c, s, ERetire(id))
    ensures Inv(c, Retire(s, id))
  {
    assert |s.inflight - {id}| == |s.inflight| - 1;
  }

  lemma InsertKeepsKeys(jobs: Table, id: JobId, i: Input, now: int)
    requires DistinctKeys(jobs) && id !in jobs
    requires forall k :: !HoldsKey(jobs, k, KeyOf(i))
    ensures DistinctKeys(jobs[id := NewJob(i, now)])
  {
    var t := jobs[id := NewJob(i, now)];
    forall k | k in t ensures KeyDescribes(t[k]) { assert k != id ==> KeyDescribes(jobs[k]); }
    forall a, b | IsActive(t, a) && IsActive(t, b) && t[a].key == t[b].key ensures a == b {
      assert a != id ==> IsActive(jobs, a) && !HoldsKey(jobs, a, KeyOf(i));
      assert b != id ==> IsActive(jobs, b) && !HoldsKey(jobs, b, KeyOf(i));
    }
  }

  lemma InsertBooks(c: Config, s: State, i: Input, now: int)
    requires WellFormed(s) && Bookkeeping(c, s) && i.deps <= s.jobs.Keys
    ensures WellFormed(Insert(s, i, now)) && Bookkeeping(c, Insert(s, i, now))
  {
    assert s.nextId !in s.jobs && s.nextId !in i.deps;
  }

  lemma InsertKeepsInv(c: Config, s: State, i: Input, now: int)
    requires Inv(c, s) && i.deps <= s.jobs.Keys
    requires forall id :: !HoldsKey(s.jobs, id, KeyOf(i))
    ensures Inv(c, Insert(s, i, now))
  {
    var t := Insert(s, i, now);
    assert s.nextId !in s.jobs;
    InsertBooks(c, s, i, now);
    InsertKeepsKeys(s.jobs, s.nextId, i, now);
    DoneKept(s.jobs, t.jobs);
  }

  lemma EnqueueKeepsInv(c: Config, s: State, i: Input, now: int)
    requires Inv(c, s)
    ensures Inv(c, Enqueue(s, i, now).0)
  {
    if !(exists id :: HoldsKey(s.jobs, id, KeyOf(i))) && i.deps <= s.jobs.Keys {
      InsertKeepsInv(c, s, i, now);
    }
  }

  // The active rows the coalescing loop looks at include every row that could clash on the unique
  // index, although the loop never compares repository columns.
  lemma ClashesMatch(jobs: Table, i: Input)
    requires DistinctKeys(jobs)
    ensures forall id :: HoldsKey(jobs, id, KeyOf(i)) ==> id in Matches(jobs, i)
  {
    forall id | HoldsKey(jobs, id, KeyOf(i)) ensures id in Matches(jobs, i) {
      assert KeyDescribes(jobs[id]);
    }
  }

  lemma RewireBooks(c: Config, s: State, i: Input, id: JobId)
    requires WellFormed(s) && Bookkeeping(c, s) && Exclusive(s.jobs) && id in s.jobs && s.jobs[id].status.Pending?
    requires i.deps <= s.jobs.Keys && id !in i.deps
    ensures var t := s.(jobs := s.jobs[id := Rewire(s.jobs[id], i)]);
      WellFormed(t) && Bookkeeping(c, t) && Exclusive(t.jobs)
  {}

  lemma RewireKeepsDone(jobs: Table, i: Input, id: JobId)
    requires DependenciesDone(jobs) && id in jobs && jobs[id].status.Pending?
    ensures DependenciesDone(jobs[id := Rewire(jobs[id], i)])
  {
    DoneKept(jobs, jobs[id := Rewire(jobs[id], i)]);
  }

  lemma RewireKeepsKeys(jobs: Table, i: Input, id: JobId)
    requires DistinctKeys(jobs) && id in PendingRivals(jobs, i) && forall k :: !HoldsKey(jobs, k, KeyOf(i))
    ensures DistinctKeys(jobs[id := Rewire(jobs[id], i)])
  {
    var t := jobs[id := Rewire(jobs[id], i)];
    forall k | k in t ensures KeyDescribes(t[k]) { assert k != id ==> KeyDescribes(jobs[k]); }
    forall a, b | IsActive(t, a) && IsActive(t, b) && t[a].key == t[b].key ensures a == b {
      assert a != id ==> IsActive(jobs, a) && !HoldsKey(jobs, a, KeyOf(i));
      assert b != id ==> IsActive(jobs, b) && !HoldsKey(jobs, b, KeyOf(i));
    }
  }

  lemma RewireKeepsInv(c: Config, s: State, i: Input, id: JobId)
    requires Inv(c, s) && id in PendingRivals(s.jobs, i)
    requires i.deps <= s.jobs.Keys && id !in i.deps
    requires forall k :: !HoldsKey(s.jobs, k, KeyOf(i))
    ensures Inv(c, s.(jobs := s.jobs[id := Rewire(s.jobs[id], i)]))
  {
    var jobs := s.jobs[id := Rewire(s.jobs[id], i)];
    RewireBooks(c, s, i, id);
    RewireKeepsDone(s.jobs, i, id);
    RewireKeepsKeys(s.jobs, i, id);
  }

  lemma SupersedeKeepsInv(c: Config, s: State, id: JobId)
    requires Inv(c, s) && id in s.jobs && s.jobs[id].status.Pending?
    ensures Inv(c, s.(jobs := WithStatus(s.jobs, id, Cancelled)))
  {
    EndingPendingKeepsInv(c, s, WithStatus(s.jobs, id, Cancelled));
  }

  lemma CoalesceKeepsInv(c: Config, s: State, i: Input, now: int)
    requires Inv(c, s)
    ensures Inv(c, Coalesce(s, i, now).0)
  {
    var matches, waiting := Matches(s.jobs, i), PendingRivals(s.jobs, i);
    if matches != {} {
      if waiting != {} { SupersedeKeepsInv(c, s, First(s.jobs, waiting)); }
    } else {
      ClashesMatch(s.jobs, i);
      if waiting != {} {
        var id := First(s.jobs, waiting);
        if i.deps <= s.jobs.Keys && id !in i.deps { RewireKeepsInv(c, s, i, id); }
      } else if i.deps <= s.jobs.Keys {
        InsertKeepsInv(c, s, i, now);
      }
    }
  }

  lemma SkipKeepsInv(c: Config, s: State)
    requires Inv(c, s)
    ensures Inv(c, s.(jobs := SkipDoomed(s.jobs)))
  {
    SkipOnlyEndsPending(s.jobs);
    EndingPendingKeepsInv(c, s, SkipDoomed(s.jobs));
  }

  lemma CancelKeepsInv(c: Config, s: State, id: JobId)
    requires Inv(c, s)
    ensures Inv(c, Cancel(s, id))
  {
    if id in s.jobs && s.jobs[id].status.Pending? {
      SupersedeKeepsInv(c, s, id);
      SkipKeepsInv(c, s.(jobs := WithStatus(s.jobs, id, Cancelled)));
    }
  }

  lemma RestartKeepsInv(c: Config, s: State)
    requires Inv(c, s)
    ensures Inv(c, Restart(s))
  {
    RestartBooks(c, s, Restart(s));
    RestartKeepsDone(s.jobs, FailRunning(s.jobs));
    KeysKept(s.jobs, FailRunning(s.jobs));
  }

  lemma RestartBooks(c: Config, s: State, t: State)
    requires WellFormed(s) && t == Restart(s)
    ensures WellFormed(t) && Bookkeeping(c, t) && Exclusive(t.jobs)
  {
    assert forall id :: id in t.jobs ==> !t.jobs[id].status.Running? && t.jobs[id].deps == s.jobs[id].deps;
  }

  lemma RestartKeepsDone(jobs: Table, failed: Table)
    requires DependenciesDone(jobs) && failed == FailRunning(jobs)
    ensures DependenciesDone(failed)
  {
    DoneKept(jobs, failed);
  }

  lemma EventKeepsInv(c: Config, s: State, e: Event)
    requires Inv(c, s) && Enabled(c, s, e)
    ensures Inv(c, Apply(c, s, e))
  {
    match e
    case ESkip => SkipKeepsInv(c, s);
    case ELaunch(id) => StartableIsReady(s.jobs, id); LaunchKeepsInv(c, s, id);
    case ESettle(id, o) => SettleKeepsInv(c, s, id, o);
    case ERetire(id) => RetireKeepsInv(c, s, id);
    case EEnqueue(i, now) => EnqueueKeepsInv(c, s, i, now);
    case ECoalesce(i, now) => CoalesceKeepsInv(c, s, i, now);
    case ECancel(id) => CancelKeepsInv(c, s, id);
    case ERetry(id, now) => EnqueueKeepsInv(c, s, RetryInput(s.jobs[id]), now);
    case ERestart => RestartKeepsInv(c, s);
  }

  lemma {:induction false} RunKeepsInv(c: Config, s: State, es: seq<Event>)
    requires Inv(c, s) && Possible(c, s, es)
    ensures Inv(c, Run(c, s, es))
    decreases |es|
  {
    if es != [] {
      EventKeepsInv(c, s, es[0]);
      RunKeepsInv(c, Apply(c, s, es[0]), es[1..]);
    }
  }

  // ---------- Main results ----------

  function RunningJobs(jobs: Table): set<JobId> { set id | id in jobs && jobs[id].status.Running? }

  /** Scheduler safety over all interleavings, crashes included. */
  lemma SchedulerSafety(c: Config, es: seq<Event>)
    requires Possible(c, EMPTY, es)
    ensures var s := Run(c, EMPTY, es);
      && |RunningJobs(s.jobs)| <= c.concurrency
      && (forall a, b :: a in RunningJobs(s.jobs) && b in RunningJobs(s.jobs) && a != b ==>
            && (s.jobs[a].repo.Some? ==> s.jobs[a].repo != s.jobs[b].repo)
            && (s.jobs[a].space.Some? && s.jobs[a].repo.None? ==> s.jobs[a].space != s.jobs[b].space))
      && (forall id, d :: id in RunningJobs(s.jobs) && d in s.jobs[id].deps ==> HasStatus(s.jobs, d, Succeeded))
      && (forall a, b :: IsActive(s.jobs, a) && IsActive(s.jobs, b) && s.jobs[a].key == s.jobs[b].key ==> a == b)
      // cancelJob never meets a running job without its controller
      && (forall id :: id in RunningJobs(s.jobs) ==> id in s.controllers)
  {
    var s := Run(c, EMPTY, es);
    RunKeepsInv(c, EMPTY, es);
    SubsetSize(RunningJobs(s.jobs), s.inflight);
    forall id, d | id in RunningJobs(s.jobs) && d in s.jobs[id].deps ensures HasStatus(s.jobs, d, Succeeded) {
      assert AllSucceeded(s.jobs, s.jobs[id].deps);
    }
    forall a, b | a in RunningJobs(s.jobs) && b in RunningJobs(s.jobs) && a != b
      ensures Compatible(s.jobs[a], s.jobs[b])
    {}
  }

  // enqueue: the answer is an active job holding the requested key; nothing else moves.
  lemma EnqueueAnswers(c: Config, s: State, i: Input, now: int)
    requires Inv(c, s)
    ensures var (t, a) := Enqueue(s, i, now);
      && (a.Accepted? ==> HoldsKey(t.jobs, a.job, KeyOf(i)))
      && (a.Accepted? ==> t.jobs[a.job].payload == i.payload && t.jobs[a.job].deps == i.deps)
      && (a.Rejected? ==> t == s && !(i.deps <= s.jobs.Keys))
      && (forall id :: id in s.jobs ==> id in t.jobs && t.jobs[id] == s.jobs[id])
      && (forall id :: id in t.jobs && id !in s.jobs ==> id == a.job && t.jobs[id].status.Pending?)
  {
    if exists id :: HoldsKey(s.jobs, id, KeyOf(i)) {
      var id := Enqueue(s, i, now).1.job;
      assert KeyDescribes(s.jobs[id]);
      assert s.jobs[id].deps == i.deps;
    }
  }

  // The answered job carries the request.
  lemma CoalesceCarries(c: Config, s: State, i: Input, now: int, t: State, a: Answer)
    requires Inv(c, s) && (t, a) == Coalesce(s, i, now) && a.Accepted?
    ensures IsActive(t.jobs, a.job) && t.jobs[a.job].kind == i.kind && t.jobs[a.job].space == i.space
    ensures t.jobs[a.job].payload == i.payload && t.jobs[a.job].deps == i.deps
    ensures t.jobs[a.job].status.Running? ==> a.job in s.jobs && s.jobs[a.job] == t.jobs[a.job]
    ensures t.jobs[a.job].status.Running? && PendingRivals(s.jobs, i) != {} ==>
      HasStatus(t.jobs, First(s.jobs, PendingRivals(s.jobs, i)), Cancelled)
  {
    var matches := Matches(s.jobs, i);
    if matches != {} {
      assert First(s.jobs, matches) in matches && IsActive(s.jobs, First(s.jobs, matches));
    }
  }

  // Nothing else moves.
  lemma CoalesceTouches(c: Config, s: State, i: Input, now: int, t: State, a: Answer)
    requires Inv(c, s) && (t, a) == Coalesce(s, i, now)
    ensures forall id :: id in s.jobs ==> id in t.jobs
    ensures forall id :: id in s.jobs && t.jobs[id] != s.jobs[id] ==>
      id in PendingRivals(s.jobs, i) && ((a.Accepted? && id == a.job) || t.jobs[id].status.Cancelled?)
    ensures a.Rejected? ==> t == s && (!(i.deps <= s.jobs.Keys) || i.deps * PendingRivals(s.jobs, i) != {})
  {
    var waiting := PendingRivals(s.jobs, i);
    if Matches(s.jobs, i) == {} && waiting != {} {
      assert First(s.jobs, waiting) in i.deps ==> First(s.jobs, waiting) in i.deps * waiting;
    }
  }

  /** enqueueCoalesced: every accepted call answers with an active job of the requested type and
      space that carries exactly the requested payload and dependencies; it touches that job or one
      pending rival that it cancels, and is rejected only over dependency constraints. */
  lemma CoalesceAnswers(c: Config, s: State, i: Input, now: int)
    requires Inv(c, s)
    ensures var (t, a) := Coalesce(s, i, now);
      && (a.Accepted? ==>
            && IsActive(t.jobs, a.job)
            && t.jobs[a.job].kind == i.kind && t.jobs[a.job].space == i.space
            && t.jobs[a.job].payload == i.payload && t.jobs[a.job].deps == i.deps)
      && (a.Accepted? && t.jobs[a.job].status.Running? ==>
            s.jobs[a.job] == t.jobs[a.job] &&
            (PendingRivals(s.jobs, i) != {} ==> HasStatus(t.jobs, First(s.jobs, PendingRivals(s.jobs, i)), Cancelled)))
      && (forall id :: id in s.jobs && t.jobs[id] != s.jobs[id] ==>
            id in PendingRivals(s.jobs, i) && (id == a.job || t.jobs[id].status.Cancelled?))
      && (a.Rejected? ==> t == s && (!(i.deps <= s.jobs.Keys) || i.deps * PendingRivals(s.jobs, i) != {}))
  {
    var (t, a) := Coalesce(s, i, now);
    CoalesceTouches(c, s, i, now, t, a);
    if a.Accepted? { CoalesceCarries(c, s, i, now, t, a); }
  }

  // ---------- A type that is only ever coalesced ----------

  ghost predicate OnlyCoalesced(s: State, e: Event, kind: string) {
    match e
    case EEnqueue(i, _) => i.kind != kind
    case ERetry(id, _) => id in s.jobs ==> s.jobs[id].kind != kind
    case _ => true
  }

  // The requests for the type name a space and no repository.
  ghost predicate SpaceWideCall(e: Event, kind: string) {
    e.ECoalesce? && e.input.kind == kind ==> e.input.space.Some? && e.input.repo.None?
  }

  ghost predicate AllOnlyCoalesced(c: Config, s: State, es: seq<Event>, kind: string, spaceWide: bool)
    decreases |es|
  {
    && Possible(c, s, es)
    && (es != [] ==>
          && OnlyCoalesced(s, es[0], kind) && (spaceWide ==> SpaceWideCall(es[0], kind))
          && AllOnlyCoalesced(c, Apply(c, s, es[0]), es[1..], kind, spaceWide))
  }

  ghost predicate SpaceWide(jobs: Table, kind: string) {
    forall id :: id in jobs && jobs[id].kind == kind ==> jobs[id].space.Some? && jobs[id].repo.None?
  }

  ghost predicate OnePending(jobs: Table, kind: string) {
    forall a, b ::
      (&& a in jobs && b in jobs && jobs[a].kind == kind && jobs[b].kind == kind && jobs[a].space == jobs[b].space
       && jobs[a].status.Pending? && jobs[b].status.Pending?) ==> a == b
  }

  // Every pending job of b is a pending job of a with the same columns.
  ghost predicate NoNewPending(a: Table, b: Table, kind: string) {
    && (forall id :: id in b && b[id].kind == kind ==>
          id in a && a[id].kind == kind && b[id].space == a[id].space && b[id].repo == a[id].repo)
    && (forall id :: id in b && b[id].kind == kind && b[id].status.Pending? ==> a[id].status.Pending?)
  }

  lemma NoNewPendingKeeps(a: Table, b: Table, kind: string)
    requires NoNewPending(a, b, kind) && OnePending(a, kind)
    ensures OnePending(b, kind) && (SpaceWide(a, kind) ==> SpaceWide(b, kind))
  {
  }

  lemma EnqueueAddsNoPending(s: State, i: Input, now: int, kind: string)
    requires i.kind != kind
    ensures NoNewPending(s.jobs, Enqueue(s, i, now).0.jobs, kind)
  {
  }

  // Statuses change, and none becomes Pending.
  ghost predicate OnlyAdvances(a: Table, b: Table) {
    SameRows(a, b) && forall id :: id in a && b[id].status.Pending? ==> a[id].status.Pending?
  }

  lemma SkipAdvances(jobs: Table)
    ensures OnlyAdvances(jobs, SkipDoomed(jobs))
  {
  }

  lemma SettleAdvances(s: State, id: JobId, o: Outcome)
    requires id in s.controllers
    ensures OnlyAdvances(s.jobs, Settle(s, id, o).jobs)
  {
    if id in s.jobs {
      var updated := WithStatus(s.jobs, id, FinalStatus(s.controllers[id], o));
      SkipAdvances(updated);
    }
  }

  lemma CancelAdvances(s: State, id: JobId)
    ensures OnlyAdvances(s.jobs, Cancel(s, id).jobs)
  {
    if id in s.jobs { SkipAdvances(WithStatus(s.jobs, id, Cancelled)); }
  }

  lemma RunnerEventsAdvance(c: Config, s: State, e: Event, t: State)
    requires Enabled(c, s, e) && t == Apply(c, s, e)
    requires !e.ECoalesce? && !e.EEnqueue? && !e.ERetry?
    ensures OnlyAdvances(s.jobs, t.jobs)
  {
    if e.ESettle? {
      SettleAdvances(s, e.id, e.outcome);
    } else if e.ECancel? {
      CancelAdvances(s, e.id);
    } else if e.ELaunch? {
      StartableIsReady(s.jobs, e.id);
      LaunchAdvances(c, s, e.id);
    } else if e.ERestart? {
      RestartAdvances(s.jobs);
    } else {
      SkipAdvances(s.jobs);
    }
  }

  lemma RestartAdvances(jobs: Table)
    ensures OnlyAdvances(jobs, FailRunning(jobs))
  {}

  lemma LaunchAdvances(c: Config, s: State, id: JobId)
    requires id in s.jobs
    ensures OnlyAdvances(s.jobs, Launch(c, s, id).jobs)
  {}

  lemma OtherEventsAddNoPending(c: Config, s: State, e: Event, kind: string)
    requires Enabled(c, s, e) && OnlyCoalesced(s, e, kind) && !e.ECoalesce?
    ensures NoNewPending(s.jobs, Apply(c, s, e).jobs, kind)
  {
    if e.EEnqueue? {
      EnqueueAddsNoPending(s, e.input, e.now, kind);
    } else if e.ERetry? {
      EnqueueAddsNoPending(s, RetryInput(s.jobs[e.id]), e.now, kind);
    } else {
      RunnerEventsAdvance(c, s, e, Apply(c, s, e));
    }
  }

  lemma EventKeepsOnePending(c: Config, s: State, e: Event, kind: string)
    requires Enabled(c, s, e) && OnlyCoalesced(s, e, kind) && OnePending(s.jobs, kind)
    ensures OnePending(Apply(c, s, e).jobs, kind)
    ensures SpaceWideCall(e, kind) && SpaceWide(s.jobs, kind) ==> SpaceWide(Apply(c, s, e).jobs, kind)
  {
    if e.ECoalesce? {
      CoalesceKeepsOnePending(s, e.input, e.now, kind);
    } else {
      OtherEventsAddNoPending(c, s, e, kind);
      NoNewPendingKeeps(s.jobs, Apply(c, s, e).jobs, kind);
    }
  }

  lemma CoalesceKeepsOnePending(s: State, i: Input, now: int, kind: string)
    requires OnePending(s.jobs, kind)
    ensures OnePending(Coalesce(s, i, now).0.jobs, kind)
    ensures SpaceWide(s.jobs, kind) && (i.kind == kind ==> i.space.Some? && i.repo.None?) ==>
      SpaceWide(Coalesce(s, i, now).0.jobs, kind)
  {
    var waiting := PendingRivals(s.jobs, i);
    forall k | k in s.jobs && s.jobs[k].status.Pending? && s.jobs[k].kind == i.kind && s.jobs[k].space == i.space
      ensures k in waiting
    {}
  }

  lemma {:induction false} RunKeepsOnePending(c: Config, s: State, es: seq<Event>, kind: string, spaceWide: bool)
    requires AllOnlyCoalesced(c, s, es, kind, spaceWide) && OnePending(s.jobs, kind)
    requires spaceWide ==> SpaceWide(s.jobs, kind)
    ensures OnePending(Run(c, s, es).jobs, kind) && (spaceWide ==> SpaceWide(Run(c, s, es).jobs, kind))
    decreases |es|
  {
    if es != [] {
      EventKeepsOnePending(c, s, es[0], kind);
      RunKeepsOnePending(c, Apply(c, s, es[0]), es[1..], kind, spaceWide);
    }
  }

  /** A type that is only coalesced has at most one pending job per space, whatever repositories its
      requests name, and at most one running job per space if they name the space alone. */
  lemma AtMostOneOfEach(c: Config, es: seq<Event>, kind: string, spaceWide: bool)
    requires AllOnlyCoalesced(c, EMPTY, es, kind, spaceWide)
    ensures var jobs := Run(c, EMPTY, es).jobs;
      forall a, b ::
        (&& IsActive(jobs, a) && IsActive(jobs, b) && jobs[a].kind == kind && jobs[b].kind == kind
         && jobs[a].space == jobs[b].space && jobs[a].status == jobs[b].status
         && (jobs[a].status.Running? ==> spaceWide)) ==> a == b
  {
    RunKeepsInv(c, EMPTY, es);
    RunKeepsOnePending(c, EMPTY, es, kind, spaceWide);
    var jobs := Run(c, EMPTY, es).jobs;
    forall a, b | IsActive(jobs, a) && IsActive(jobs, b) && jobs[a].kind == kind && jobs[b].kind == kind
        && jobs[a].space == jobs[b].space && jobs[a].status.Running? && jobs[b].status.Running? && a != b
      ensures !spaceWide
    {
      assert Compatible(jobs[a], jobs[b]);
    }
  }

  // ---------- Which jobs of one space run together ----------

  // Two different repositories, or no space to share and not the same repository.
  predicate MayRunTogether(space: Option<string>, a: Option<string>, b: Option<string>) {
    (a.None? || a != b) && (space.None? || (a.Some? && b.Some?))
  }

  /** Two jobs of the same space run at the same time only if they may run together. */
  lemma RunningPairs(c: Config, es: seq<Event>, a: JobId, b: JobId)
    requires Possible(c, EMPTY, es)
    requires var jobs := Run(c, EMPTY, es).jobs;
      a != b && HasStatus(jobs, a, Running) && HasStatus(jobs, b, Running) && jobs[a].space == jobs[b].space
    ensures var jobs := Run(c, EMPTY, es).jobs; MayRunTogether(jobs[a].space, jobs[a].repo, jobs[b].repo)
  {
    RunKeepsInv(c, EMPTY, es);
    var jobs := Run(c, EMPTY, es).jobs;
    assert Compatible(jobs[a], jobs[b]) && Compatible(jobs[b], jobs[a]);
  }
}
