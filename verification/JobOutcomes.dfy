/**
 What becomes of a job: every event of the scheduler read off the rows before it.  Each status change,
 each new or rewritten row and each change of the in-memory fields is given by its exact cause, and the
 causes add up over whole runs.
 */
module JobOutcomes {
  import opened Wrappers
  import opened Jobs
  import Safety = JobSafety

  // ---------- Causes ----------

  ghost predicate Rival(jobs: Table, i: Input, k: JobId) {
    k in jobs && Active(jobs[k].status) && jobs[k].kind == i.kind && jobs[k].space == i.space
  }

  ghost predicate Carries(job: Job, i: Input) { job.payload == i.payload && job.deps == i.deps }

  // The pending rival the query lists first.
  ghost predicate OldestRival(jobs: Table, i: Input, id: JobId) {
    && Rival(jobs, i, id) && jobs[id].status.Pending?
    && forall k :: Rival(jobs, i, k) && jobs[k].status.Pending? ==>
         jobs[id].createdAt < jobs[k].createdAt || (jobs[id].createdAt == jobs[k].createdAt && id <= k)
  }

  // A running job already works on the request, so the pending one is obsolete.
  ghost predicate Supersedes(jobs: Table, i: Input, id: JobId) {
    OldestRival(jobs, i, id) && exists k :: Rival(jobs, i, k) && jobs[k].status.Running? && Carries(jobs[k], i)
  }

  // The job is cancelled: before its start, by the end of its handler, or as obsolete.
  ghost predicate CancelledBy(s: State, e: Event, id: JobId) {
    id in s.jobs &&
    match e
    case ECancel(k) => k == id && s.jobs[id].status.Pending?
    case ESettle(k, o) => k == id && id in s.controllers && (s.controllers[id] || o == Threw(true))
    case ECoalesce(i, _) => Supersedes(s.jobs, i, id)
    case _ => false
  }

  // The events after which dependents of dead jobs are looked for.
  ghost predicate Sweeps(s: State, e: Event) {
    match e
    case ESkip => true
    case ECancel(k) => CancelledBy(s, e, k)
    case ESettle(k, _) => CancelledBy(s, e, k)
    case _ => false
  }

  ghost predicate SkippedBy(s: State, e: Event, id: JobId) {
    && id in s.jobs && s.jobs[id].status.Pending? && !CancelledBy(s, e, id) && Sweeps(s, e)
    && exists d :: d in s.jobs[id].deps && d in s.jobs && (Dead(s.jobs[d].status) || CancelledBy(s, e, d))
  }

  // The event gives the job this status.
  ghost predicate Gives(c: Config, s: State, e: Event, id: JobId, st: Status) {
    id in s.jobs &&
    match st
    case Pending => false
    case Running => e == ELaunch(id) && s.jobs[id].kind in c.handlers
    case Succeeded => e == ESettle(id, Completed) && id in s.controllers && !s.controllers[id]
    case Failed =>
      || (e == ELaunch(id) && s.jobs[id].kind !in c.handlers)
      || (e == ESettle(id, Threw(false)) && id in s.controllers && !s.controllers[id])
      || (e == ERestart && s.jobs[id].status.Running?)
    case Skipped => SkippedBy(s, e, id)
    case Cancelled => CancelledBy(s, e, id)
  }

  // ---------- Status changes ----------

  lemma SkipMoves(c: Config, s: State, t: State, k: JobId, st: Status)
    requires t == s.(jobs := SkipDoomed(s.jobs)) && k in s.jobs && st != s.jobs[k].status
    ensures k in t.jobs && (t.jobs[k].status == st <==> Gives(c, s, ESkip, k, st))
  {}

  lemma LaunchMoves(c: Config, s: State, id: JobId, t: State, k: JobId, st: Status)
    requires id in s.jobs && t == Launch(c, s, id) && k in s.jobs && st != s.jobs[k].status
    ensures k in t.jobs && (t.jobs[k].status == st <==> Gives(c, s, ELaunch(id), k, st))
  {}

  lemma RestartMoves(c: Config, s: State, t: State, k: JobId, st: Status)
    requires t == Restart(s) && k in s.jobs && st != s.jobs[k].status
    ensures k in t.jobs && (t.jobs[k].status == st <==> Gives(c, s, ERestart, k, st))
  {}

  // What the pass after a cancellation skips.
  lemma SweepAfter(s: State, e: Event, id: JobId, k: JobId)
    requires e.ECancel? || e.ESettle?
    requires e.id == id && CancelledBy(s, e, id) && k in s.jobs && k != id
    ensures Doomed(WithStatus(s.jobs, id, Cancelled), k) <==> SkippedBy(s, e, k)
  {
    var updated := WithStatus(s.jobs, id, Cancelled);
    forall d | d in s.jobs ensures Dead(updated[d].status) <==> Dead(s.jobs[d].status) || CancelledBy(s, e, d) {}
  }

  lemma SettleMoves(c: Config, s: State, id: JobId, o: Outcome, t: State, k: JobId, st: Status)
    requires id in s.controllers && id in s.jobs && s.jobs[id].status.Running? && t == Settle(s, id, o)
    requires k in s.jobs && st != s.jobs[k].status
    ensures k in t.jobs && (t.jobs[k].status == st <==> Gives(c, s, ESettle(id, o), k, st))
  {
    if CancelledBy(s, ESettle(id, o), id) && k != id { SweepAfter(s, ESettle(id, o), id, k); }
  }

  lemma CancelMoves(c: Config, s: State, id: JobId, t: State, k: JobId, st: Status)
    requires t == Cancel(s, id) && k in s.jobs && st != s.jobs[k].status
    ensures k in t.jobs && (t.jobs[k].status == st <==> Gives(c, s, ECancel(id), k, st))
  {
    if CancelledBy(s, ECancel(id), id) && k != id { SweepAfter(s, ECancel(id), id, k); }
  }

  lemma FirstIsOldest(jobs: Table, i: Input, id: JobId)
    requires PendingRivals(jobs, i) != {}
    ensures id == First(jobs, PendingRivals(jobs, i)) <==> OldestRival(jobs, i, id)
  {
    var waiting := PendingRivals(jobs, i);
    var first := First(jobs, waiting);
    assert forall k :: k in waiting <==> Rival(jobs, i, k) && jobs[k].status.Pending?;
    assert OldestRival(jobs, i, id) ==> id in waiting;
  }

  lemma FirstMatchRuns(jobs: Table, i: Input)
    requires Matches(jobs, i) != {}
    ensures jobs[First(jobs, Matches(jobs, i))].status.Running? <==>
      exists k :: Rival(jobs, i, k) && jobs[k].status.Running? && Carries(jobs[k], i)
  {
    var matches := Matches(jobs, i);
    var first := First(jobs, matches);
    assert Rival(jobs, i, first) && Carries(jobs[first], i);
    forall k | Rival(jobs, i, k) && jobs[k].status.Running? && Carries(jobs[k], i)
      ensures jobs[first].status.Running?
    {
      assert k in matches && Before(jobs, first, k);
    }
  }

  lemma NoMatchNoneRuns(jobs: Table, i: Input)
    requires Matches(jobs, i) == {}
    ensures forall k :: !(Rival(jobs, i, k) && Carries(jobs[k], i))
  {
    assert forall k :: Rival(jobs, i, k) && Carries(jobs[k], i) ==> k in Matches(jobs, i);
  }

  lemma CoalesceMoves(c: Config, s: State, i: Input, now: int, t: State, k: JobId, st: Status)
    requires WellFormed(s) && t == Coalesce(s, i, now).0 && k in s.jobs && st != s.jobs[k].status
    ensures k in t.jobs && (t.jobs[k].status == st <==> Gives(c, s, ECoalesce(i, now), k, st))
  {
    var waiting := PendingRivals(s.jobs, i);
    assert OldestRival(s.jobs, i, k) ==> k in waiting;
    if waiting != {} { FirstIsOldest(s.jobs, i, k); }
    if Matches(s.jobs, i) != {} {
      FirstMatchRuns(s.jobs, i);
    } else {
      NoMatchNoneRuns(s.jobs, i);
    }
  }

  lemma InsertMoves(s: State, i: Input, now: int, k: JobId)
    requires WellFormed(s) && k in s.jobs
    ensures k in Enqueue(s, i, now).0.jobs && Enqueue(s, i, now).0.jobs[k] == s.jobs[k]
  {}

  lemma CallMoves(c: Config, s: State, e: Event, t: State, id: JobId, st: Status)
    requires WellFormed(s) && Enabled(c, s, e) && t == Apply(c, s, e) && (e.EEnqueue? || e.ERetry? || e.ECoalesce?)
    requires id in s.jobs && st != s.jobs[id].status
    ensures id in t.jobs && (t.jobs[id].status == st <==> Gives(c, s, e, id, st))
  {
    match e
    case EEnqueue(i, now) => InsertMoves(s, i, now, id);
    case ERetry(k, now) => InsertMoves(s, RetryInput(s.jobs[k]), now, id);
    case ECoalesce(i, now) => CoalesceMoves(c, s, i, now, t, id, st);
  }

  /** Every change of status has its cause, and every cause its effect: exactly the unaborted completion
      of a handler makes a job succeed, exactly a dead dependency found by a pass skips it, and so on. */
  lemma StatusMovesExactly(c: Config, s: State, e: Event, t: State, id: JobId, st: Status)
    requires Inv(c, s) && Enabled(c, s, e) && t == Apply(c, s, e)
    requires id in s.jobs && st != s.jobs[id].status
    ensures id in t.jobs && (t.jobs[id].status == st <==> Gives(c, s, e, id, st))
  {
    if e.EEnqueue? || e.ERetry? || e.ECoalesce? {
      CallMoves(c, s, e, t, id, st);
    } else if e.ELaunch? {
      Safety.StartableIsReady(s.jobs, e.id);
      LaunchMoves(c, s, e.id, t, id, st);
    } else if e.ESettle? {
      SettleMoves(c, s, e.id, e.outcome, t, id, st);
    } else if e.ECancel? {
      CancelMoves(c, s, e.id, t, id, st);
    } else if e.ERestart? {
      RestartMoves(c, s, t, id, st);
    } else if e.ESkip? {
      SkipMoves(c, s, t, id, st);
    }
  }

  // ---------- Rows and columns ----------

  ghost predicate KnownDeps(jobs: Table, i: Input) { forall d :: d in i.deps ==> d in jobs }

  // The pending job that a coalescing call redirects.
  ghost predicate Redirects(s: State, e: Event, id: JobId) {
    && e.ECoalesce? && OldestRival(s.jobs, e.input, id) && KnownDeps(s.jobs, e.input) && id !in e.input.deps
    && forall k :: Rival(s.jobs, e.input, k) ==> !Carries(s.jobs[k], e.input)
  }

  // The request behind an event that may add a row.
  ghost function Asked(s: State, e: Event): (i: Option<Input>) {
    match e
    case EEnqueue(i, _) => Some(i)
    case ECoalesce(i, _) => Some(i)
    case ERetry(id, _) =>
      if id in s.jobs then Some(Input(s.jobs[id].kind, s.jobs[id].space, s.jobs[id].repo, s.jobs[id].payload, {}))
      else None
    case _ => None
  }

  // No active job holds the key of a plain request; for a coalesced one no job of the type and space is
  // pending or works on the same input.
  ghost predicate Unserved(s: State, e: Event, i: Input) {
    if e.ECoalesce? then forall k :: Rival(s.jobs, i, k) ==> s.jobs[k].status.Running? && !Carries(s.jobs[k], i)
    else forall k :: k in s.jobs && Active(s.jobs[k].status) ==>
      s.jobs[k].key != Key(i.kind, i.space, i.repo, i.deps, i.payload)
  }

  ghost predicate Adds(s: State, e: Event) {
    var asked := Asked(s, e); asked.Some? && KnownDeps(s.jobs, asked.value) && Unserved(s, e, asked.value)
  }

  // The new row: pending, with the columns of the request.
  ghost predicate FreshRow(job: Job, i: Input, now: int) {
    && job.kind == i.kind && job.space == i.space && job.repo == i.repo && job.payload == i.payload
    && job.status == Pending && job.deps == i.deps && job.createdAt == now
    && job.key == Key(i.kind, i.space, i.repo, i.deps, i.payload)
  }

  // All columns but the status.
  ghost predicate SameColumns(a: Job, b: Job) {
    && b.kind == a.kind && b.space == a.space && b.repo == a.repo && b.payload == a.payload
    && b.createdAt == a.createdAt && b.deps == a.deps && b.key == a.key
  }

  ghost predicate Redirected(a: Job, b: Job, i: Input) {
    && b.kind == a.kind && b.space == a.space && b.repo == a.repo && b.createdAt == a.createdAt
    && b.payload == i.payload && b.deps == i.deps && b.key == Key(i.kind, i.space, i.repo, i.deps, i.payload)
  }

  ghost predicate OldRows(s: State, e: Event, t: State) {
    forall id :: id in s.jobs ==>
      id in t.jobs && if Redirects(s, e, id) then Redirected(s.jobs[id], t.jobs[id], e.input)
                      else SameColumns(s.jobs[id], t.jobs[id])
  }

  ghost predicate NewRows(s: State, e: Event, t: State) {
    && (Adds(s, e) ==> s.nextId in t.jobs && FreshRow(t.jobs[s.nextId], Asked(s, e).value, e.now))
    && t.nextId == s.nextId + (if Adds(s, e) then 1 else 0)
    && forall id :: id in t.jobs && id !in s.jobs ==> id == s.nextId && Adds(s, e)
  }

  lemma EnqueueRows(s: State, e: Event, i: Input, t: State)
    requires WellFormed(s) && (e.EEnqueue? || e.ERetry?) && Asked(s, e) == Some(i) && t == Enqueue(s, i, e.now).0
    ensures OldRows(s, e, t) && NewRows(s, e, t)
  {
    assert (exists id :: HoldsKey(s.jobs, id, KeyOf(i))) <==> !Unserved(s, e, i) by {
      if !Unserved(s, e, i) {
        var k :| k in s.jobs && Active(s.jobs[k].status) && s.jobs[k].key == KeyOf(i);
        assert HoldsKey(s.jobs, k, KeyOf(i));
      }
    }
  }

  // A job that already carries the request answers the call.
  lemma CoalesceMatched(s: State, e: Event, i: Input, t: State)
    requires WellFormed(s) && e.ECoalesce? && i == e.input && t == Coalesce(s, i, e.now).0
    requires Matches(s.jobs, i) != {}
    ensures OldRows(s, e, t) && NewRows(s, e, t)
  {
    var m := First(s.jobs, Matches(s.jobs, i));
    assert Rival(s.jobs, i, m) && Carries(s.jobs[m], i);
    assert !Adds(s, e) && forall k :: !Redirects(s, e, k);
  }

  // The oldest pending rival is redirected, or the constraints on dependencies forbid it.
  lemma CoalesceWaiting(s: State, e: Event, i: Input, t: State)
    requires WellFormed(s) && e.ECoalesce? && i == e.input && t == Coalesce(s, i, e.now).0
    requires Matches(s.jobs, i) == {} && PendingRivals(s.jobs, i) != {}
    ensures OldRows(s, e, t) && NewRows(s, e, t)
  {
    var first := First(s.jobs, PendingRivals(s.jobs, i));
    FirstIsOldest(s.jobs, i, first);
    assert !Adds(s, e);
    NoMatchNoneRuns(s.jobs, i);
    forall k | k in s.jobs ensures Redirects(s, e, k) <==> k == first && i.deps <= s.jobs.Keys && k !in i.deps {
      FirstIsOldest(s.jobs, i, k);
    }
  }

  lemma CoalesceInserts(s: State, e: Event, i: Input, t: State)
    requires WellFormed(s) && e.ECoalesce? && i == e.input && t == Coalesce(s, i, e.now).0
    requires Matches(s.jobs, i) == {} && PendingRivals(s.jobs, i) == {}
    ensures OldRows(s, e, t) && NewRows(s, e, t)
  {
    NoMatchNoneRuns(s.jobs, i);
    assert forall k :: Rival(s.jobs, i, k) && s.jobs[k].status.Pending? ==> k in PendingRivals(s.jobs, i);
    assert Adds(s, e) <==> i.deps <= s.jobs.Keys;
    assert forall k :: !Redirects(s, e, k);
  }

  // Every other event moves statuses alone.
  lemma RunnerRows(s: State, e: Event, t: State)
    requires !e.ECoalesce? && !e.EEnqueue? && !e.ERetry? && t.nextId == s.nextId && Safety.SameRows(s.jobs, t.jobs)
    ensures OldRows(s, e, t) && NewRows(s, e, t)
  {}

  /** What every event writes besides statuses: a redirected row takes over payload, dependencies and key
      of the request, a new row appears exactly for an unserved request over known dependencies, and
      nothing else changes or disappears. */
  lemma RowsMoveExactly(c: Config, s: State, e: Event, t: State)
    requires WellFormed(s) && Enabled(c, s, e) && t == Apply(c, s, e)
    ensures OldRows(s, e, t) && NewRows(s, e, t)
  {
    if e.ECoalesce? {
      var i := e.input;
      if Matches(s.jobs, i) != {} {
        CoalesceMatched(s, e, i, t);
      } else if PendingRivals(s.jobs, i) != {} {
        CoalesceWaiting(s, e, i, t);
      } else {
        CoalesceInserts(s, e, i, t);
      }
    } else if e.EEnqueue? {
      EnqueueRows(s, e, e.input, t);
    } else if e.ERetry? {
      EnqueueRows(s, e, RetryInput(s.jobs[e.id]), t);
    } else {
      Safety.RunnerEventsAdvance(c, s, e, t);
      RunnerRows(s, e, t);
    }
  }

  // ---------- Memory ----------

  // The runs in flight, from their start to their finalisation.
  lemma InflightMovesExactly(c: Config, s: State, e: Event, t: State, id: JobId)
    requires Enabled(c, s, e) && t == Apply(c, s, e)
    ensures id in t.inflight <==> e == ELaunch(id) || (id in s.inflight && e != ERetire(id) && e != ERestart)
  {}

  // A job has a controller from the start of its handler to the end of it, aborted from the first
  // cancellation on.
  lemma ControllersMoveExactly(c: Config, s: State, e: Event, t: State, id: JobId)
    requires Bookkeeping(c, s) && Enabled(c, s, e) && t == Apply(c, s, e)
    ensures id in t.controllers <==>
      (e == ELaunch(id) && s.jobs[id].kind in c.handlers)
      || (id in s.controllers && !(e.ESettle? && e.id == id) && e != ERestart)
    ensures id in t.controllers ==>
      (t.controllers[id] <==> id in s.controllers && (s.controllers[id] || e == ECancel(id)))
  {
    if e.ELaunch? { Safety.StartableIsReady(s.jobs, e.id); }
  }

  // ---------- Runs ----------

  // Somewhere in the run the job's handler completes with its controller not aborted.
  ghost predicate Completes(c: Config, s: State, es: seq<Event>, id: JobId)
    requires Possible(c, s, es)
    decreases |es|
  {
    && es != []
    && ((es[0] == ESettle(id, Completed) && !s.controllers[id]) || Completes(c, Apply(c, s, es[0]), es[1..], id))
  }

  lemma Stays(c: Config, s: State, e: Event, t: State, id: JobId)
    requires Inv(c, s) && Enabled(c, s, e) && t == Apply(c, s, e)
    requires id in s.jobs && forall st :: !Gives(c, s, e, id, st)
    ensures id in t.jobs && t.jobs[id].status == s.jobs[id].status
  {
    RowsMoveExactly(c, s, e, t);
    var after := t.jobs[id].status;
    if after != s.jobs[id].status { StatusMovesExactly(c, s, e, t, id, after); }
  }

  // Succeeded and cancelled jobs are left alone, and so is a running one until its handler settles.
  lemma NothingGiven(c: Config, s: State, e: Event, id: JobId)
    requires Bookkeeping(c, s) && Enabled(c, s, e) && id in s.jobs && !s.jobs[id].status.Pending?
    requires s.jobs[id].status.Running? ==> e != ERestart && !(e.ESettle? && e.id == id)
    ensures forall st :: !Gives(c, s, e, id, st)
  {
    if e.ELaunch? { Safety.StartableIsReady(s.jobs, e.id); }
  }

  // One event: success is reached by an unaborted completion alone, and kept.
  lemma StepSucceedsExactly(c: Config, s: State, e: Event, t: State, id: JobId)
    requires Inv(c, s) && Enabled(c, s, e) && t == Apply(c, s, e)
    ensures HasStatus(t.jobs, id, Succeeded) <==>
      HasStatus(s.jobs, id, Succeeded) || (e == ESettle(id, Completed) && !s.controllers[id])
  {
    if id !in s.jobs {
      RowsMoveExactly(c, s, e, t);
    } else if s.jobs[id].status.Succeeded? {
      NothingGiven(c, s, e, id);
      Stays(c, s, e, t, id);
    } else {
      StatusMovesExactly(c, s, e, t, id, Succeeded);
    }
  }

  /** Over every run: a job has succeeded if and only if its handler has completed without an abort. */
  lemma {:induction false} SucceedsExactly(c: Config, s: State, es: seq<Event>, id: JobId)
    requires Inv(c, s) && Possible(c, s, es)
    ensures HasStatus(Run(c, s, es).jobs, id, Succeeded) <==>
      HasStatus(s.jobs, id, Succeeded) || Completes(c, s, es, id)
    decreases |es|
  {
    if es != [] {
      var t := Apply(c, s, es[0]);
      StepSucceedsExactly(c, s, es[0], t, id);
      Safety.EventKeepsInv(c, s, es[0]);
      SucceedsExactly(c, t, es[1..], id);
    }
  }

  ghost predicate Aborting(s: State, id: JobId) {
    HasStatus(s.jobs, id, Running) && id in s.controllers && s.controllers[id]
  }

  // However its handler ends, an aborted job is cancelled; until then it stays as it is.
  lemma AbortingStep(c: Config, s: State, e: Event, t: State, id: JobId)
    requires Inv(c, s) && Enabled(c, s, e) && t == Apply(c, s, e) && Aborting(s, id) && e != ERestart
    ensures if e.ESettle? && e.id == id then HasStatus(t.jobs, id, Cancelled) else Aborting(t, id)
  {
    if e.ESettle? && e.id == id {
      StatusMovesExactly(c, s, e, t, id, Cancelled);
    } else {
      ControllersMoveExactly(c, s, e, t, id);
      NothingGiven(c, s, e, id);
      Stays(c, s, e, t, id);
    }
  }

  lemma CancelledStays(c: Config, s: State, e: Event, t: State, id: JobId)
    requires Inv(c, s) && Enabled(c, s, e) && t == Apply(c, s, e) && HasStatus(s.jobs, id, Cancelled)
    ensures HasStatus(t.jobs, id, Cancelled)
  {
    NothingGiven(c, s, e, id);
    Stays(c, s, e, t, id);
  }

  ghost predicate Settles(es: seq<Event>, id: JobId) {
    exists k :: 0 <= k < |es| && es[k].ESettle? && es[k].id == id
  }

  lemma SettlesTail(es: seq<Event>, id: JobId)
    requires es != []
    ensures Settles(es, id) <==> (es[0].ESettle? && es[0].id == id) || Settles(es[1..], id)
  {
    if k :| 0 <= k < |es[1..]| && es[1..][k].ESettle? && es[1..][k].id == id {
      assert es[k + 1] == es[1..][k];
    }
    if k :| 0 < k < |es| && es[k].ESettle? && es[k].id == id {
      assert es[1..][k - 1] == es[k];
    }
  }

  lemma {:induction false} AbortEnds(c: Config, s: State, es: seq<Event>, id: JobId)
    requires Inv(c, s) && Possible(c, s, es) && ERestart !in es
    requires Aborting(s, id) || HasStatus(s.jobs, id, Cancelled)
    ensures HasStatus(s.jobs, id, Cancelled) || Settles(es, id) ==> HasStatus(Run(c, s, es).jobs, id, Cancelled)
    ensures !HasStatus(s.jobs, id, Cancelled) && !Settles(es, id) ==> Aborting(Run(c, s, es), id)
    decreases |es|
  {
    if es != [] {
      var t := Apply(c, s, es[0]);
      if HasStatus(s.jobs, id, Cancelled) {
        CancelledStays(c, s, es[0], t, id);
      } else {
        AbortingStep(c, s, es[0], t, id);
      }
      Safety.EventKeepsInv(c, s, es[0]);
      SettlesTail(es, id);
      AbortEnds(c, t, es[1..], id);
    }
  }

  /** A running job that is cancelled neither succeeds nor fails while the process lives: it keeps running,
      aborted, until its handler settles, and is cancelled from then on. */
  lemma CancelEnds(c: Config, s: State, es: seq<Event>, id: JobId)
    requires Inv(c, s) && HasStatus(s.jobs, id, Running)
    requires Possible(c, Apply(c, s, ECancel(id)), es) && ERestart !in es
    ensures var t := Run(c, Apply(c, s, ECancel(id)), es);
      if Settles(es, id) then HasStatus(t.jobs, id, Cancelled)
      else HasStatus(t.jobs, id, Running) && id in t.controllers && t.controllers[id]
  {
    Safety.EventKeepsInv(c, s, ECancel(id));
    AbortEnds(c, Apply(c, s, ECancel(id)), es, id);
  }
}
