/**
 When the job runner can deadlock at all: the calls that tie a dependency cycle, and the idle tables
 in which nothing can move.
 */
module JobCycles {
  import opened Jobs
  import opened JobGraph
  import opened JobWindows

  ghost predicate Loop(jobs: Table, path: seq<JobId>) {
    Path(jobs, path) && |path| >= 2 && path[0] == path[|path| - 1]
  }

  ghost predicate Cyclic(jobs: Table) { exists path :: Loop(jobs, path) }

  // ---------- Paths and single rows ----------

  // Two tables that agree on the dependencies of every job but one.
  ghost predicate AgreeExcept(a: Table, b: Table, id: JobId) {
    a.Keys == b.Keys && forall k :: k in a && k != id ==> b[k].deps == a[k].deps
  }

  lemma {:induction false} FirstHit(path: seq<JobId>, id: JobId) returns (n: nat)
    requires id in path
    ensures n < |path| && path[n] == id && id !in path[..n]
  {
    if path[0] == id {
      n := 0;
    } else {
      assert path == [path[0]] + path[1..];
      n := FirstHit(path[1..], id);
      assert path[..n + 1] == [path[0]] + path[1..][..n];
      n := n + 1;
    }
  }

  // A path that leaves the odd row out, except perhaps as its end, exists in both tables.
  lemma PathCarries(a: Table, b: Table, id: JobId, path: seq<JobId>)
    requires AgreeExcept(a, b, id) && Path(a, path) && id !in path[..|path| - 1]
    ensures Path(b, path)
  {
    forall n | 0 <= n < |path| - 1 ensures path[n + 1] in b[path[n]].deps {
      assert path[n] == path[..|path| - 1][n];
    }
  }

  lemma PathPrefix(jobs: Table, path: seq<JobId>, n: nat)
    requires Path(jobs, path) && n < |path|
    ensures Path(jobs, path[..n + 1])
  {
  }

  // What reaches the odd row does so in both tables.
  lemma ReachCarries(a: Table, b: Table, id: JobId, from: JobId)
    requires AgreeExcept(a, b, id) && Reaches(a, from, id)
    ensures Reaches(b, from, id)
  {
    var path :| Path(a, path) && path[0] == from && path[|path| - 1] == id;
    var n := FirstHit(path, id);
    var front := path[..n + 1];
    PathPrefix(a, path, n);
    assert front[..n] == path[..n];
    PathCarries(a, b, id, front);
    assert front[0] == from && front[|front| - 1] == id;
  }

  lemma LoopCloses(jobs: Table, id: JobId, d: JobId)
    requires id in jobs && d in jobs[id].deps && Reaches(jobs, d, id)
    ensures Cyclic(jobs)
  {
    var path :| Path(jobs, path) && path[0] == d && path[|path| - 1] == id;
    assert Loop(jobs, [id] + path);
  }

  // A loop read from the step after its m-th node on.
  lemma Rotate(jobs: Table, path: seq<JobId>, m: nat)
    requires Loop(jobs, path) && m < |path| - 1
    ensures path[m + 1] in jobs[path[m]].deps && Reaches(jobs, path[m + 1], path[m])
  {
    var turned := path[m + 1..] + path[1..m + 1];
    forall n | 0 <= n < |turned| ensures turned[n] in jobs {
      assert turned[n] in path;
    }
    forall n | 0 <= n < |turned| - 1 ensures turned[n + 1] in jobs[turned[n]].deps {
      var k := if n < |path| - m - 1 then n + m + 1 else n - (|path| - m - 1) + 1;
      assert turned[n] == path[k];
      assert k == |path| - 1 ==> path[k] == path[0] && turned[n + 1] == path[1];
      assert k < |path| - 1 ==> turned[n + 1] == path[k + 1];
    }
    assert Path(jobs, turned) && turned[0] == path[m + 1] && turned[|turned| - 1] == path[m];
  }

  lemma LoopCarries(a: Table, b: Table, id: JobId, path: seq<JobId>)
    requires AgreeExcept(a, b, id) && Loop(b, path) && id !in path[..|path| - 1]
    ensures Cyclic(a)
  {
    PathCarries(b, a, id, path);
    assert Loop(a, path);
  }

  /** Rewriting the dependencies of one job of an acyclic table ties a cycle exactly when the job was
      already reachable from one of its new dependencies. */
  lemma RewireTiesCycle(a: Table, b: Table, id: JobId)
    requires !Cyclic(a) && AgreeExcept(a, b, id) && id in b
    ensures Cyclic(b) <==> exists d :: d in b[id].deps && Reaches(a, d, id)
  {
    if path :| Loop(b, path) {
      if id in path[..|path| - 1] {
        var m := FirstHit(path[..|path| - 1], id);
        assert path[m] == id;
        Rotate(b, path, m);
        ReachCarries(b, a, id, path[m + 1]);
      } else {
        LoopCarries(a, b, id, path);
      }
    }
    if d :| d in b[id].deps && Reaches(a, d, id) {
      ReachCarries(a, b, id, d);
      LoopCloses(b, id, d);
    }
  }

  // ---------- enqueueCoalesced ----------

  // The branch that gives a waiting job new dependencies.
  ghost predicate Rewires(s: State, i: Input) {
    && Matches(s.jobs, i) == {} && PendingRivals(s.jobs, i) != {}
    && i.deps <= s.jobs.Keys && First(s.jobs, PendingRivals(s.jobs, i)) !in i.deps
  }

  // What a caller can check: some requested dependency already waits for the job about to be rewired.
  ghost predicate Tangles(s: State, i: Input) {
    Rewires(s, i) && exists d :: d in i.deps && Reaches(s.jobs, d, First(s.jobs, PendingRivals(s.jobs, i)))
  }

  ghost predicate SameDeps(a: Table, b: Table) {
    a.Keys == b.Keys && forall k :: k in a ==> b[k].deps == a[k].deps
  }

  lemma SameDepsSameLoops(a: Table, b: Table)
    requires SameDeps(a, b)
    ensures Cyclic(a) <==> Cyclic(b)
  {
    if path :| Loop(a, path) { assert Loop(b, path); }
    if path :| Loop(b, path) { assert Loop(a, path); }
  }

  lemma NewRowAddsNoLoop(s: State, i: Input, now: int)
    requires WellFormed(s) && i.deps <= s.jobs.Keys
    ensures Cyclic(Insert(s, i, now).jobs) ==> Cyclic(s.jobs)
  {
    var t := Insert(s, i, now).jobs;
    if path :| Loop(t, path) {
      forall n | 0 <= n < |path| ensures path[n] in s.jobs {
        var m := if n == 0 then |path| - 1 else n;
        assert path[m] in t[path[m - 1]].deps && t[path[m - 1]].deps <= s.jobs.Keys;
      }
      assert Loop(s.jobs, path);
    }
  }

  /** From an acyclic table enqueueCoalesced leads to a cyclic one if and only if it rewires a waiting
      job that a requested dependency already reaches. */
  lemma CoalesceTiesCycle(s: State, i: Input, now: int)
    requires WellFormed(s) && !Cyclic(s.jobs)
    ensures Cyclic(Coalesce(s, i, now).0.jobs) <==> Tangles(s, i)
  {
    var t := Coalesce(s, i, now).0.jobs;
    if Rewires(s, i) {
      RewireTiesCycle(s.jobs, t, First(s.jobs, PendingRivals(s.jobs, i)));
    } else if t.Keys == s.jobs.Keys {
      SameDepsSameLoops(s.jobs, t);
    } else {
      NewRowAddsNoLoop(s, i, now);
    }
  }

  /** enqueue never ties a cycle. */
  lemma EnqueueTiesNone(s: State, i: Input, now: int)
    requires WellFormed(s) && !Cyclic(s.jobs)
    ensures !Cyclic(Enqueue(s, i, now).0.jobs)
  {
    if Enqueue(s, i, now).0 != s { NewRowAddsNoLoop(s, i, now); }
  }

  // ---------- Idle tables ----------

  // A pending job with nothing left to wait for.
  ghost predicate Released(jobs: Table, id: JobId) {
    && id in jobs && jobs[id].status.Pending?
    && (Doomed(jobs, id) || forall d :: d in jobs[id].deps ==> !HasStatus(jobs, d, Pending))
  }

  ghost predicate CanMove(jobs: Table) {
    (exists id :: Doomed(jobs, id)) || ((exists id :: CanStart(jobs, id)) && !Stuck(jobs))
  }

  /** With nothing in flight the scheduler can skip or start some job if and only if some pending job has
      a dead dependency or no pending one. */
  lemma IdleMovesExactly(c: Config, s: State)
    requires Inv(c, s) && s.inflight == {}
    ensures CanMove(s.jobs) <==> exists id :: Released(s.jobs, id)
  {
    if id :| Doomed(s.jobs, id) { assert Released(s.jobs, id); }
    if id :| CanStart(s.jobs, id) {
      var w :| Window(s.jobs, w) && FirstUnblocked(s.jobs, w, id);
      assert Ready(s.jobs, id);
      assert Released(s.jobs, id);
    }
    if id :| Released(s.jobs, id) && !Doomed(s.jobs, id) {
      forall d | d in s.jobs[id].deps && d in s.jobs ensures s.jobs[d].status.Succeeded? {
        assert !HasStatus(s.jobs, d, Pending);
      }
      assert Ready(s.jobs, id);
      var next := IdleStarts(s.jobs, id);
    }
  }

  // A path of n + 1 pending jobs, when every pending job waits for another.
  lemma {:induction false} LongWait(jobs: Table, id: JobId, n: nat) returns (path: seq<JobId>)
    requires forall k :: k in PendingJobs(jobs) ==> WaitsForPending(jobs, k)
    requires id in PendingJobs(jobs)
    ensures |path| == n + 1 && path[0] == id && Path(jobs, path)
    ensures forall k :: k in path ==> k in PendingJobs(jobs)
    decreases n
  {
    if n == 0 {
      path := [id];
    } else {
      assert WaitsForPending(jobs, id);
      var d :| d in jobs[id].deps && d in PendingJobs(jobs);
      var rest := LongWait(jobs, d, n - 1);
      path := [id] + rest;
    }
  }

  ghost predicate WaitsForPending(jobs: Table, id: JobId)
    requires id in jobs
  {
    exists d :: d in jobs[id].deps && d in PendingJobs(jobs)
  }

  lemma {:induction false} Repeats(path: seq<JobId>, ids: set<JobId>) returns (m: nat, n: nat)
    requires |path| > |ids| && forall k :: k in path ==> k in ids
    ensures m < n < |path| && path[m] == path[n]
  {
    var last := |path| - 1;
    if path[last] in path[..last] {
      m := FirstHit(path[..last], path[last]);
      n := last;
    } else {
      assert |ids - {path[last]}| == |ids| - 1;
      m, n := Repeats(path[..last], ids - {path[last]});
    }
  }

  lemma AllWaitingIsCyclic(jobs: Table)
    requires PendingJobs(jobs) != {}
    requires forall k :: k in PendingJobs(jobs) ==> WaitsForPending(jobs, k)
    ensures Cyclic(jobs)
  {
    var id :| id in PendingJobs(jobs);
    var path := LongWait(jobs, id, |PendingJobs(jobs)|);
    var m, n := Repeats(path, PendingJobs(jobs));
    assert Loop(jobs, path[m..n + 1]);
  }

  /** An acyclic table with pending work always has a pending job with nothing left to wait for. */
  lemma AcyclicReleases(jobs: Table)
    requires !Cyclic(jobs) && PendingJobs(jobs) != {}
    ensures exists id :: Released(jobs, id)
  {
    if forall k :: k in PendingJobs(jobs) ==> WaitsForPending(jobs, k) { AllWaitingIsCyclic(jobs); }
    var k :| k in PendingJobs(jobs) && !WaitsForPending(jobs, k);
    forall d | d in jobs[k].deps ensures !HasStatus(jobs, d, Pending) {
      assert HasStatus(jobs, d, Pending) ==> d in PendingJobs(jobs);
    }
    assert Released(jobs, k);
  }

  /** The pipeline's discipline is one way to stay acyclic. */
  lemma DisciplineIsAcyclic(jobs: Table)
    requires Acyclic(jobs)
    ensures !Cyclic(jobs)
  {
    if path :| Loop(jobs, path) {
      forall n | 0 <= n < |path| ensures jobs[path[n]].kind != REBUILD {
        var m := if n == 0 then |path| - 1 else n;
        assert path[m] in jobs[path[m - 1]].deps && NoRebuild(jobs, jobs[path[m - 1]].deps);
      }
      LoopDescends(jobs, path, |path| - 1);
    }
  }

  lemma {:induction false} LoopDescends(jobs: Table, path: seq<JobId>, n: nat)
    requires Path(jobs, path) && 0 < n < |path|
    requires forall k, d :: k in path && d in jobs[k].deps ==> d < k
    ensures path[n] < path[0]
  {
    assert path[n - 1] in path && path[n] in jobs[path[n - 1]].deps;
    if n > 1 { LoopDescends(jobs, path, n - 1); }
  }
}
