/** The candidate windows of the scheduler's query: they exist, and an idle one starts its head. */
module JobWindows {
  import opened Wrappers
  import opened Jobs

  function PendingJobs(jobs: Table): set<JobId> { set id | id in jobs && jobs[id].status.Pending? }

  ghost predicate Oldest(jobs: Table, ids: set<JobId>, id: JobId)
    requires ids <= jobs.Keys
  {
    id in ids && forall k :: k in ids ==> jobs[id].createdAt <= jobs[k].createdAt
  }

  lemma {:induction false} OldestExists(jobs: Table, ids: set<JobId>) returns (id: JobId)
    requires ids != {} && ids <= jobs.Keys
    ensures Oldest(jobs, ids, id)
    decreases ids
  {
    var a :| a in ids;
    id := a;
    if ids != {a} {
      var b := OldestExists(jobs, ids - {a});
      assert forall k :: k in ids ==> k == a || k in ids - {a};
      if jobs[b].createdAt < jobs[a].createdAt { id := b; }
    }
  }

  ghost predicate Prefix(jobs: Table, ready: set<JobId>, w: set<JobId>)
    requires ready <= jobs.Keys
  {
    w <= ready && forall a, b :: a in w && b in ready - w ==> jobs[a].createdAt <= jobs[b].createdAt
  }

  // Every oldest-first prefix has an extension of every size.
  lemma {:induction false} ExtendPrefix(jobs: Table, ready: set<JobId>, v: set<JobId>, n: nat)
    returns (w: set<JobId>)
    requires ready <= jobs.Keys && |v| <= n <= |ready| && Prefix(jobs, ready, v)
    ensures Prefix(jobs, ready, w) && |w| == n && v <= w
    decreases n - |v|
  {
    w := v;
    if |v| < n {
      assert ready - v != {} by { if ready <= v { SubsetSize(ready, v); } }
      var id := OldestExists(jobs, ready - v);
      assert |v + {id}| == |v| + 1;
      w := ExtendPrefix(jobs, ready, v + {id}, n);
    }
  }

  // So the candidate query always has an answer.
  lemma PrefixExists(jobs: Table, ready: set<JobId>, n: nat) returns (w: set<JobId>)
    requires ready <= jobs.Keys && n <= |ready|
    ensures Prefix(jobs, ready, w) && |w| == n
  {
    w := ExtendPrefix(jobs, ready, {}, n);
  }

  lemma WindowExists(jobs: Table) returns (w: set<JobId>)
    ensures Window(jobs, w) && (ReadySet(jobs) != {} ==> w != {})
  {
    var ready := ReadySet(jobs);
    w := PrefixExists(jobs, ready, if |ready| < CANDIDATE_LIMIT then |ready| else CANDIDATE_LIMIT);
  }

  // With nothing running nothing is blocked, so the oldest candidate starts.
  lemma IdleStarts(jobs: Table, id: JobId) returns (next: JobId)
    requires Ready(jobs, id) && (forall r :: r in jobs ==> !jobs[r].status.Running?)
    ensures CanStart(jobs, next) && !Stuck(jobs)
  {
    assert id in ReadySet(jobs);
    var w := WindowExists(jobs);
    next := OldestExists(jobs, w);
    assert FirstUnblocked(jobs, w, next);
    forall v | Window(jobs, v) ensures exists k :: k in v && !Blocked(jobs, k) {
      assert v != {};
      var k :| k in v;
      assert !Blocked(jobs, k);
    }
  }

  // ---------- Which job a tick starts next ----------

  // Ready jobs that are strictly older.
  function Older(jobs: Table, id: JobId): set<JobId>
    requires id in jobs
  {
    set k | k in ReadySet(jobs) && jobs[k].createdAt < jobs[id].createdAt
  }

  // Blocked ready jobs that are no younger.
  function BlockedAhead(jobs: Table, id: JobId): set<JobId>
    requires id in jobs
  {
    set k | k in ReadySet(jobs) && Blocked(jobs, k) && jobs[k].createdAt <= jobs[id].createdAt
  }

  ghost predicate IsNext(jobs: Table, id: JobId) {
    && Ready(jobs, id) && !Blocked(jobs, id)
    && |Older(jobs, id)| < 20 && AllBlocked(jobs, Older(jobs, id))
  }

  lemma StartsFirst(jobs: Table, id: JobId)
    requires CanStart(jobs, id)
    ensures IsNext(jobs, id)
  {
    var w :| Window(jobs, w) && FirstUnblocked(jobs, w, id);
    var older := Older(jobs, id);
    assert older <= w - {id};
    SubsetSize(older, w - {id});
    assert |w - {id}| == |w| - 1;
  }

  lemma FirstStarts(jobs: Table, id: JobId)
    requires IsNext(jobs, id)
    ensures CanStart(jobs, id)
  {
    var ready, v := ReadySet(jobs), Older(jobs, id) + {id};
    assert |v| == |Older(jobs, id)| + 1 && v <= ready;
    SubsetSize(v, ready);
    var w := ExtendPrefix(jobs, ready, v, if |ready| < 20 then |ready| else 20);
    assert Window(jobs, w) && FirstUnblocked(jobs, w, id);
  }

  /** A job can be the next one if and only if it is ready and unblocked, fewer than 20 ready jobs are older,
      and all of those are blocked. */
  lemma CanStartExactly(jobs: Table, id: JobId)
    ensures CanStart(jobs, id) <==> IsNext(jobs, id)
  {
    if CanStart(jobs, id) {
      StartsFirst(jobs, id);
    } else if IsNext(jobs, id) {
      FirstStarts(jobs, id);
    }
  }

  lemma StuckHides(jobs: Table, id: JobId)
    requires Stuck(jobs) && Ready(jobs, id) && !Blocked(jobs, id)
    ensures |BlockedAhead(jobs, id)| >= 20
  {
    var ready := ReadySet(jobs);
    var w :| Window(jobs, w) && AllBlocked(jobs, w);
    assert id in ready && id !in w;
    assert |w| == 20 by { if |ready| <= |w| { SubsetSize(w, ready - {id}); } }
    forall k | k in w ensures k in BlockedAhead(jobs, id) { assert Blocked(jobs, k); }
    SubsetSize(w, BlockedAhead(jobs, id));
  }

  lemma HiddenIsStuck(jobs: Table)
    requires forall id :: Ready(jobs, id) && !Blocked(jobs, id) ==> |BlockedAhead(jobs, id)| >= 20
    ensures Stuck(jobs)
  {
    var ready := ReadySet(jobs);
    var free := set id | id in ready && !Blocked(jobs, id);
    if free == {} {
      var w := WindowExists(jobs);
      forall k | k in w ensures Blocked(jobs, k) { assert k !in free; }
      assert AllBlocked(jobs, w);
    } else {
      var u := OldestExists(jobs, free);
      var ahead := BlockedAhead(jobs, u);
      assert Ready(jobs, u);
      var w := PrefixExists(jobs, ahead, 20);
      SubsetSize(ahead, ready);
      assert Prefix(jobs, ready, w);
      assert Window(jobs, w) && AllBlocked(jobs, w);
    }
  }

  /** A tick finds nothing to start if and only if every job it could start is hidden behind 20 blocked
      candidates no younger than it. */
  lemma StuckExactly(jobs: Table)
    ensures Stuck(jobs) <==> forall id :: Ready(jobs, id) && !Blocked(jobs, id) ==> |BlockedAhead(jobs, id)| >= 20
  {
    if Stuck(jobs) {
      forall id | Ready(jobs, id) && !Blocked(jobs, id) ensures |BlockedAhead(jobs, id)| >= 20 {
        StuckHides(jobs, id);
      }
    } else if forall id :: Ready(jobs, id) && !Blocked(jobs, id) ==> |BlockedAhead(jobs, id)| >= 20 {
      HiddenIsStuck(jobs);
    }
  }
}
