/**
 The job table of apps/api/src/services/jobRunner.ts as a state machine.

 A state holds the `jobs` and `job_dependencies` tables together with the runner's in-memory
 bookkeeping.  Every stretch of code between two awaits is one event; the interleavings of the
 original are the event sequences.  Ids are fresh distinct values, modelled as creation numbers,
 and a deduplication key is the tuple it hashes.
 */
module Jobs {
  import opened Wrappers
  import Texts

  type JobId = nat

  datatype Status = Pending | Running | Succeeded | Failed | Skipped | Cancelled

  predicate Active(st: Status) { st.Pending? || st.Running? }

  predicate Dead(st: Status) { st.Failed? || st.Skipped? || st.Cancelled? }

  // A canonical payload; a coalesced job carries its input fingerprint inside the payload.
  datatype Payload = Payload(body: string, fingerprint: Option<string>)

  // The payload of a coalesced job: its fingerprint is there and not blank.
  predicate IsStamped(p: Payload) { p.fingerprint.Some? && !Texts.IsBlank(p.fingerprint.value) }

  datatype Key = Key(kind: string, space: Option<string>, repo: Option<string>, deps: set<JobId>, payload: Payload)

  datatype Job = Job(kind: string, status: Status, space: Option<string>, repo: Option<string>,
                     payload: Payload, createdAt: int, deps: set<JobId>, key: Key)

  type Table = map<JobId, Job>

  // `inflight` are the jobs whose run() promise has not been finalised (activeJobs is their
  // number); `controllers` maps each job with a live abort controller to its aborted flag.
  datatype State = State(jobs: Table, nextId: JobId, inflight: set<JobId>, controllers: map<JobId, bool>)

  datatype Config = Config(concurrency: nat, handlers: set<string>)

  const EMPTY := State(map[], 0, {}, map[])

  const CANDIDATE_LIMIT: nat := 20

  // ---------- Queries ----------

  ghost predicate HasStatus(jobs: Table, id: JobId, st: Status) { id in jobs && jobs[id].status == st }

  predicate IsActive(jobs: Table, id: JobId) { id in jobs && Active(jobs[id].status) }

  predicate Doomed(jobs: Table, id: JobId) {
    id in jobs && jobs[id].status.Pending? && exists d :: d in jobs[id].deps && d in jobs && Dead(jobs[d].status)
  }

  predicate Ready(jobs: Table, id: JobId) {
    id in jobs && jobs[id].status.Pending? && forall d :: d in jobs[id].deps && d in jobs ==> jobs[d].status.Succeeded?
  }

  predicate Blocked(jobs: Table, id: JobId)
    requires id in jobs
  {
    var job := jobs[id];
    if job.repo.Some? && exists r :: r in jobs && jobs[r].status.Running? && jobs[r].repo == job.repo then true
    else if job.space.None? then false
    else if job.repo.Some? then
      exists r :: r in jobs && jobs[r].status.Running? && jobs[r].space == job.space && jobs[r].repo.None?
    else exists r :: r in jobs && jobs[r].status.Running? && jobs[r].space == job.space
  }

  function ReadySet(jobs: Table): set<JobId> { set id | id in jobs && Ready(jobs, id) }

  // The rows ORDER BY created_at LIMIT 20 may return: ties in created_at may fall either way.
  ghost predicate Window(jobs: Table, w: set<JobId>) {
    var ready := ReadySet(jobs);
    && w <= ready
    && |w| == (if |ready| < CANDIDATE_LIMIT then |ready| else CANDIDATE_LIMIT)
    && forall a, b :: a in w && b in ready - w ==> jobs[a].createdAt <= jobs[b].createdAt
  }

  ghost predicate FirstUnblocked(jobs: Table, w: set<JobId>, id: JobId)
    requires w <= jobs.Keys
  {
    id in w && !Blocked(jobs, id) && forall k :: k in w && !Blocked(jobs, k) ==> jobs[id].createdAt <= jobs[k].createdAt
  }

  ghost predicate CanStart(jobs: Table, id: JobId) {
    exists w :: Window(jobs, w) && FirstUnblocked(jobs, w, id)
  }

  ghost predicate AllBlocked(jobs: Table, ids: set<JobId>) { forall k :: k in ids ==> k in jobs && Blocked(jobs, k) }

  ghost predicate Stuck(jobs: Table) { exists w :: Window(jobs, w) && AllBlocked(jobs, w) }

  // ---------- Updates ----------

  function WithStatus(jobs: Table, id: JobId, st: Status): Table
    requires id in jobs
  {
    jobs[id := jobs[id].(status := st)]
  }

  // One level of skip propagation: the victims are selected before any row changes.
  function SkipDoomed(jobs: Table): Table {
    map id | id in jobs :: if Doomed(jobs, id) then jobs[id].(status := Skipped) else jobs[id]
  }

  function Launch(c: Config, s: State, id: JobId): State
    requires id in s.jobs
  {
    if s.jobs[id].kind in c.handlers then
      s.(jobs := WithStatus(s.jobs, id, Running), inflight := s.inflight + {id},
         controllers := s.controllers[id := false])
    else
      s.(jobs := WithStatus(s.jobs, id, Failed), inflight := s.inflight + {id})
  }

  // How a handler's promise settles; an error may or may not look like an abort.
  datatype Outcome = Completed | Threw(abortLike: bool)

  function FinalStatus(aborted: bool, o: Outcome): Status {
    if aborted || (o.Threw? && o.abortLike) then Cancelled else if o.Completed? then Succeeded else Failed
  }

  function Settle(s: State, id: JobId, o: Outcome): State
    requires id in s.controllers
  {
    var jobs :=
      if id in s.jobs && s.jobs[id].status.Running? then
        var final := FinalStatus(s.controllers[id], o);
        var updated := WithStatus(s.jobs, id, final);
        if final.Cancelled? then SkipDoomed(updated) else updated
      else s.jobs;
    s.(jobs := jobs, controllers := s.controllers - {id})
  }

  function Retire(s: State, id: JobId): State { s.(inflight := s.inflight - {id}) }

  datatype Input = Input(kind: string, space: Option<string>, repo: Option<string>, payload: Payload, deps: set<JobId>)

  function KeyOf(i: Input): Key { Key(i.kind, i.space, i.repo, i.deps, i.payload) }

  function NewJob(i: Input, now: int): Job {
    Job(i.kind, Pending, i.space, i.repo, i.payload, now, i.deps, KeyOf(i))
  }

  function Insert(s: State, i: Input, now: int): State {
    s.(jobs := s.jobs[s.nextId := NewJob(i, now)], nextId := s.nextId + 1)
  }

  predicate HoldsKey(jobs: Table, id: JobId, key: Key) { IsActive(jobs, id) && jobs[id].key == key }

  // The job an insert-or-reuse call answers with, or Rejected when a foreign key or the
  // CHECK (job_id <> dependency_job_id) constraint rolls the transaction back.
  datatype Answer = Accepted(job: JobId) | Rejected

  ghost function Enqueue(s: State, i: Input, now: int): (State, Answer) {
    if exists id :: HoldsKey(s.jobs, id, KeyOf(i)) then
      var id :| HoldsKey(s.jobs, id, KeyOf(i));
      (s, Accepted(id))
    else if i.deps <= s.jobs.Keys then (Insert(s, i, now), Accepted(s.nextId))
    else (s, Rejected)
  }

  // Order of the active rows in enqueueCoalesced: running first, then created_at, then id.
  predicate Before(jobs: Table, a: JobId, b: JobId)
    requires a in jobs && b in jobs
  {
    if jobs[a].status.Running? != jobs[b].status.Running? then jobs[a].status.Running?
    else if jobs[a].createdAt != jobs[b].createdAt then jobs[a].createdAt < jobs[b].createdAt
    else a <= b
  }

  ghost predicate IsFirst(jobs: Table, ids: set<JobId>, id: JobId)
    requires ids <= jobs.Keys
  {
    id in ids && forall k :: k in ids ==> Before(jobs, id, k)
  }

  lemma {:induction false} FirstExists(jobs: Table, ids: set<JobId>) returns (id: JobId)
    requires ids != {} && ids <= jobs.Keys
    ensures IsFirst(jobs, ids, id)
    decreases ids
  {
    var a :| a in ids;
    if ids == {a} {
      id := a;
    } else {
      var b := FirstExists(jobs, ids - {a});
      id := if Before(jobs, a, b) then a else b;
      assert forall k :: k in ids ==> k == a || k in ids - {a};
    }
  }

  ghost function First(jobs: Table, ids: set<JobId>): (id: JobId)
    requires ids != {} && ids <= jobs.Keys
    ensures IsFirst(jobs, ids, id)
  {
    assert exists id :: IsFirst(jobs, ids, id) by { var id := FirstExists(jobs, ids); }
    var id :| IsFirst(jobs, ids, id);
    id
  }

  // Active jobs of the same type and space, those already matching the request, and the pending ones.
  function Rivals(jobs: Table, i: Input): set<JobId> {
    set id | id in jobs && IsActive(jobs, id) && jobs[id].kind == i.kind && jobs[id].space == i.space
  }

  function Matches(jobs: Table, i: Input): set<JobId> {
    set id | id in Rivals(jobs, i) && jobs[id].payload == i.payload && jobs[id].deps == i.deps
  }

  function PendingRivals(jobs: Table, i: Input): set<JobId> {
    set id | id in Rivals(jobs, i) && jobs[id].status.Pending?
  }

  // The request whose payload carries the fingerprint.
  function Stamped(i: Input, fingerprint: string): Input {
    i.(payload := i.payload.(fingerprint := Some(fingerprint)))
  }

  function Rewire(job: Job, i: Input): Job {
    job.(payload := i.payload, deps := i.deps, key := KeyOf(i))
  }

  ghost function Coalesce(s: State, i: Input, now: int): (State, Answer) {
    var matches, waiting := Matches(s.jobs, i), PendingRivals(s.jobs, i);
    if matches != {} then
      var id := First(s.jobs, matches);
      if s.jobs[id].status.Running? && waiting != {} then
        (s.(jobs := WithStatus(s.jobs, First(s.jobs, waiting), Cancelled)), Accepted(id))
      else (s, Accepted(id))
    else if waiting != {} then
      var id := First(s.jobs, waiting);
      if i.deps <= s.jobs.Keys && id !in i.deps then
        (s.(jobs := s.jobs[id := Rewire(s.jobs[id], i)]), Accepted(id))
      else (s, Rejected)
    else if i.deps <= s.jobs.Keys then (Insert(s, i, now), Accepted(s.nextId))
    else (s, Rejected)
  }

  function Cancel(s: State, id: JobId): State {
    if id !in s.jobs then s
    else if s.jobs[id].status.Running? then
      if id in s.controllers then s.(controllers := s.controllers[id := true]) else s
    else if s.jobs[id].status.Pending? then
      s.(jobs := SkipDoomed(WithStatus(s.jobs, id, Cancelled)))
    else s
  }

  function RetryInput(job: Job): Input { Input(job.kind, job.space, job.repo, job.payload, {}) }

  function FailRunning(jobs: Table): Table {
    map id | id in jobs :: if jobs[id].status.Running? then jobs[id].(status := Failed) else jobs[id]
  }

  // The process dies and a new one calls start(): in-memory fields are lost.
  function Restart(s: State): State { State(FailRunning(s.jobs), s.nextId, {}, map[]) }

  // ---------- Runs ----------

  datatype Event =
    | ESkip
    | ELaunch(id: JobId)
    | ESettle(id: JobId, outcome: Outcome)
    | ERetire(id: JobId)
    | EEnqueue(input: Input, now: int)
    | ECoalesce(input: Input, now: int)
    | ECancel(id: JobId)
    | ERetry(id: JobId, now: int)
    | ERestart

  ghost predicate Enabled(c: Config, s: State, e: Event) {
    match e
    case ELaunch(id) => |s.inflight| < c.concurrency && CanStart(s.jobs, id)
    case ESettle(id, _) => id in s.controllers
    case ERetire(id) => id in s.inflight && id !in s.controllers
    // the input names a space, and a blank fingerprint throws
    case ECoalesce(i, _) => i.space.Some? && IsStamped(i.payload)
    case ERetry(id, _) => id in s.jobs && Dead(s.jobs[id].status)
    case _ => true
  }

  ghost function Apply(c: Config, s: State, e: Event): State
    requires Enabled(c, s, e)
  {
    match e
    case ESkip => s.(jobs := SkipDoomed(s.jobs))
    case ELaunch(id) => Launch(c, s, id)
    case ESettle(id, o) => Settle(s, id, o)
    case ERetire(id) => Retire(s, id)
    case EEnqueue(i, now) => Enqueue(s, i, now).0
    case ECoalesce(i, now) => Coalesce(s, i, now).0
    case ECancel(id) => Cancel(s, id)
    case ERetry(id, now) => Enqueue(s, RetryInput(s.jobs[id]), now).0
    case ERestart => Restart(s)
  }

  // `es` can happen from `s`, and where it leads.
  ghost predicate Possible(c: Config, s: State, es: seq<Event>)
    decreases |es|
  {
    es == [] || (Enabled(c, s, es[0]) && Possible(c, Apply(c, s, es[0]), es[1..]))
  }

  ghost function Run(c: Config, s: State, es: seq<Event>): State
    requires Possible(c, s, es)
    decreases |es|
  {
    if es == [] then s else Run(c, Apply(c, s, es[0]), es[1..])
  }

  lemma {:induction false} RunConcat(c: Config, s: State, xs: seq<Event>, ys: seq<Event>)
    requires Possible(c, s, xs) && Possible(c, Run(c, s, xs), ys)
    ensures Possible(c, s, xs + ys) && Run(c, s, xs + ys) == Run(c, Run(c, s, xs), ys)
    decreases |xs|
  {
    if xs == [] {
      assert xs + ys == ys;
    } else {
      assert (xs + ys)[0] == xs[0] && (xs + ys)[1..] == xs[1..] + ys;
      RunConcat(c, Apply(c, s, xs[0]), xs[1..], ys);
    }
  }

  // One whole tick(): a skip pass, then launches until capacity or candidates run out.
  ghost predicate Launches(c: Config, s: State, ids: seq<JobId>, t: State)
    decreases |ids|
  {
    if ids == [] then t == s
    else Enabled(c, s, ELaunch(ids[0])) && Launches(c, Launch(c, s, ids[0]), ids[1..], t)
  }

  ghost predicate TickEnds(c: Config, s: State, t: State) {
    && (exists ids :: Launches(c, s.(jobs := SkipDoomed(s.jobs)), ids, t))
    && (|t.inflight| >= c.concurrency || Stuck(t.jobs))
  }

  // ---------- Scheduler invariant ----------

  ghost predicate WellFormed(s: State) {
    && (forall id :: id in s.jobs ==> id < s.nextId)
    && (forall id :: id in s.jobs ==> s.jobs[id].deps <= s.jobs.Keys && id !in s.jobs[id].deps)
  }

  ghost predicate Bookkeeping(c: Config, s: State) {
    && |s.inflight| <= c.concurrency
    && s.inflight <= s.jobs.Keys
    && s.controllers.Keys <= s.inflight
    && (forall id :: id in s.inflight ==> !s.jobs[id].status.Pending?)
    && (forall id :: id in s.jobs ==> (s.jobs[id].status.Running? <==> id in s.controllers))
  }

  // Two running jobs never share a repository, and a space-wide job runs alone in its space.
  ghost predicate Compatible(a: Job, b: Job) {
    && (a.repo.Some? ==> a.repo != b.repo)
    && (a.space.Some? && (a.repo.None? || b.repo.None?) ==> a.space != b.space)
  }

  ghost predicate Exclusive(jobs: Table) {
    forall a, b :: a in jobs && b in jobs && a != b && jobs[a].status.Running? && jobs[b].status.Running? ==>
      Compatible(jobs[a], jobs[b])
  }

  ghost predicate Started(st: Status) { st.Running? || st.Succeeded? }

  ghost predicate AllSucceeded(jobs: Table, ids: set<JobId>) {
    forall d :: d in ids ==> HasStatus(jobs, d, Succeeded)
  }

  ghost predicate DependenciesDone(jobs: Table) {
    forall id :: id in jobs && Started(jobs[id].status) ==> AllSucceeded(jobs, jobs[id].deps)
  }

  // The stored key describes the row, except that a rewired row keeps its own repository column.
  ghost predicate KeyDescribes(job: Job) {
    job.key.kind == job.kind && job.key.space == job.space && job.key.deps == job.deps && job.key.payload == job.payload
  }

  ghost predicate DistinctKeys(jobs: Table) {
    && (forall id :: id in jobs ==> KeyDescribes(jobs[id]))
    && (forall a, b :: IsActive(jobs, a) && IsActive(jobs, b) && jobs[a].key == jobs[b].key ==> a == b)
  }

  ghost predicate Inv(c: Config, s: State) {
    && WellFormed(s)
    && Bookkeeping(c, s)
    && Exclusive(s.jobs)
    && DependenciesDone(s.jobs)
    && DistinctKeys(s.jobs)
  }
}
