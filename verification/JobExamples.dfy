/** Runs that show where the guarantees of the scheduler end. */
module JobExamples {
  import opened Wrappers
  import opened Jobs
  import Safety = JobSafety
  import Texts

  lemma OneStep(c: Config, s: State, e: Event, es: seq<Event>)
    requires Enabled(c, s, e) && Possible(c, Apply(c, s, e), es)
    ensures Possible(c, s, [e] + es) && Run(c, s, [e] + es) == Run(c, Apply(c, s, e), es)
  {
    assert ([e] + es)[1..] == es;
  }

  lemma OnlyReadyStarts(jobs: Table, id: JobId)
    requires ReadySet(jobs) == {id} && !Blocked(jobs, id)
    ensures CanStart(jobs, id)
  {
    assert Window(jobs, {id}) && FirstUnblocked(jobs, {id}, id);
  }

  lemma IsLetter(s: string)
    requires |s| == 1 && 'a' <= s[0] <= 'z'
    ensures !Texts.IsBlank(s)
  {
    assert !Texts.IsSpace(s[0]);
  }

  // ---------- Two running jobs of one type and space ----------

  function Request(kind: string, space: Option<string>, repo: Option<string>, fingerprint: string): Input {
    Input(kind, space, repo, Payload("", Some(fingerprint)), {})
  }

  function RunningJob(i: Input, now: int): Job { NewJob(i, now).(status := Running) }

  // The first job runs, ...
  function OneUp(a: Input): State { State(map[0 := RunningJob(a, 0)], 1, {0}, map[0 := false]) }

  // ... the second waits, ...
  function OneWaiting(a: Input, b: Input): State {
    OneUp(a).(jobs := map[0 := RunningJob(a, 0), 1 := NewJob(b, 1)], nextId := 2)
  }

  // ... and runs too.
  function BothUp(a: Input, b: Input): State {
    State(map[0 := RunningJob(a, 0), 1 := RunningJob(b, 1)], 2, {0, 1}, map[0 := false, 1 := false])
  }

  lemma FirstComesUp(c: Config, a: Input)
    requires a.deps == {} && a.kind in c.handlers && c.concurrency >= 1
    ensures Coalesce(EMPTY, a, 0).0 == State(map[0 := NewJob(a, 0)], 1, {}, map[])
    ensures var s := State(map[0 := NewJob(a, 0)], 1, {}, map[]);
      Enabled(c, s, ELaunch(0)) && Launch(c, s, 0) == OneUp(a)
  {
    var s := State(map[0 := NewJob(a, 0)], 1, {}, map[]);
    assert Matches(EMPTY.jobs, a) == {} && PendingRivals(EMPTY.jobs, a) == {};
    assert ReadySet(s.jobs) == {0};
    OnlyReadyStarts(s.jobs, 0);
  }

  lemma SecondComesUp(c: Config, a: Input, b: Input)
    requires b.deps == {} && b.kind in c.handlers && c.concurrency >= 2 && a.payload != b.payload
    requires a.space == b.space && Safety.MayRunTogether(a.space, a.repo, b.repo)
    ensures Coalesce(OneUp(a), b, 1).0 == OneWaiting(a, b)
    ensures Enabled(c, OneWaiting(a, b), ELaunch(1)) && Launch(c, OneWaiting(a, b), 1) == BothUp(a, b)
  {
    var s := OneWaiting(a, b);
    assert Matches(OneUp(a).jobs, b) == {} && PendingRivals(OneUp(a).jobs, b) == {};
    assert Ready(s.jobs, 1) && !Ready(s.jobs, 0) && ReadySet(s.jobs) == {1};
    OnlyReadyStarts(s.jobs, 1);
    assert s.inflight + {1} == {0, 1} && |s.inflight| == 1;
  }

  /** Conversely every pair of a space that may run together does so in some run that only coalesces its
      type. */
  lemma PairsRun(c: Config, kind: string, space: string, r1: Option<string>, r2: Option<string>)
    returns (es: seq<Event>)
    requires kind in c.handlers && c.concurrency >= 2 && Safety.MayRunTogether(Some(space), r1, r2)
    ensures Safety.AllOnlyCoalesced(c, EMPTY, es, kind, false)
    ensures var jobs := Run(c, EMPTY, es).jobs;
      && HasStatus(jobs, 0, Running) && HasStatus(jobs, 1, Running)
      && jobs[0].kind == jobs[1].kind == kind && jobs[0].space == jobs[1].space == Some(space)
  {
    var a, b := Request(kind, Some(space), r1, "a"), Request(kind, Some(space), r2, "b");
    IsLetter("a");
    IsLetter("b");
    FirstComesUp(c, a);
    SecondComesUp(c, a, b);
    es := [ELaunch(1)] + [];
    CoalescedStep(c, OneWaiting(a, b), ELaunch(1), [], kind);
    CoalescedStep(c, OneUp(a), ECoalesce(b, 1), es, kind);
    es := [ECoalesce(b, 1)] + es;
    var s := State(map[0 := NewJob(a, 0)], 1, {}, map[]);
    CoalescedStep(c, s, ELaunch(0), es, kind);
    es := [ELaunch(0)] + es;
    CoalescedStep(c, EMPTY, ECoalesce(a, 0), es, kind);
    es := [ECoalesce(a, 0)] + es;
  }

  lemma CoalescedStep(c: Config, s: State, e: Event, es: seq<Event>, kind: string)
    requires Enabled(c, s, e) && Safety.OnlyCoalesced(s, e, kind)
    requires Safety.AllOnlyCoalesced(c, Apply(c, s, e), es, kind, false)
    ensures Safety.AllOnlyCoalesced(c, s, [e] + es, kind, false) && Run(c, s, [e] + es) == Run(c, Apply(c, s, e), es)
  {
    assert ([e] + es)[1..] == es;
  }

  // ---------- Two jobs that wait for each other ----------

  const STAMPED := Payload("", Some("f"))
  const PLAIN := Payload("", None)
  const FIRST := Input("a", Some("space"), None, STAMPED, {})
  const SECOND := Input("b", None, None, PLAIN, {0})
  const AGAIN := Input("a", Some("space"), None, STAMPED, {1})

  // Two jobs that wait for each other.
  const KNOT: Table := map[
    0 := Job("a", Pending, Some("space"), None, STAMPED, 0, {1}, KeyOf(AGAIN)),
    1 := Job("b", Pending, None, None, PLAIN, 0, {0}, KeyOf(SECOND))]

  const ONE := State(map[0 := NewJob(FIRST, 0)], 1, {}, map[])
  const TWO := State(map[0 := NewJob(FIRST, 0), 1 := NewJob(SECOND, 0)], 2, {}, map[])

  lemma KnotSteps()
    ensures Coalesce(EMPTY, FIRST, 0).0 == ONE && Jobs.Enqueue(ONE, SECOND, 0).0 == TWO
    ensures Coalesce(TWO, AGAIN, 0).0 == State(KNOT, 2, {}, map[])
  {
    assert Matches(EMPTY.jobs, FIRST) == {} && PendingRivals(EMPTY.jobs, FIRST) == {};
    assert forall id :: !HoldsKey(ONE.jobs, id, KeyOf(SECOND));
    assert Matches(TWO.jobs, AGAIN) == {} && PendingRivals(TWO.jobs, AGAIN) == {0};
  }

  /** Coalescing a type that other jobs depend on can tie a dependency cycle: after these three calls
      two jobs are pending, nothing is in flight and no job can ever be skipped or started. */
  lemma UndisciplinedRunDeadlocks(c: Config)
    ensures var es := [ECoalesce(FIRST, 0)] + ([EEnqueue(SECOND, 0)] + ([ECoalesce(AGAIN, 0)] + []));
      Possible(c, EMPTY, es) && Run(c, EMPTY, es) == State(KNOT, 2, {}, map[])
    ensures forall id :: id in KNOT ==> KNOT[id].status.Pending? && !Doomed(KNOT, id) && !CanStart(KNOT, id)
  {
    KnotSteps();
    IsLetter("f");
    OneStep(c, TWO, ECoalesce(AGAIN, 0), []);
    OneStep(c, ONE, EEnqueue(SECOND, 0), [ECoalesce(AGAIN, 0)] + []);
    OneStep(c, EMPTY, ECoalesce(FIRST, 0), [EEnqueue(SECOND, 0)] + ([ECoalesce(AGAIN, 0)] + []));
    NothingMoves(KNOT);
  }

  lemma NothingMoves(jobs: Table)
    requires jobs == KNOT
    ensures forall id :: id in jobs ==> jobs[id].status.Pending? && !Doomed(jobs, id) && !CanStart(jobs, id)
  {
    assert !Ready(jobs, 0) && !Ready(jobs, 1);
    assert ReadySet(jobs) == {};
  }
}
