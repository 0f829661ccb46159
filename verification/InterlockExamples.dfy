/** A run of module TurnInterlocks in which a resumption comes too late. */
module InterlockExamples {
  import opened Wrappers
  import opened TurnInterlocks
  import S = Snapshots
  import T = AgentTurns
  import R = AgentRaces
  import AgentProofs

  const SMALL := Config(S.Config(false), T.Config(1, 1))

  // What the snapshot side holds: one space with one repository, and snapshots 1 and 2 of it.
  function Snap(repo: S.Repo, rows: S.Rows, dirs: set<S.SnapId>, active: bool, builds: map<S.SnapId, S.Build>,
                prunes: map<S.CallId, S.Prune>): S.State
  {
    S.State(rows, dirs, if active then map[0 := 1] else map[], map[0 := [repo]], map[], builds, prunes, true)
  }

  // What the agent side holds: nothing, or one turn of chat 0.
  function Race(status: Option<T.Status>, counters: T.Metrics): R.Race {
    R.Race(T.State(if status.None? then map[] else map[0 := T.Turn(0, status.value, 1, 0, counters, 0)], map[]),
           map[], map[], map[], None)
  }

  function World0(snap: S.State): World { Joined(snap, Race(None, T.NO_METRICS), map[], map[]) }

  function World1(snap: S.State, status: Option<T.Status>, counters: T.Metrics): World {
    Joined(snap, Race(status, counters), map[0 := 1], map[])
  }

  // The turn has failed, and one resumeTurn call for it is in one of its awaits.
  function Waiting(snap: S.State, counters: T.Metrics, resumption: Resumption): World {
    Joined(snap, Race(FAILED, counters), map[0 := 1], map[0 := resumption])
  }

  ghost predicate Leads(w: World, e: Step, v: World) { Enabled(SMALL, w, e) && Apply(SMALL, w, e) == v }

  ghost predicate Cloned(repo: S.Repo) { S.Buildable([repo]) }

  function Begun(repo: S.Repo, manifest: seq<S.Entry>): S.Build { S.Build(0, [repo], manifest, false, 0, false) }

  function Manifest(repo: S.Repo, index: S.Index): seq<S.Entry> {
    [S.Entry(repo.id, repo.branch, repo.commit, index.(afterLinking := None))]
  }

  function Row(version: nat, status: S.Status, manifest: seq<S.Entry>): S.Row {
    S.Row(0, version, status, manifest, S.AggregateQuality(manifest, 1, false))
  }

  // ---------- Snapshot 1 is built and activated ----------

  function Configured(repo: S.Repo): S.State { Snap(repo, map[], {}, false, map[], map[]) }

  function Made(repo: S.Repo): S.State { Snap(repo, map[], {1}, false, map[1 := Begun(repo, [])], map[]) }

  function Inserted(repo: S.Repo): S.State {
    Snap(repo, map[1 := Row(1, S.Building, [])], {1}, false, map[1 := Begun(repo, [])], map[])
  }

  function Indexed(repo: S.Repo, m: seq<S.Entry>): S.State {
    Snap(repo, map[1 := Row(1, S.Building, m)], {1}, false, map[1 := Begun(repo, m)], map[])
  }

  function Activated(repo: S.Repo, m: seq<S.Entry>): S.State {
    Snap(repo, map[1 := Row(1, S.Active, m)], {1}, true, map[], map[])
  }

  lemma Configures(repo: S.Repo)
    ensures Leads(EMPTY, WSnap(S.ERepos(0, [repo])), World0(Configured(repo)))
  {
    assert Kept(map[], map[]) == map[];
  }

  lemma Makes(repo: S.Repo)
    requires Cloned(repo)
    ensures Leads(World0(Configured(repo)), WSnap(S.EMakeDir(1, 0)), World0(Made(repo)))
  {}

  lemma Inserts(repo: S.Repo)
    ensures Leads(World0(Made(repo)), WSnap(S.EInsertRow(1, 1)), World0(Inserted(repo)))
  {}

  lemma IndexesSnap(s: S.State, repo: S.Repo, index: S.Index)
    requires s == Inserted(repo)
    ensures S.Working(s, 1) && |s.builds[1].manifest| < |s.builds[1].captured|
    ensures S.RecordIndexed(SMALL.snap, s, 1, index) == Indexed(repo, Manifest(repo, index))
  {
    var build, t := s.builds[1], S.RecordIndexed(SMALL.snap, s, 1, index);
    assert build == Begun(repo, []) && build.captured[0] == repo;
    assert t.builds[1].manifest == [] + Manifest(repo, index) == Manifest(repo, index);
    assert t.builds == map[1 := Begun(repo, Manifest(repo, index))];
    assert t.rows == map[1 := Row(1, S.Building, Manifest(repo, index))];
  }

  lemma Indexes(repo: S.Repo, index: S.Index)
    ensures Leads(World0(Inserted(repo)), WSnap(S.EIndexed(1, index)), World0(Indexed(repo, Manifest(repo, index))))
  {
    var s := World0(Inserted(repo)).snap;
    assert s == Inserted(repo);
    IndexesSnap(s, repo, index);
  }

  lemma ActivatesSnap(s: S.State, repo: S.Repo, m: seq<S.Entry>)
    requires |m| == 1 && s == Indexed(repo, m)
    ensures S.CanActivate(s, 1) && S.Activate(SMALL.snap, s, 1) == Activated(repo, m)
  {
    var build, t := s.builds[1], S.Activate(SMALL.snap, s, 1);
    assert build == Begun(repo, m) && S.ReposOf(s, 0) == [repo];
    assert t.rows == map[1 := Row(1, S.Active, m)];
    assert t.builds == map[];
  }

  lemma Activates(repo: S.Repo, m: seq<S.Entry>)
    requires |m| == 1
    ensures Leads(World0(Indexed(repo, m)), WSnap(S.EActivate(1)), World0(Activated(repo, m)))
  {
    var s := World0(Indexed(repo, m)).snap;
    assert s == Indexed(repo, m);
    ActivatesSnap(s, repo, m);
  }

  // ---------- A chat uses it ----------

  const FAILED := Some(T.Failed)

  lemma Chats(repo: S.Repo, m: seq<S.Entry>)
    ensures Leads(World0(Activated(repo, m)), WChat(0, 1), World1(Activated(repo, m), None, T.NO_METRICS))
  {}

  lemma Sends(repo: S.Repo, m: seq<S.Entry>)
    ensures Leads(World1(Activated(repo, m), None, T.NO_METRICS), WRace(R.SSend(0, 0, 1)),
                  World1(Activated(repo, m), Some(T.Queued), T.NO_METRICS))
  {
    var turns := Race(None, T.NO_METRICS).tables.turns;
    assert T.QueuedTurns(turns) == {};
  }

  lemma FailsTables(s: T.State, counters: T.Metrics)
    requires s == Race(Some(T.Queued), counters).tables
    ensures 0 in T.QueuedTurns(s.turns) && R.FinishLocally(s, 0, T.Failed, None) == Race(FAILED, counters).tables
  {
    assert R.Newest(s, 0) == None;
    AgentProofs.PlusZero(counters, T.NO_METRICS);
    assert T.Finish(s, 0, T.Failed, None, None).turns == Race(FAILED, counters).tables.turns;
  }

  lemma FailsRace(r: R.Race, counters: T.Metrics)
    requires r == Race(Some(T.Queued), counters)
    ensures R.Enabled(SMALL.queue, r, R.SCatch(0)) && R.Apply(SMALL.queue, r, R.SCatch(0)) == Race(FAILED, counters)
  {
    FailsTables(r.tables, counters);
  }

  lemma Fails(snap: S.State, counters: T.Metrics)
    requires snap.live
    ensures Leads(World1(snap, Some(T.Queued), counters), WRace(R.SCatch(0)), World1(snap, FAILED, counters))
  {
    var w := World1(snap, Some(T.Queued), counters);
    FailsRace(w.race, counters);
    assert Apply(SMALL, w, WRace(R.SCatch(0))) == Joined(w.snap, Race(FAILED, counters), map[0 := 1], map[]);
  }

  // ---------- resumeTurn reads and checks it ----------

  const ASKED := Asked(0, 1)
  const PASSED := Checked(0, 1)

  lemma AsksAny(snap: S.State, counters: T.Metrics)
    requires snap.live
    ensures Leads(World1(snap, FAILED, counters), WAsk(0, 0), Waiting(snap, counters, ASKED))
  {}

  lemma ChecksAny(snap: S.State, counters: T.Metrics)
    requires snap.live && snap.prunes == map[] && 1 in snap.rows && snap.rows[1].status.Active?
    ensures Leads(Waiting(snap, counters, ASKED), WCheck(0), Waiting(snap, counters, PASSED))
  {
    CanStart(Waiting(snap, counters, ASKED).snap);
    assert map[0 := ASKED][0 := PASSED] == map[0 := PASSED];
  }

  lemma CanStart(s: S.State)
    requires s.prunes == map[] && 1 in s.rows && s.rows[1].status.Active?
    ensures S.TurnCanStart(SMALL.snap, s, 1)
  {}

  // ---------- It is withdrawn, and pruning reaches it ----------

  function Revoked(repo: S.Repo, m: seq<S.Entry>): S.State {
    Snap(repo, map[1 := Row(1, S.Inactive, m)], {1}, false, map[], map[])
  }

  function MadeNext(repo: S.Repo, m: seq<S.Entry>): S.State {
    Snap(repo, map[1 := Row(1, S.Inactive, m)], {1, 2}, false, map[2 := Begun(repo, [])], map[])
  }

  function InsertedNext(repo: S.Repo, m: seq<S.Entry>): S.State {
    Snap(repo, map[1 := Row(1, S.Inactive, m), 2 := Row(2, S.Building, [])], {1, 2}, false,
         map[2 := Begun(repo, [])], map[])
  }

  function FailedNext(repo: S.Repo, m: seq<S.Entry>): S.State {
    Snap(repo, map[1 := Row(1, S.Inactive, m), 2 := Row(2, S.Failed, [])], {1, 2}, false, map[], map[])
  }

  function PruneCall(stage: S.Stage): S.Prune { S.Prune({1}, map[1 := S.Inactive], [1], stage) }

  function Pruned(repo: S.Repo, m: seq<S.Entry>): S.State {
    Snap(repo, map[1 := Row(1, S.Inactive, m), 2 := Row(2, S.Failed, [])], {1, 2}, false, map[],
         map[0 := PruneCall(S.Closing)])
  }

  function Marked(repo: S.Repo, m: seq<S.Entry>): S.State {
    Snap(repo, map[1 := Row(1, S.Pruning, m), 2 := Row(2, S.Failed, [])], {1, 2}, false, map[],
         map[0 := PruneCall(S.Marked)])
  }

  // The pruning side sees the chat's one turn, which has ended.
  const SEEN := map[0 := S.Turn(1, false)]

  ghost predicate SnapLeads(s: S.State, e: S.Event, t: S.State) {
    S.Enabled(SMALL.snap, s.(turns := SEEN), e) && S.Apply(SMALL.snap, s.(turns := SEEN), e) == t.(turns := SEEN)
  }

  lemma SeenOnce(counters: T.Metrics, rows: S.Rows)
    requires 1 in rows
    ensures Seen(Race(FAILED, counters).tables.turns, map[0 := 1]) == SEEN && Kept(map[0 := 1], rows) == map[0 := 1]
  {}

  lemma Lifts(s: S.State, e: S.Event, t: S.State, counters: T.Metrics)
    requires SnapLeads(s, e, t) && 1 in t.rows && !e.EStartTurn? && !e.EEndTurn? && !e.ECrash?
    ensures Leads(Waiting(s, counters, PASSED), WSnap(e), Waiting(t, counters, PASSED))
  {
    SeenOnce(counters, t.rows);
    assert Waiting(s, counters, PASSED).snap == s.(turns := SEEN);
  }

  lemma Revokes(repo: S.Repo, m: seq<S.Entry>)
    ensures SnapLeads(Activated(repo, m), S.ERevoke(0), Revoked(repo, m))
  {}

  lemma MakesNext(repo: S.Repo, m: seq<S.Entry>)
    requires Cloned(repo)
    ensures SnapLeads(Revoked(repo, m), S.EMakeDir(2, 0), MadeNext(repo, m))
  {}

  lemma InsertsNext(repo: S.Repo, m: seq<S.Entry>)
    ensures SnapLeads(MadeNext(repo, m), S.EInsertRow(2, 2), InsertedNext(repo, m))
  {
    var rows := MadeNext(repo, m).rows;
    assert rows[1].space == 0 && rows[1].version + 1 == 2;
  }

  lemma FailsNext(repo: S.Repo, m: seq<S.Entry>)
    ensures SnapLeads(InsertedNext(repo, m), S.EFail(2), FailedNext(repo, m))
  {}

  lemma OneCandidate(s: S.State, repo: S.Repo, m: seq<S.Entry>)
    requires s.rows == FailedNext(repo, m).rows && s.active == map[]
    ensures S.Candidates(s, 0, 1) == {1}
  {
    assert S.Newer(s.rows, 0, 1) == {2};
    assert S.Newer(s.rows, 0, 2) == {};
  }

  lemma Prunes(repo: S.Repo, m: seq<S.Entry>)
    ensures SnapLeads(FailedNext(repo, m), S.EBeginPrune(0, 0, 1, [1]), Pruned(repo, m))
  {
    var s := FailedNext(repo, m).(turns := SEEN);
    OneCandidate(s, repo, m);
    var t := S.BeginPrune(s, 0, S.Candidates(s, 0, 1), [1]);
    assert t.prunes[0].captured == map[1 := S.Inactive];
    assert t.prunes == map[0 := PruneCall(S.Closing)];
  }

  lemma Marks(repo: S.Repo, m: seq<S.Entry>)
    ensures SnapLeads(Pruned(repo, m), S.EMarkPruning(0), Marked(repo, m))
  {}

  // ---------- The resumption ----------

  lemma Resumes(repo: S.Repo, m: seq<S.Entry>, counters: T.Metrics)
    ensures Enabled(SMALL, Waiting(Marked(repo, m), counters, PASSED), WResume(0, 2))
    ensures ResumesLate(Waiting(Marked(repo, m), counters, PASSED), WResume(0, 2))
  {
    ResumesRace(Race(FAILED, counters), counters);
  }

  lemma ResumesRace(r: R.Race, counters: T.Metrics)
    requires r == Race(FAILED, counters)
    ensures R.Enabled(SMALL.queue, r, R.SResume(0, 2))
  {
    assert T.QueuedTurns(r.tables.turns) == {} && r.tables.turns[0].sequence == 1;
  }

  lemma Before(w: World, e: Step, v: World, es: seq<Step>)
    requires Leads(w, e, v) && Possible(SMALL, v, es)
    ensures Possible(SMALL, w, [e] + es) && Run(SMALL, w, [e] + es) == Run(SMALL, v, es)
  {
    assert ([e] + es)[1..] == es;
  }

  lemma Builds(repo: S.Repo, index: S.Index, tail: seq<Step>) returns (es: seq<Step>)
    requires Cloned(repo) && Possible(SMALL, World0(Activated(repo, Manifest(repo, index))), tail)
    ensures Possible(SMALL, EMPTY, es)
    ensures Run(SMALL, EMPTY, es) == Run(SMALL, World0(Activated(repo, Manifest(repo, index))), tail)
  {
    var m := Manifest(repo, index);
    Activates(repo, m);
    Before(World0(Indexed(repo, m)), WSnap(S.EActivate(1)), World0(Activated(repo, m)), tail);
    es := [WSnap(S.EActivate(1))] + tail;
    Indexes(repo, index);
    Before(World0(Inserted(repo)), WSnap(S.EIndexed(1, index)), World0(Indexed(repo, m)), es);
    es := [WSnap(S.EIndexed(1, index))] + es;
    Inserts(repo);
    Before(World0(Made(repo)), WSnap(S.EInsertRow(1, 1)), World0(Inserted(repo)), es);
    es := [WSnap(S.EInsertRow(1, 1))] + es;
    Makes(repo);
    Before(World0(Configured(repo)), WSnap(S.EMakeDir(1, 0)), World0(Made(repo)), es);
    es := [WSnap(S.EMakeDir(1, 0))] + es;
    Configures(repo);
    Before(EMPTY, WSnap(S.ERepos(0, [repo])), World0(Configured(repo)), es);
    es := [WSnap(S.ERepos(0, [repo]))] + es;
  }

  lemma Uses(repo: S.Repo, m: seq<S.Entry>, tail: seq<Step>) returns (es: seq<Step>)
    requires Possible(SMALL, World1(Activated(repo, m), FAILED, T.NO_METRICS), tail)
    ensures Possible(SMALL, World0(Activated(repo, m)), es)
    ensures Run(SMALL, World0(Activated(repo, m)), es)
      == Run(SMALL, World1(Activated(repo, m), FAILED, T.NO_METRICS), tail)
  {
    var snap := Activated(repo, m);
    Fails(snap, T.NO_METRICS);
    Before(World1(snap, Some(T.Queued), T.NO_METRICS), WRace(R.SCatch(0)), World1(snap, FAILED, T.NO_METRICS), tail);
    es := [WRace(R.SCatch(0))] + tail;
    Sends(repo, m);
    Before(World1(snap, None, T.NO_METRICS), WRace(R.SSend(0, 0, 1)),
           World1(snap, Some(T.Queued), T.NO_METRICS), es);
    es := [WRace(R.SSend(0, 0, 1))] + es;
    Chats(repo, m);
    Before(World0(snap), WChat(0, 1), World1(snap, None, T.NO_METRICS), es);
    es := [WChat(0, 1)] + es;
  }

  // One more step of the pruning side in front.
  lemma SnapBefore(s: S.State, e: S.Event, t: S.State, counters: T.Metrics, es: seq<Step>) returns (longer: seq<Step>)
    requires SnapLeads(s, e, t) && 1 in t.rows && !e.EStartTurn? && !e.EEndTurn? && !e.ECrash?
    requires Possible(SMALL, Waiting(t, counters, PASSED), es)
    ensures Possible(SMALL, Waiting(s, counters, PASSED), longer)
    ensures Run(SMALL, Waiting(s, counters, PASSED), longer) == Run(SMALL, Waiting(t, counters, PASSED), es)
  {
    Lifts(s, e, t, counters);
    Before(Waiting(s, counters, PASSED), WSnap(e), Waiting(t, counters, PASSED), es);
    longer := [WSnap(e)] + es;
  }

  lemma Withdraws(repo: S.Repo, m: seq<S.Entry>, counters: T.Metrics, tail: seq<Step>) returns (es: seq<Step>)
    requires Cloned(repo) && Possible(SMALL, Waiting(Marked(repo, m), counters, PASSED), tail)
    ensures Possible(SMALL, Waiting(Activated(repo, m), counters, PASSED), es)
    ensures Run(SMALL, Waiting(Activated(repo, m), counters, PASSED), es)
      == Run(SMALL, Waiting(Marked(repo, m), counters, PASSED), tail)
  {
    Marks(repo, m);
    es := SnapBefore(Pruned(repo, m), S.EMarkPruning(0), Marked(repo, m), counters, tail);
    Prunes(repo, m);
    es := SnapBefore(FailedNext(repo, m), S.EBeginPrune(0, 0, 1, [1]), Pruned(repo, m), counters, es);
    FailsNext(repo, m);
    es := SnapBefore(InsertedNext(repo, m), S.EFail(2), FailedNext(repo, m), counters, es);
    InsertsNext(repo, m);
    es := SnapBefore(MadeNext(repo, m), S.EInsertRow(2, 2), InsertedNext(repo, m), counters, es);
    MakesNext(repo, m);
    es := SnapBefore(Revoked(repo, m), S.EMakeDir(2, 0), MadeNext(repo, m), counters, es);
    Revokes(repo, m);
    es := SnapBefore(Activated(repo, m), S.ERevoke(0), Revoked(repo, m), counters, es);
  }

  lemma PassesCheck(repo: S.Repo, m: seq<S.Entry>, counters: T.Metrics, tail: seq<Step>) returns (es: seq<Step>)
    requires Possible(SMALL, Waiting(Activated(repo, m), counters, PASSED), tail)
    ensures Possible(SMALL, World1(Activated(repo, m), FAILED, counters), es)
    ensures Run(SMALL, World1(Activated(repo, m), FAILED, counters), es)
      == Run(SMALL, Waiting(Activated(repo, m), counters, PASSED), tail)
  {
    var snap := Activated(repo, m);
    ChecksAny(snap, counters);
    Before(Waiting(snap, counters, ASKED), WCheck(0), Waiting(snap, counters, PASSED), tail);
    es := [WCheck(0)] + tail;
    AsksAny(snap, counters);
    Before(World1(snap, FAILED, counters), WAsk(0, 0), Waiting(snap, counters, ASKED), es);
    es := [WAsk(0, 0)] + es;
  }

  /** A turn fails and is resumed: while the call waits after its check of the snapshot, the snapshot is
      withdrawn and pruning marks it, and the call then requeues the turn on a snapshot being deleted. */
  lemma LateResumptionBreaks() returns (es: seq<Step>)
    ensures Possible(SMALL, EMPTY, es) && !Interlocked(Run(SMALL, EMPTY, es))
  {
    var repo := S.Repo("repo", Some("main"), Some("head"), "cloned");
    var index := S.Index(S.Indexed, S.Clean, 0, None, None);
    es := BreaksFor(repo, index);
  }

  lemma BreaksFor(repo: S.Repo, index: S.Index) returns (es: seq<Step>)
    requires Cloned(repo)
    ensures Possible(SMALL, EMPTY, es) && !Interlocked(Run(SMALL, EMPTY, es))
  {
    var m, resume := Manifest(repo, index), WResume(0, 2);
    var last := Waiting(Marked(repo, m), T.NO_METRICS, PASSED);
    Resumes(repo, m, T.NO_METRICS);
    LateBreaks(SMALL, last, resume);
    Before(last, resume, Apply(SMALL, last, resume), []);
    es := Withdraws(repo, m, T.NO_METRICS, [resume] + []);
    es := PassesCheck(repo, m, T.NO_METRICS, es);
    es := Uses(repo, m, es);
    es := Builds(repo, index, es);
  }
}
