/** A build whose every index and linking check is good can be carried through to its activation. */
module SnapshotLiveness {
  import opened Snapshots
  import opened SnapshotProofs
  import opened SnapshotOutcomes

  const GOOD_CHECK := Check(Ready, CheckComplete)

  function Indexing(id: SnapId, indexes: seq<Index>): seq<Event> {
    if indexes == [] then [] else [EIndexed(id, indexes[0])] + Indexing(id, indexes[1..])
  }

  function Linking(id: SnapId, n: nat): seq<Event> {
    if n == 0 then [] else [ELinked(id, GOOD_CHECK)] + Linking(id, n - 1)
  }

  // The steps of one call of buildSpaceSnapshot in which nothing goes wrong.
  function GoodBuild(id: SnapId, space: SpaceId, version: nat, indexes: seq<Index>): seq<Event> {
    [EMakeDir(id, space)] + ([EInsertRow(id, version)] + (Indexing(id, indexes) + Ending(id, |indexes|)))
  }

  function Ending(id: SnapId, n: nat): seq<Event> {
    (if n > 1 then [EBeginLinking(id)] + Linking(id, n) else []) + [EActivate(id)]
  }

  // ---------- Runs ----------

  lemma OneStep(c: Config, s: State, e: Event, es: seq<Event>)
    requires Enabled(c, s, e) && Possible(c, Apply(c, s, e), es)
    ensures Possible(c, s, [e] + es) && Run(c, s, [e] + es) == Run(c, Apply(c, s, e), es)
  {
    assert ([e] + es)[1..] == es;
  }

  lemma {:induction false} RunConcat(c: Config, s: State, xs: seq<Event>, ys: seq<Event>)
    requires Possible(c, s, xs) && Possible(c, Run(c, s, xs), ys)
    ensures Possible(c, s, xs + ys) && Run(c, s, xs + ys) == Run(c, Run(c, s, xs), ys)
    decreases |xs|
  {
    if xs == [] {
      assert xs + ys == ys;
    } else {
      assert (xs + ys)[0] == xs[0] && (xs + ys)[1..] == xs[1..] + ys;
      RunConcat(c, Apply(c, s, xs[0]), xs[1..], ys);
    }
  }

  // ---------- Stages ----------

  // A live build of the repositories the space has, with its row of this version.
  ghost predicate Underway(s: State, id: SnapId, space: SpaceId, repos: seq<Repo>, version: nat) {
    && Working(s, id) && s.rows[id].space == space && s.rows[id].version == version
    && s.builds[id].space == space && s.builds[id].captured == repos && ReposOf(s, space) == repos
  }

  ghost predicate AllGood(c: Config, manifest: seq<Entry>, linked: bool) {
    c.enforceQuality ==> forall k :: 0 <= k < |manifest| ==> GoodIndex(manifest[k].index, linked)
  }

  // Entries before the next one to link are good with their check.
  ghost predicate LinkedSoFar(c: Config, build: Build) {
    c.enforceQuality ==> forall k :: 0 <= k < |build.manifest| ==>
      GoodIndex(build.manifest[k].index, k < build.linked)
  }

  lemma IndexedStep(c: Config, s: State, id: SnapId, space: SpaceId, repos: seq<Repo>, version: nat, index: Index,
                    t: State)
    requires Underway(s, id, space, repos, version) && !s.builds[id].linking && |s.builds[id].manifest| < |repos|
    requires AllGood(c, s.builds[id].manifest, false) && (c.enforceQuality ==> GoodIndex(index, false))
    requires t == RecordIndexed(c, s, id, index)
    ensures Underway(t, id, space, repos, version) && !t.builds[id].linking
    ensures |t.builds[id].manifest| == |s.builds[id].manifest| + 1 && t.builds[id].linked == s.builds[id].linked
    ensures AllGood(c, t.builds[id].manifest, false)
  {
    IndexedMoves(c, s, id, index, t);
    var a, b := s.builds[id].manifest, t.builds[id].manifest;
    forall k | c.enforceQuality && 0 <= k < |b| ensures GoodIndex(b[k].index, false) {
      if k < |a| { assert b[k] == b[..|a|][k]; }
    }
  }

  lemma {:induction false} IndexAll(c: Config, s: State, id: SnapId, space: SpaceId, repos: seq<Repo>, version: nat,
                                    indexes: seq<Index>)
    requires Underway(s, id, space, repos, version) && !s.builds[id].linking
    requires |s.builds[id].manifest| + |indexes| == |repos| && AllGood(c, s.builds[id].manifest, false)
    requires c.enforceQuality ==> forall k :: 0 <= k < |indexes| ==> GoodIndex(indexes[k], false)
    ensures Possible(c, s, Indexing(id, indexes))
    ensures var t := Run(c, s, Indexing(id, indexes));
      && Underway(t, id, space, repos, version) && !t.builds[id].linking && t.builds[id].linked == s.builds[id].linked
      && |t.builds[id].manifest| == |repos| && AllGood(c, t.builds[id].manifest, false)
    decreases |indexes|
  {
    if indexes != [] {
      var t := RecordIndexed(c, s, id, indexes[0]);
      IndexedStep(c, s, id, space, repos, version, indexes[0], t);
      IndexAll(c, t, id, space, repos, version, indexes[1..]);
      OneStep(c, s, EIndexed(id, indexes[0]), Indexing(id, indexes[1..]));
    }
  }

  lemma LinkedStep(c: Config, s: State, id: SnapId, space: SpaceId, repos: seq<Repo>, version: nat, t: State)
    requires Underway(s, id, space, repos, version) && CanLink(s, id) && LinkedSoFar(c, s.builds[id])
    requires t == Linked(c, s, id, GOOD_CHECK)
    ensures Underway(t, id, space, repos, version) && t.builds[id].linking && LinkedSoFar(c, t.builds[id])
    ensures |t.builds[id].manifest| == |s.builds[id].manifest| && t.builds[id].linked == s.builds[id].linked + 1
  {
    LinkedMoves(c, s, id, GOOD_CHECK, t);
    var a, b := s.builds[id].manifest, t.builds[id].manifest;
    forall k | c.enforceQuality && 0 <= k < |b| ensures GoodIndex(b[k].index, k < t.builds[id].linked) {
      assert GoodIndex(a[k].index, k < s.builds[id].linked);
    }
  }

  lemma {:induction false} LinkAll(c: Config, s: State, id: SnapId, space: SpaceId, repos: seq<Repo>, version: nat,
                                   n: nat)
    requires Underway(s, id, space, repos, version) && s.builds[id].linking && LinkedSoFar(c, s.builds[id])
    requires s.builds[id].linked + n == |s.builds[id].manifest| == |repos|
    ensures Possible(c, s, Linking(id, n))
    ensures var t := Run(c, s, Linking(id, n));
      && Underway(t, id, space, repos, version) && t.builds[id].linking && |t.builds[id].manifest| == |repos|
      && t.builds[id].linked == |repos| && AllGood(c, t.builds[id].manifest, true)
    decreases n
  {
    if n == 0 {
      var manifest := s.builds[id].manifest;
      forall k | c.enforceQuality && 0 <= k < |manifest| ensures GoodIndex(manifest[k].index, true) {
        assert GoodIndex(manifest[k].index, k < s.builds[id].linked);
      }
    } else {
      var t := Linked(c, s, id, GOOD_CHECK);
      LinkedStep(c, s, id, space, repos, version, t);
      LinkAll(c, t, id, space, repos, version, n - 1);
      OneStep(c, s, ELinked(id, GOOD_CHECK), Linking(id, n - 1));
    }
  }

  ghost predicate IsActivated(s: State, id: SnapId, space: SpaceId, version: nat) {
    && id in s.rows && s.rows[id].status == Active && s.rows[id].space == space && s.rows[id].version == version
    && space in s.active && s.active[space] == id && id !in s.builds
  }

  lemma ActivateStep(c: Config, s: State, id: SnapId, space: SpaceId, repos: seq<Repo>, version: nat)
    requires Underway(s, id, space, repos, version) && CanActivate(s, id)
    requires AllGood(c, s.builds[id].manifest, s.builds[id].linking)
    ensures Possible(c, s, [EActivate(id)]) && IsActivated(Run(c, s, [EActivate(id)]), id, space, version)
  {
    ActivatesExactly(c, s, id);
    OneStep(c, s, EActivate(id), []);
    assert [EActivate(id)] + [] == [EActivate(id)];
  }

  lemma LinkStage(c: Config, s: State, id: SnapId, space: SpaceId, repos: seq<Repo>, version: nat)
    requires Underway(s, id, space, repos, version) && !s.builds[id].linking && s.builds[id].linked == 0
    requires |s.builds[id].manifest| == |repos| > 1 && AllGood(c, s.builds[id].manifest, false)
    ensures var es := [EBeginLinking(id)] + Linking(id, |repos|);
      Possible(c, s, es) &&
      var t := Run(c, s, es);
      && Underway(t, id, space, repos, version) && CanActivate(t, id)
      && AllGood(c, t.builds[id].manifest, t.builds[id].linking)
  {
    var t := BeginLinking(s, id);
    LinkAll(c, t, id, space, repos, version, |repos|);
    OneStep(c, s, EBeginLinking(id), Linking(id, |repos|));
  }

  lemma EndStage(c: Config, s: State, id: SnapId, space: SpaceId, repos: seq<Repo>, version: nat)
    requires Underway(s, id, space, repos, version) && !s.builds[id].linking && s.builds[id].linked == 0
    requires |s.builds[id].manifest| == |repos| && AllGood(c, s.builds[id].manifest, false)
    ensures Possible(c, s, Ending(id, |repos|)) && IsActivated(Run(c, s, Ending(id, |repos|)), id, space, version)
  {
    if |repos| > 1 {
      var es := [EBeginLinking(id)] + Linking(id, |repos|);
      LinkStage(c, s, id, space, repos, version);
      ActivateStep(c, Run(c, s, es), id, space, repos, version);
      RunConcat(c, s, es, [EActivate(id)]);
    } else {
      ActivateStep(c, s, id, space, repos, version);
      assert [] + [EActivate(id)] == [EActivate(id)];
    }
  }

  /** From any state of a running service a build of a buildable space whose index results are all good, and
      whose linking checks are when it has several repositories, goes through: its snapshot becomes the
      active one of the space. */
  lemma GoodBuildActivates(c: Config, s: State, id: SnapId, space: SpaceId, version: nat, indexes: seq<Index>)
    requires s.live && IsFreshId(s, id) && Buildable(ReposOf(s, space)) && IsNextVersion(s.rows, space, version)
    requires |indexes| == |ReposOf(s, space)|
    requires c.enforceQuality ==> forall k :: 0 <= k < |indexes| ==> GoodIndex(indexes[k], false)
    ensures Possible(c, s, GoodBuild(id, space, version, indexes))
    ensures IsActivated(Run(c, s, GoodBuild(id, space, version, indexes)), id, space, version)
  {
    var repos := ReposOf(s, space);
    var made := MakeDir(s, id, space);
    var begun := InsertRow(made, id, version);
    IndexAll(c, begun, id, space, repos, version, indexes);
    EndStage(c, Run(c, begun, Indexing(id, indexes)), id, space, repos, version);
    RunConcat(c, begun, Indexing(id, indexes), Ending(id, |indexes|));
    OneStep(c, made, EInsertRow(id, version), Indexing(id, indexes) + Ending(id, |indexes|));
    OneStep(c, s, EMakeDir(id, space), [EInsertRow(id, version)] + (Indexing(id, indexes) + Ending(id, |indexes|)));
  }
}
