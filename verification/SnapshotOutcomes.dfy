/**
 What becomes of a snapshot: the grade of an index by its signals, every step of the machine read off the
 tables before it, and the builds that must succeed.
 */
module SnapshotOutcomes {
  import opened Wrappers
  import opened Snapshots
  import opened SnapshotProofs

  // ---------- Grades ----------

  predicate SaysDegraded(index: Index, linked: bool) {
    || index.status in {IndexDegraded, IndexError, IndexSkipped} || index.quality == Degraded
    || (index.afterPrimary.Some? && index.afterPrimary.value.quality == CheckDegraded)
    || (linked && index.afterLinking.Some? && index.afterLinking.value.quality == CheckDegraded)
  }

  predicate SaysPartial(index: Index) { index.skippedCount != 0 || index.quality == Partial }

  /** A degraded signal outweighs a partial one, that outweighs missing evidence, and only full evidence is
      complete. */
  lemma GradesExactly(index: Index, linked: bool)
    ensures RepositoryQuality(index, linked) ==
      if SaysDegraded(index, linked) then DegradedQuality
      else if SaysPartial(index) then PartialQuality
      else if GoodIndex(index, linked) then Complete
      else UnknownQuality
  {
    CompleteIsGood(index, linked);
  }

  function Rank(q: Quality): nat {
    match q
    case Complete => 0
    case UnknownQuality => 1
    case PartialQuality => 2
    case DegradedQuality => 3
  }

  /** The grade of a manifest is that of its worst entry, and at least unknown while entries are missing. */
  lemma AggregateIsWorst(entries: seq<Entry>, expected: nat, linked: bool)
    ensures var q := AggregateQuality(entries, expected, linked);
      && (forall k :: 0 <= k < |entries| ==> Rank(RepositoryQuality(entries[k].index, linked)) <= Rank(q))
      && (|entries| != expected ==> q != Complete)
      && (q == Complete || (q == UnknownQuality && |entries| != expected)
          || exists k :: 0 <= k < |entries| && RepositoryQuality(entries[k].index, linked) == q)
  {
    var q := AggregateQuality(entries, expected, linked);
    forall k | 0 <= k < |entries| ensures Rank(RepositoryQuality(entries[k].index, linked)) <= Rank(q) {
      assert SomeEntryIs(entries, RepositoryQuality(entries[k].index, linked), linked);
    }
  }

  // ---------- Causes ----------

  // The build's try block ends with an activation: its inputs are those of the space, and with enforcement
  // every repository has a good index.
  ghost predicate GoesThrough(c: Config, s: State, id: SnapId) {
    && id in s.builds
    && s.builds[id].captured == ReposOf(s, s.builds[id].space)
    && (c.enforceQuality ==>
          && |s.builds[id].manifest| == |s.builds[id].captured|
          && forall k :: 0 <= k < |s.builds[id].manifest| ==>
               GoodIndex(s.builds[id].manifest[k].index, s.builds[id].linking))
  }

  // What the call p works on.
  ghost predicate InHand(s: State, p: CallId, id: SnapId) {
    p in s.prunes && s.prunes[p].todo != [] && s.prunes[p].todo[0] == id
  }

  // The event gives the row this status; a row not there before is a new one.
  ghost predicate Gives(c: Config, s: State, e: Event, id: SnapId, st: Status) {
    match st
    case Building => e.EInsertRow? && e.id == id
    case Active => e == EActivate(id) && GoesThrough(c, s, id)
    case Inactive =>
      && id in s.rows && s.rows[id].status.Active?
      && ((e.EActivate? && e.id != id && GoesThrough(c, s, e.id) && s.rows[id].space == s.builds[e.id].space)
          || (e.ERevoke? && e.space in s.active && s.active[e.space] == id))
    case Failed => id in s.rows && (e == EFail(id) || (s.rows[id].status.Building? && (e.EReconcile? || e.ERecovered?)))
    case Pruning => id in s.rows && e.EMarkPruning? && InHand(s, e.p, id)
  }

  ghost predicate DeletesRow(s: State, e: Event, id: SnapId) {
    || (e.EDeleteRow? && InHand(s, e.p, id))
    || e == ERecoverDelete(id)
    || (e.ERecovered? && id in s.rows && s.rows[id].status.Pruning?)
  }

  ghost predicate RemovesDirectory(s: State, e: Event, id: SnapId) {
    || (e.ERemoveArtifact? && InHand(s, e.p, id))
    || e == ERecoverRemove(id) || e == EOrphan(id)
    || (e.ERecovered? && (id !in s.rows || s.rows[id].status.Pruning?))
  }

  ghost predicate HasStatus(rows: Rows, id: SnapId, st: Status) { id in rows && rows[id].status == st }

  lemma SameInputsIsEqual(a: seq<Repo>, b: seq<Repo>)
    ensures SameInputs(a, b) <==> a == b
  {
    if SameInputs(a, b) {
      assert forall k :: 0 <= k < |a| ==> a[k] == b[k];
    }
  }

  lemma ActivatesExactly(c: Config, s: State, id: SnapId)
    requires id in s.builds
    ensures Activates(c, s, id) <==> GoesThrough(c, s, id)
  {
    var build := s.builds[id];
    SameInputsIsEqual(build.captured, ReposOf(s, build.space));
    AggregateIsComplete(build.manifest, |build.captured|, build.linking);
  }

  // ---------- Statuses ----------

  lemma ActivateGives(c: Config, s: State, k: SnapId, t: State, id: SnapId, st: Status)
    requires k in s.builds && k in s.rows && s.rows[k].status.Building? && t == Activate(c, s, k)
    requires id in s.rows && s.rows[id].status != st
    ensures HasStatus(t.rows, id, st) <==> Gives(c, s, EActivate(k), id, st)
  {
    ActivatesExactly(c, s, k);
  }

  lemma BuildGives(c: Config, s: State, e: Event, t: State, id: SnapId, st: Status)
    requires Enabled(c, s, e) && t == Apply(c, s, e)
    requires e.EMakeDir? || e.EInsertRow? || e.EIndexed? || e.EBeginLinking? || e.ELinked? || e.EFail? || e.ERevoke?
    requires e.ERevoke? ==> s.active[e.space] in s.rows && s.rows[s.active[e.space]].status.Active?
    requires !HasStatus(s.rows, id, st)
    ensures HasStatus(t.rows, id, st) <==> Gives(c, s, e, id, st)
  {}

  lemma PruneGives(c: Config, s: State, e: Event, t: State, id: SnapId, st: Status)
    requires Enabled(c, s, e) && t == Apply(c, s, e) && IsPruneStep(e) && !HasStatus(s.rows, id, st)
    ensures HasStatus(t.rows, id, st) <==> Gives(c, s, e, id, st)
  {}

  lemma RecoveryGives(c: Config, s: State, e: Event, t: State, id: SnapId, st: Status)
    requires Enabled(c, s, e) && t == Apply(c, s, e) && IsRecovery(e) && !HasStatus(s.rows, id, st)
    ensures HasStatus(t.rows, id, st) <==> Gives(c, s, e, id, st)
  {
    if e.EReconcile? {
      assert t.rows == FailBuilding(s.rows);
    } else if e.ERecovered? {
      assert t.rows == Recover(s).rows;
    } else if !e.ERecoverDelete? {
      assert t.rows == s.rows;
    }
  }

  lemma QuietGives(c: Config, s: State, e: Event, t: State, id: SnapId, st: Status)
    requires Enabled(c, s, e) && t == Apply(c, s, e) && IsQuiet(e) && !HasStatus(s.rows, id, st)
    ensures HasStatus(t.rows, id, st) <==> Gives(c, s, e, id, st)
  {}

  /** Every status a row takes has its cause, and every cause its effect. */
  lemma StatusMovesExactly(c: Config, s: State, e: Event, t: State, id: SnapId, st: Status)
    requires Inv(c, s) && Enabled(c, s, e) && t == Apply(c, s, e) && !HasStatus(s.rows, id, st)
    ensures HasStatus(t.rows, id, st) <==> Gives(c, s, e, id, st)
  {
    if IsQuiet(e) {
      QuietGives(c, s, e, t, id, st);
    } else if IsRecovery(e) {
      RecoveryGives(c, s, e, t, id, st);
    } else if IsPruneStep(e) {
      PruneGives(c, s, e, t, id, st);
    } else {
      BuildMoves(c, s, e, t, id, st);
    }
  }

  lemma BuildMoves(c: Config, s: State, e: Event, t: State, id: SnapId, st: Status)
    requires Inv(c, s) && Enabled(c, s, e) && t == Apply(c, s, e) && !HasStatus(s.rows, id, st)
    requires !IsQuiet(e) && !IsRecovery(e) && !IsPruneStep(e)
    ensures HasStatus(t.rows, id, st) <==> Gives(c, s, e, id, st)
  {
    if e.EActivate? {
      if id in s.rows { ActivateGives(c, s, e.id, t, id, st); } else { ActivateAddsNone(c, s, e.id, t, id, st); }
    } else {
      if e.ERevoke? { assert IsActiveOf(s.rows, s.active[e.space], e.space); }
      BuildGives(c, s, e, t, id, st);
    }
  }

  lemma ActivateAddsNone(c: Config, s: State, k: SnapId, t: State, id: SnapId, st: Status)
    requires k in s.builds && k in s.rows && t == Activate(c, s, k) && id !in s.rows
    ensures !HasStatus(t.rows, id, st) && !Gives(c, s, EActivate(k), id, st)
  {}

  // ---------- Rows, directories and active snapshots ----------

  // The manifest the event writes to the row: that of the build as the event leaves it, or as it was when
  // the event ends the build.
  ghost function Written(c: Config, s: State, e: Event, t: State, id: SnapId): (m: Option<seq<Entry>>) {
    match e
    case EIndexed(k, _) => if k == id && id in t.builds then Some(t.builds[id].manifest) else None
    case EBeginLinking(k) => if k == id && id in t.builds then Some(t.builds[id].manifest) else None
    case ELinked(k, _) => if k == id && id in t.builds then Some(t.builds[id].manifest) else None
    case EActivate(k) => if k == id && GoesThrough(c, s, id) then Some(s.builds[id].manifest) else None
    case EFail(k) => if k == id && id in s.builds then Some(s.builds[id].manifest) else None
    case _ => None
  }

  // The grade is that of the manifest for the repositories captured, with the linking checks once linking
  // has begun; it is lost when a crash interrupts the build.
  ghost predicate RowMoves(c: Config, s: State, e: Event, t: State, id: SnapId)
    requires id in s.rows && id in t.rows
  {
    var a, b, written := s.rows[id], t.rows[id], Written(c, s, e, t, id);
    && b.space == a.space && b.version == a.version
    && if written.Some? && id in s.builds then
         && b.manifest == written.value
         && b.quality == AggregateQuality(b.manifest, |s.builds[id].captured|,
                                          s.builds[id].linking || e.EBeginLinking?)
       else
         && b.manifest == a.manifest
         && b.quality == if a.status.Building? && (e.EReconcile? || e.ERecovered?) then UnknownQuality else a.quality
  }

  // A row stays unless it is deleted, with these columns.
  ghost predicate OldRow(c: Config, s: State, e: Event, t: State, id: SnapId)
    requires id in s.rows
  {
    (id in t.rows <==> !DeletesRow(s, e, id)) && (id in t.rows ==> RowMoves(c, s, e, t, id))
  }

  // A row appears with the first transaction of its build, empty and ungraded.
  ghost predicate NewRows(s: State, e: Event, t: State) {
    && (e.EInsertRow? ==> e.id in t.rows)
    && forall id :: id in t.rows && id !in s.rows ==>
         e.EInsertRow? && e.id == id && id in s.builds
         && t.rows[id] == Row(s.builds[id].space, e.version, Building, [], UnknownQuality)
  }

  ghost predicate Directory(s: State, e: Event, t: State, id: SnapId) {
    id in t.artifacts <==> (e.EMakeDir? && e.id == id) || (id in s.artifacts && !RemovesDirectory(s, e, id))
  }

  ghost predicate ActiveMoves(c: Config, s: State, e: Event, t: State) {
    if e.EActivate? && GoesThrough(c, s, e.id) then t.active == s.active[s.builds[e.id].space := e.id]
    else if e.ERevoke? then t.active == s.active - {e.space}
    else t.active == s.active
  }

  lemma ActivateRow(c: Config, s: State, k: SnapId, t: State, id: SnapId)
    requires k in s.builds && k in s.rows && t == Activate(c, s, k) && id in s.rows
    ensures OldRow(c, s, EActivate(k), t, id)
  {
    ActivatesExactly(c, s, k);
    if !GoesThrough(c, s, k) {
      assert t.rows == s.rows;
    } else if id == k {
      assert t.rows[id].manifest == s.builds[id].manifest;
    }
  }

  lemma BuildRow(c: Config, s: State, e: Event, t: State, id: SnapId)
    requires Enabled(c, s, e) && t == Apply(c, s, e) && id in s.rows
    requires e.EMakeDir? || e.EInsertRow? || e.EIndexed? || e.EBeginLinking? || e.ELinked? || e.EFail? || e.ERevoke?
    ensures OldRow(c, s, e, t, id)
  {}

  lemma QuietRow(c: Config, s: State, e: Event, t: State, id: SnapId)
    requires Enabled(c, s, e) && t == Apply(c, s, e) && IsQuiet(e) && id in s.rows
    ensures OldRow(c, s, e, t, id)
  {}

  lemma RecoveryRow(c: Config, s: State, e: Event, t: State, id: SnapId)
    requires Enabled(c, s, e) && t == Apply(c, s, e) && IsRecovery(e) && id in s.rows
    ensures OldRow(c, s, e, t, id)
  {}

  lemma PruneRow(c: Config, s: State, e: Event, t: State, id: SnapId)
    requires Enabled(c, s, e) && t == Apply(c, s, e) && IsPruneStep(e) && id in s.rows
    ensures OldRow(c, s, e, t, id)
  {}

  /** What every step does to a row besides its status. */
  lemma RowMovesExactly(c: Config, s: State, e: Event, t: State, id: SnapId)
    requires Enabled(c, s, e) && t == Apply(c, s, e) && id in s.rows
    ensures OldRow(c, s, e, t, id)
  {
    if e.EActivate? {
      ActivateRow(c, s, e.id, t, id);
    } else if IsQuiet(e) {
      QuietRow(c, s, e, t, id);
    } else if IsRecovery(e) {
      RecoveryRow(c, s, e, t, id);
    } else if IsPruneStep(e) {
      PruneRow(c, s, e, t, id);
    } else {
      BuildRow(c, s, e, t, id);
    }
  }

  lemma ActivationTables(c: Config, s: State, id: SnapId, t: State)
    requires id in s.builds && id in s.rows && t == Activate(c, s, id)
    ensures NewRows(s, EActivate(id), t) && t.artifacts == s.artifacts && ActiveMoves(c, s, EActivate(id), t)
  {
    ActivatesExactly(c, s, id);
  }

  lemma RecoveryAddsNone(c: Config, s: State, e: Event, t: State)
    requires Enabled(c, s, e) && t == Apply(c, s, e) && IsRecovery(e)
    ensures NewRows(s, e, t)
  {}

  lemma OtherRows(c: Config, s: State, e: Event, t: State)
    requires Enabled(c, s, e) && t == Apply(c, s, e) && !e.EActivate? && !IsRecovery(e)
    ensures NewRows(s, e, t)
  {}

  lemma OtherActives(c: Config, s: State, e: Event, t: State)
    requires Enabled(c, s, e) && t == Apply(c, s, e) && !e.EActivate?
    ensures ActiveMoves(c, s, e, t)
  {}

  lemma RecoveryDirectory(c: Config, s: State, e: Event, t: State, id: SnapId)
    requires Enabled(c, s, e) && t == Apply(c, s, e) && IsRecovery(e)
    ensures Directory(s, e, t, id)
  {}

  lemma OtherDirectory(c: Config, s: State, e: Event, t: State, id: SnapId)
    requires Enabled(c, s, e) && t == Apply(c, s, e) && !e.EActivate? && !IsRecovery(e)
    ensures Directory(s, e, t, id)
  {}

  /** Which rows are new, which directories exist, and what the spaces name as active. */
  lemma TablesMoveExactly(c: Config, s: State, e: Event, t: State)
    requires Enabled(c, s, e) && t == Apply(c, s, e)
    ensures NewRows(s, e, t) && ActiveMoves(c, s, e, t) && forall id :: Directory(s, e, t, id)
  {
    if e.EActivate? {
      ActivationTables(c, s, e.id, t);
    } else {
      if IsRecovery(e) { RecoveryAddsNone(c, s, e, t); } else { OtherRows(c, s, e, t); }
      OtherActives(c, s, e, t);
      forall id ensures Directory(s, e, t, id) {
        if IsRecovery(e) { RecoveryDirectory(c, s, e, t, id); } else { OtherDirectory(c, s, e, t, id); }
      }
    }
  }

  // ---------- Calls in progress ----------

  ghost predicate EndsBuild(c: Config, s: State, e: Event, id: SnapId) {
    (e == EActivate(id) && GoesThrough(c, s, id)) || e == EFail(id) || e == EAbandon(id) || e.ECrash?
  }

  // The entry of an indexed repository: its row as captured, and the index without a linking check.
  ghost predicate IsEntry(entry: Entry, repo: Repo, index: Index) {
    && entry.repo == repo.id && entry.branch == repo.branch && entry.commit == repo.commit
    && entry.index.status == index.status && entry.index.quality == index.quality
    && entry.index.skippedCount == index.skippedCount && entry.index.afterPrimary == index.afterPrimary
    && entry.index.afterLinking == None
  }

  // The next repository joins the manifest; with enforcement the call throws unless its index is good.
  ghost predicate IndexedBuild(c: Config, a: Build, b: Build, index: Index) {
    var n := |a.manifest|;
    && n < |a.captured| && |b.manifest| == n + 1 && b.manifest[..n] == a.manifest
    && IsEntry(b.manifest[n], a.captured[n], index)
    && (b.threw <==> c.enforceQuality && !GoodIndex(index, false))
    && b.space == a.space && b.captured == a.captured && b.linking == a.linking && b.linked == a.linked
  }

  // The next entry gets its check; with enforcement the call throws unless the entry is good with it.
  ghost predicate LinkedBuild(c: Config, a: Build, b: Build, check: Check) {
    var k := a.linked;
    && k < |a.manifest| && |b.manifest| == |a.manifest|
    && b.manifest[k] == a.manifest[k].(index := a.manifest[k].index.(afterLinking := Some(check)))
    && (forall n :: 0 <= n < |a.manifest| && n != k ==> b.manifest[n] == a.manifest[n])
    && (b.threw <==>
          c.enforceQuality && !(GoodIndex(a.manifest[k].index, false) && check == Check(Ready, CheckComplete)))
    && b.space == a.space && b.captured == a.captured && b.linking == a.linking && b.linked == k + 1
  }

  ghost predicate BuildMoved(c: Config, s: State, e: Event, id: SnapId, a: Build, b: Build) {
    match e
    case EIndexed(k, index) => if k == id then IndexedBuild(c, a, b, index) else b == a
    case EBeginLinking(k) => b == if k == id then a.(linking := true) else a
    case ELinked(k, check) => if k == id then LinkedBuild(c, a, b, check) else b == a
    case EActivate(k) => b == if k == id then a.(threw := true) else a
    case _ => b == a
  }

  ghost predicate BuildCall(c: Config, s: State, e: Event, t: State, id: SnapId) {
    && (id in t.builds <==> (e.EMakeDir? && e.id == id) || (id in s.builds && !EndsBuild(c, s, e, id)))
    && (id in t.builds && id in s.builds ==> BuildMoved(c, s, e, id, s.builds[id], t.builds[id]))
    && (id in t.builds && id !in s.builds ==>
          e.EMakeDir? && t.builds[id] == Build(e.space, ReposOf(s, e.space), [], false, 0, false))
  }

  lemma IndexedMoves(c: Config, s: State, id: SnapId, index: Index, t: State)
    requires id in s.builds && id in s.rows && |s.builds[id].manifest| < |s.builds[id].captured|
    requires t == RecordIndexed(c, s, id, index)
    ensures id in t.builds && IndexedBuild(c, s.builds[id], t.builds[id], index)
  {
    CompleteIsGood(index.(afterLinking := None), false);
  }

  lemma LinkedMoves(c: Config, s: State, id: SnapId, check: Check, t: State)
    requires id in s.builds && id in s.rows && s.builds[id].linked < |s.builds[id].manifest|
    requires t == Linked(c, s, id, check)
    ensures id in t.builds && LinkedBuild(c, s.builds[id], t.builds[id], check)
  {
    var k := s.builds[id].linked;
    CompleteIsGood(t.builds[id].manifest[k].index, true);
  }

  lemma ManifestCall(c: Config, s: State, e: Event, t: State, id: SnapId)
    requires Enabled(c, s, e) && t == Apply(c, s, e) && (e.EIndexed? || e.EBeginLinking? || e.ELinked?)
    ensures BuildCall(c, s, e, t, id)
  {
    if e.EIndexed? {
      IndexedMoves(c, s, e.id, e.index, t);
    } else if e.ELinked? {
      LinkedMoves(c, s, e.id, e.check, t);
    }
  }

  lemma ActivateCall(c: Config, s: State, k: SnapId, t: State, id: SnapId)
    requires k in s.builds && k in s.rows && t == Activate(c, s, k)
    ensures BuildCall(c, s, EActivate(k), t, id)
  {
    ActivatesExactly(c, s, k);
    ActivateBuilds(c, s, k, t);
  }

  lemma ActivateBuilds(c: Config, s: State, k: SnapId, t: State)
    requires k in s.builds && k in s.rows && t == Activate(c, s, k)
    ensures t.builds ==
      if Activates(c, s, k) then s.builds - {k} else s.builds[k := s.builds[k].(threw := true)]
  {}

  lemma RecoveryIsIdle(c: Config, s: State, e: Event, t: State)
    requires Enabled(c, s, e) && t == Apply(c, s, e) && IsRecovery(e)
    ensures t.builds == s.builds && t.prunes == s.prunes
  {}

  lemma PruneStepBuildsNothing(c: Config, s: State, e: Event, t: State)
    requires Enabled(c, s, e) && t == Apply(c, s, e) && IsPruneStep(e)
    ensures t.builds == s.builds
  {}

  lemma BuildStepPrunesNothing(c: Config, s: State, e: Event, t: State)
    requires Enabled(c, s, e) && t == Apply(c, s, e) && !IsQuiet(e) && !IsRecovery(e) && !IsPruneStep(e)
    ensures t.prunes == s.prunes
  {}

  lemma IdleCall(c: Config, s: State, e: Event, t: State, id: SnapId)
    requires t.builds == s.builds && (IsRecovery(e) || IsPruneStep(e))
    ensures BuildCall(c, s, e, t, id)
  {}

  lemma OtherCall(c: Config, s: State, e: Event, t: State, id: SnapId)
    requires Enabled(c, s, e) && t == Apply(c, s, e) && (e.EMakeDir? || e.EInsertRow? || e.EFail? || e.ERevoke?)
    ensures BuildCall(c, s, e, t, id)
  {}

  lemma QuietCall(c: Config, s: State, e: Event, t: State, id: SnapId)
    requires Enabled(c, s, e) && t == Apply(c, s, e) && IsQuiet(e)
    ensures BuildCall(c, s, e, t, id)
  {}

  /** What every step does to a build in progress: when it begins and ends, what it records, and exactly
      when its call throws. */
  lemma BuildsMoveExactly(c: Config, s: State, e: Event, t: State, id: SnapId)
    requires Enabled(c, s, e) && t == Apply(c, s, e)
    ensures BuildCall(c, s, e, t, id)
  {
    if e.EIndexed? || e.EBeginLinking? || e.ELinked? {
      ManifestCall(c, s, e, t, id);
    } else if e.EActivate? {
      ActivateCall(c, s, e.id, t, id);
    } else if IsRecovery(e) {
      RecoveryIsIdle(c, s, e, t);
      IdleCall(c, s, e, t, id);
    } else if IsPruneStep(e) {
      PruneStepBuildsNothing(c, s, e, t);
      IdleCall(c, s, e, t, id);
    } else if IsQuiet(e) {
      QuietCall(c, s, e, t, id);
    } else {
      OtherCall(c, s, e, t, id);
    }
  }

  // A prune takes the rows of its space with at least `keep` newer ones, except the active one, and notes
  // their statuses.
  ghost predicate NewPrune(s: State, prune: Prune, space: SpaceId, keep: nat, todo: seq<SnapId>) {
    && prune.todo == todo && prune.stage == Closing && prune.captured.Keys == prune.ids
    && (forall id :: id in prune.ids ==> id in s.rows && prune.captured[id] == s.rows[id].status)
    && forall id :: id in prune.ids <==>
         && id in s.rows && s.rows[id].space == space && !(space in s.active && s.active[space] == id)
         && |set k | k in s.rows && s.rows[k].space == space && s.rows[k].version > s.rows[id].version| >= keep
  }

  ghost predicate PruneCall(s: State, e: Event, t: State, p: CallId) {
    && (p in t.prunes <==> (e.EBeginPrune? && e.p == p) || (p in s.prunes && e != EEndPrune(p) && !e.ECrash?))
    && (p in t.prunes && p in s.prunes ==> PruneMoved(e, p, s.prunes[p], t.prunes[p]))
    && (p in t.prunes && p !in s.prunes ==> e.EBeginPrune? && NewPrune(s, t.prunes[p], e.space, e.keep, e.todo))
  }

  ghost predicate PruneMoved(e: Event, p: CallId, a: Prune, b: Prune) {
    match e
    case EMarkPruning(q) => b == if q == p then a.(stage := Marked) else a
    case ERemoveArtifact(q) => b == if q == p then a.(stage := Removed) else a
    case EDeleteRow(q) => if q == p then a.todo != [] && b == a.(todo := a.todo[1..], stage := Closing) else b == a
    case _ => b == a
  }

  lemma BegunPrune(s: State, space: SpaceId, keep: nat, todo: seq<SnapId>, p: CallId, prune: Prune)
    requires Candidates(s, space, keep) <= s.rows.Keys
    requires prune == BeginPrune(s, p, Candidates(s, space, keep), todo).prunes[p]
    ensures NewPrune(s, prune, space, keep, todo)
  {
    forall id | id in s.rows
      ensures Newer(s.rows, space, s.rows[id].version) ==
        set k | k in s.rows && s.rows[k].space == space && s.rows[k].version > s.rows[id].version
    {}
  }

  lemma StepPruneCall(c: Config, s: State, e: Event, t: State, p: CallId)
    requires Enabled(c, s, e) && t == Apply(c, s, e) && (e.EMarkPruning? || e.ERemoveArtifact? || e.EDeleteRow?)
    ensures PruneCall(s, e, t, p)
  {}

  lemma IdlePruneCall(s: State, e: Event, t: State, p: CallId)
    requires t.prunes == s.prunes && !IsQuiet(e) && !IsPruneStep(e)
    ensures PruneCall(s, e, t, p)
  {}

  lemma QuietPruneCall(c: Config, s: State, e: Event, t: State, p: CallId)
    requires Enabled(c, s, e) && t == Apply(c, s, e) && IsQuiet(e)
    ensures PruneCall(s, e, t, p)
  {}

  /** What every step does to a prune in progress. */
  lemma PrunesMoveExactly(c: Config, s: State, e: Event, t: State, p: CallId)
    requires Enabled(c, s, e) && t == Apply(c, s, e)
    ensures PruneCall(s, e, t, p)
  {
    if e.EBeginPrune? {
      BegunPrune(s, e.space, e.keep, e.todo, e.p, t.prunes[e.p]);
    } else if IsPruneStep(e) {
      StepPruneCall(c, s, e, t, p);
    } else if IsQuiet(e) {
      QuietPruneCall(c, s, e, t, p);
    } else {
      if IsRecovery(e) { RecoveryIsIdle(c, s, e, t); } else { BuildStepPrunesNothing(c, s, e, t); }
      IdlePruneCall(s, e, t, p);
    }
  }
}
