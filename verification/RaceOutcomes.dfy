/**
 What becomes of the turns and of what the agent service remembers between its awaits: every step of the
 interleaved machine read off the tables and the memory before it.
 */
module RaceOutcomes {
  import opened Wrappers
  import opened AgentTurns
  import opened AgentOutcomes
  import opened R = AgentRaces

  // ---------- Tables ----------

  // The attempt a caller names, or else the newest running one.
  ghost predicate Names(s: State, id: TurnId, named: Option<nat>, n: Option<nat>) {
    if named.Some? then n == named
    else if n.Some? then NewestRunning(s, id, n.value)
    else forall m: nat :: (id, m) in s.attempts ==> !s.attempts[(id, m)].status.Running?
  }

  // An active turn ends and counts nothing, with the attempt `named` or else the newest one.
  ghost predicate EndsLocally(s: State, t: State, id: TurnId, status: Status, named: Option<nat>) {
    if IsActive(s.turns, id)
    then exists n :: Names(s, id, named, n) && Finished(s, t, id, status, None, n)
    else t == s
  }

  // What a map of attempt numbers holds for a turn.
  ghost predicate Maps(m: map<TurnId, nat>, id: TurnId, n: Option<nat>) {
    if id in m then n == Some(m[id]) else n.None?
  }

  ghost predicate Forced(s: State, t: State, id: TurnId, requeue: bool, named: Option<nat>) {
    if IsActive(s.turns, id) && requeue
    then exists u :: EndsLocally(s, u, id, Status.Interrupted, named) && id in u.turns && t.attempts == u.attempts
                     && t.turns == u.turns[id := u.turns[id].(status := Queued)]
    else EndsLocally(s, t, id, Status.Interrupted, named)
  }

  ghost predicate TablesMove(s: Race, e: Step, t: State) {
    match e
    case SStart(id, _) => Begun(s.tables, t, id)
    case SCatch(id) => EndsLocally(s.tables, t, id, Failed, None)
    case STerminal(id, event, closed, n) =>
      id in s.open &&
      if IsActive(s.tables.turns, id) then Delivered(s.tables, t, id, s.open[id], event, closed, n) else t == s.tables
    case SInterrupted(call) =>
      && call in s.interrupts && s.interrupts[call].Closing?
      && EndsLocally(s.tables, t, s.interrupts[call].id, Status.Interrupted, s.interrupts[call].captured)
    case SForce(id, requeue) => exists n :: Maps(s.runs, id, n) && Forced(s.tables, t, id, requeue, n)
    case SSend(id, chat, n) => Moves(s.tables, t, ESend(id, chat, n))
    case SResume(id, n) => Moves(s.tables, t, EResume(id, n))
    case SDeleteChat(chat) => Moves(s.tables, t, EDeleteChat(chat))
    case SRestart => Moves(s.tables, t, ERecover)
    case _ => t == s.tables
  }

  // What the event of the turn queue does.
  ghost predicate Moves(s: State, t: State, e: Event) { TurnsMove(s, e, t) && AttemptsMove(s, e, t) }

  lemma NewestNames(s: State, id: TurnId)
    ensures Names(s, id, None, Newest(s, id))
  {
    if Newest(s, id).None? {
      forall m: nat | (id, m) in s.attempts ensures !s.attempts[(id, m)].status.Running? {
        if s.attempts[(id, m)].status.Running? { NewestExists(s, id, m); }
      }
    }
  }

  // With a running attempt there is a newest one.
  lemma NewestExists(s: State, id: TurnId, m: nat)
    requires (id, m) in s.attempts && s.attempts[(id, m)].status.Running?
    ensures exists n: nat :: NewestRunning(s, id, n)
  {
    var running := set k | k in s.attempts && k.0 == id && s.attempts[k].status.Running?;
    assert (id, m) in running;
    var k := Greatest(running);
    assert forall j: nat :: (id, j) in s.attempts && s.attempts[(id, j)].status.Running? ==> (id, j) in running;
    assert NewestRunning(s, id, k.1);
  }

  lemma {:induction false} Greatest(keys: set<(TurnId, nat)>) returns (k: (TurnId, nat))
    requires keys != {}
    ensures k in keys && forall j :: j in keys ==> j.1 <= k.1
    decreases |keys|
  {
    k :| k in keys;
    if keys != {k} {
      var rest := Greatest(keys - {k});
      assert forall j :: j in keys ==> j == k || j in keys - {k};
      if rest.1 > k.1 { k := rest; }
    }
  }

  lemma LocalMoves(s: State, t: State, id: TurnId, status: Status, named: Option<nat>)
    requires t == FinishLocally(s, id, status, named)
    ensures EndsLocally(s, t, id, status, named)
  {
    if IsActive(s.turns, id) {
      NewestNames(s, id);
      var n := if named.Some? then named else Newest(s, id);
      FinishMoves(s, t, id, status, None, n);
      assert Names(s, id, named, n);
    }
  }

  lemma ForceMoves(s: Race, id: TurnId, requeue: bool, t: State)
    requires t == Force(s, id, requeue).tables
    ensures TablesMove(s, SForce(id, requeue), t)
  {
    var n := Captured(s, id);
    var u := FinishLocally(s.tables, id, Status.Interrupted, n);
    LocalMoves(s.tables, u, id, Status.Interrupted, n);
    assert Maps(s.runs, id, n);
    if IsActive(s.tables.turns, id) && requeue {
      assert t.turns == u.turns[id := u.turns[id].(status := Queued)];
    }
    assert Forced(s.tables, t, id, requeue, n);
  }

  lemma BeginMoves(s: Race, id: TurnId, refused: bool, t: State)
    requires id in s.tables.turns && t == Begin(s, id, refused).tables
    ensures Begun(s.tables, t, id)
  {}

  lemma EndRunMoves(s: Race, e: Step, t: State)
    requires e.STerminal? && e.id in s.open && t == EndRun(s, e.id, e.event, e.closed, e.sequence).tables
    ensures TablesMove(s, e, t)
  {
    if IsActive(s.tables.turns, e.id) {
      TerminalMoves(s.tables, t, e.id, s.open[e.id], e.event, e.closed, e.sequence);
    }
  }

  lemma PlainMoves(c: Config, s: Race, e: Step, t: State)
    requires e.SSend? || e.SResume? || e.SDeleteChat? || e.SRestart?
    requires R.Enabled(c, s, e) && t == R.Apply(c, s, e).tables
    ensures TablesMove(s, e, t)
  {
    match e
    case SSend(id, chat, n) => SendMoves(s.tables, id, chat, n, t);
    case SResume(id, n) => ResumeMoves(s.tables, id, n, t);
    case SDeleteChat(chat) => DeleteMoves(s.tables, chat, t);
    case SRestart => RecoverMoves(s.tables, t);
  }

  /** What every step does to the tables: which turn it ends, with which attempt and metrics, which one it
      starts or queues, and that it leaves everything else alone. */
  lemma TablesMoveExactly(c: Config, s: Race, e: Step, t: State)
    requires R.Enabled(c, s, e) && t == R.Apply(c, s, e).tables
    ensures TablesMove(s, e, t)
  {
    match e
    case SStart(id, refused) => BeginMoves(s, id, refused, t);
    case SCatch(id) => LocalMoves(s.tables, t, id, Failed, None);
    case STerminal(_, _, _, _) => EndRunMoves(s, e, t);
    case SInterrupted(call) =>
      LocalMoves(s.tables, t, s.interrupts[call].id, Status.Interrupted, s.interrupts[call].captured);
    case SForce(id, requeue) => ForceMoves(s, id, requeue, t);
    case SInterrupt(_, _) =>
    case SCapture(_) =>
    case _ => PlainMoves(c, s, e, t);
  }

  // ---------- Memory ----------

  // The step takes the turn's run out of the service's map.
  ghost predicate Forgets(s: Race, e: Step, id: TurnId) {
    || (e.STerminal? && e.id == id) || (e.SForce? && e.id == id) || e.SRestart?
    || (e.SInterrupted? && e.call in s.interrupts && s.interrupts[e.call].id == id)
  }

  // The map of runs and the runs open in the runtime after a step.
  ghost predicate RunsMove(s: Race, e: Step, t: Race, id: TurnId) {
    if e == SStart(id, false) then
      && id in s.tables.turns
      && Maps(t.runs, id, Some(s.tables.turns[id].attemptCount + 1))
      && Maps(t.open, id, Some(s.tables.turns[id].attemptCount + 1))
    else
      && Kept(s.runs, t.runs, id, Forgets(s, e, id))
      && Kept(s.open, t.open, id, (e.STerminal? && e.id == id) || e.SRestart?)
  }

  ghost predicate Kept(m: map<TurnId, nat>, n: map<TurnId, nat>, id: TurnId, removed: bool) {
    (id in n <==> id in m && !removed) && (id in n ==> n[id] == m[id])
  }

  // A refused start awaits its catch.
  ghost predicate FailingMoves(s: Race, e: Step, t: Race) {
    match e
    case SStart(id, refused) => t.failing == if refused then Some(id) else s.failing
    case SCatch(_) => t.failing.None?
    case SRestart => t.failing.None?
    case _ => t.failing == s.failing
  }

  // A call of interruptTurn waits for the run open at its beginning, unless the turn is queued, and
  // remembers the run that the service's map holds when it goes on.
  ghost predicate CallMoves(s: Race, e: Step, t: Race, call: CallId) {
    && (call in t.interrupts <==>
          (e.SInterrupt? && e.call == call) || (call in s.interrupts && e != SInterrupted(call) && !e.SRestart?))
    && (call in t.interrupts ==> CallAfter(s, e, call, t.interrupts[call]))
  }

  ghost predicate CallAfter(s: Race, e: Step, call: CallId, i: Interrupt) {
    if e.SInterrupt? && e.call == call then IsCalled(s, e.id, i)
    else if e == SCapture(call) then call in s.interrupts && IsClosing(s, s.interrupts[call].id, i)
    else call in s.interrupts && i == s.interrupts[call]
  }

  ghost predicate IsClosing(s: Race, id: TurnId, i: Interrupt) {
    i.Closing? && i.id == id && Maps(s.runs, id, i.captured)
  }

  ghost predicate IsCalled(s: Race, id: TurnId, i: Interrupt) {
    id in s.tables.turns &&
    if s.tables.turns[id].status == Queued then IsClosing(s, id, i)
    else i.Waiting? && i.id == id && Maps(s.open, id, i.awaited)
  }

  /** What every step does to the service's map of runs and to the runs open in the runtime. */
  lemma RunsMoveExactly(c: Config, s: Race, e: Step, t: Race, id: TurnId)
    requires R.Enabled(c, s, e) && t == R.Apply(c, s, e)
    ensures RunsMove(s, e, t, id)
  {}

  /** What every step does to the calls of interruptTurn and to a refused start. */
  lemma CallsMoveExactly(c: Config, s: Race, e: Step, t: Race, call: CallId)
    requires R.Enabled(c, s, e) && t == R.Apply(c, s, e)
    ensures CallMoves(s, e, t, call) && FailingMoves(s, e, t)
  {}
}
