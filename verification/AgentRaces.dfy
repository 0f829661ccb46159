/**
 The turns of module AgentTurns together with what apps/api/src/services/agentService.ts keeps in
 memory across its awaits: its map of runs, the runs still open in the agent runtime, interruptTurn
 calls between their awaits, and a start the runtime refused whose error the dispatcher has not
 caught yet.
 */
module AgentRaces {
  import opened Wrappers
  import opened AgentTurns
  import Proofs = AgentProofs

  type CallId = nat

  // An interruptTurn call: waiting for runtime.interrupt, which returns when the run open at the call
  // has settled, or past its look at `runs` and closing the turn's query tools.
  datatype Interrupt = Waiting(id: TurnId, awaited: Option<nat>) | Closing(id: TurnId, captured: Option<nat>)

  // `runs` holds the attempt number of each RunState, `open` that of each run the runtime has not
  // ended.  There is one dispatcher, so at most one refused start is pending.
  datatype Race = Race(tables: State, runs: map<TurnId, nat>, open: map<TurnId, nat>,
                       interrupts: map<CallId, Interrupt>, failing: Option<TurnId>)

  const CALM := Race(EMPTY, map[], map[], map[], None)

  function Captured(s: Race, id: TurnId): Option<nat> { if id in s.runs then Some(s.runs[id]) else None }

  // The attempt finishTurnLocally looks up when its caller names none.
  ghost function Newest(s: State, id: TurnId): Option<nat> {
    if exists n: nat :: NewestRunning(s, id, n) then
      var n: nat :| NewestRunning(s, id, n);
      Some(n)
    else None
  }

  ghost function FinishLocally(s: State, id: TurnId, status: Status, attempt: Option<nat>): State {
    if IsActive(s.turns, id) then Finish(s, id, status, None, if attempt.Some? then attempt else Newest(s, id)) else s
  }

  // ---------- Steps ----------

  datatype Step =
    | SSend(id: TurnId, chat: ChatId, sequence: nat)
    | SStart(id: TurnId, refused: bool)         // the transaction of startQueuedTurn, then startRun
    | SCatch(id: TurnId)                        // the dispatcher's catch block
    | STerminal(id: TurnId, event: TerminalEvent, closed: bool, sequence: nat)
    | SInterrupt(call: CallId, id: TurnId)      // interruptTurn up to its first await
    | SCapture(call: CallId)                    // ... from runtime.interrupt to closeTurn
    | SInterrupted(call: CallId)                // ... and after closeTurn
    | SForce(id: TurnId, requeue: bool)         // forceInterruptTurns
    | SResume(id: TurnId, sequence: nat)
    | SDeleteChat(chat: ChatId)
    | SRestart

  // Turn ids are random and never reused.
  predicate IsFreshTurn(s: Race, id: TurnId) {
    && id !in s.tables.turns && id !in s.open && s.failing != Some(id)
    && forall call :: call in s.interrupts ==> s.interrupts[call].id != id
  }

  // The run that runtime.interrupt waits for is over; the turn may have been started again since.
  predicate HasSettled(s: Race, i: Interrupt)
    requires i.Waiting?
  {
    i.awaited.None? || i.id !in s.open || s.open[i.id] != i.awaited.value
  }

  ghost predicate Enabled(c: Config, s: Race, e: Step) {
    match e
    case SSend(id, chat, n) => IsFreshTurn(s, id) && AgentTurns.Enabled(c, s.tables, ESend(id, chat, n))
    // the runtime refuses a second run of a turn, and may refuse for reasons of its own
    case SStart(id, refused) =>
      s.failing.None? && AgentTurns.Enabled(c, s.tables, EStart(id)) && (id in s.open ==> refused)
    // a refused start, or an error before the transaction
    case SCatch(id) => s.failing == Some(id) || (s.failing.None? && id in QueuedTurns(s.tables.turns))
    case STerminal(id, event, _, n) => id in s.open && Terminated(event.status) && IsNextSequence(s.tables.turns, n)
    case SInterrupt(call, id) => call !in s.interrupts && IsActive(s.tables.turns, id)
    case SCapture(call) => call in s.interrupts && s.interrupts[call].Waiting? && HasSettled(s, s.interrupts[call])
    case SInterrupted(call) => call in s.interrupts && s.interrupts[call].Closing?
    case SForce(id, _) => true
    case SResume(id, n) => AgentTurns.Enabled(c, s.tables, EResume(id, n))
    case SDeleteChat(chat) => AgentTurns.Enabled(c, s.tables, EDeleteChat(chat))
    case SRestart => true
  }

  function Begin(s: Race, id: TurnId, refused: bool): Race
    requires id in s.tables.turns
  {
    var t := s.(tables := Start(s.tables, id));
    var n := s.tables.turns[id].attemptCount + 1;
    if refused then t.(failing := Some(id)) else t.(runs := s.runs[id := n], open := s.open[id := n])
  }

  function EndRun(s: Race, id: TurnId, e: TerminalEvent, closed: bool, sequence: nat): Race
    requires id in s.open
  {
    s.(tables := if id in s.tables.turns then Terminal(s.tables, id, s.open[id], e, closed, sequence) else s.tables,
       runs := s.runs - {id}, open := s.open - {id})
  }

  function Call(s: Race, call: CallId, id: TurnId): Race
    requires id in s.tables.turns
  {
    s.(interrupts := s.interrupts[call :=
         if s.tables.turns[id].status.Queued? then Closing(id, Captured(s, id))
         else Waiting(id, if id in s.open then Some(s.open[id]) else None)])
  }

  ghost function Interrupted(s: Race, call: CallId): Race
    requires call in s.interrupts && s.interrupts[call].Closing?
  {
    var i := s.interrupts[call];
    s.(tables := FinishLocally(s.tables, i.id, Status.Interrupted, i.captured),
       runs := s.runs - {i.id}, interrupts := s.interrupts - {call})
  }

  ghost function Force(s: Race, id: TurnId, requeue: bool): Race {
    var ended := FinishLocally(s.tables, id, Status.Interrupted, Captured(s, id));
    s.(tables := if IsActive(s.tables.turns, id) && requeue then Requeue(ended, id, None) else ended,
       runs := s.runs - {id})
  }

  ghost function Apply(c: Config, s: Race, e: Step): Race
    requires Enabled(c, s, e)
  {
    match e
    case SSend(id, chat, n) => s.(tables := Send(s.tables, id, chat, n))
    case SStart(id, refused) => Begin(s, id, refused)
    case SCatch(id) => s.(tables := FinishLocally(s.tables, id, Failed, None), failing := None)
    case STerminal(id, event, closed, n) => EndRun(s, id, event, closed, n)
    case SInterrupt(call, id) => Call(s, call, id)
    case SCapture(call) =>
      s.(interrupts := s.interrupts[call := Closing(s.interrupts[call].id, Captured(s, s.interrupts[call].id))])
    case SInterrupted(call) => Interrupted(s, call)
    case SForce(id, requeue) => Force(s, id, requeue)
    case SResume(id, n) => s.(tables := Requeue(s.tables, id, Some(n)))
    case SDeleteChat(chat) => s.(tables := DeleteChat(s.tables, chat))
    case SRestart => Race(Recover(s.tables), map[], map[], map[], None)
  }

  ghost predicate Possible(c: Config, s: Race, es: seq<Step>)
    decreases |es|
  {
    es == [] || (Enabled(c, s, es[0]) && Possible(c, Apply(c, s, es[0]), es[1..]))
  }

  ghost function Run(c: Config, s: Race, es: seq<Step>): Race
    requires Possible(c, s, es)
    decreases |es|
  {
    if es == [] then s else Run(c, Apply(c, s, es[0]), es[1..])
  }

  // ---------- What memory knows ----------

  // A turn of the service's map runs as the attempt that the runtime has open for it.
  ghost predicate IsLinked(s: Race, id: TurnId) {
    && id in s.runs && id in s.open && s.open[id] == s.runs[id]
    && id in s.tables.turns && s.tables.turns[id].status.Running? && s.tables.turns[id].attemptCount == s.runs[id]
  }

  // The open run of a running turn belongs to an earlier attempt.
  predicate Outrun(s: Race, id: TurnId) {
    && id in s.open && id in s.tables.turns && s.tables.turns[id].status.Running?
    && s.open[id] != s.tables.turns[id].attemptCount
  }

  ghost predicate Linked(s: Race) {
    && (forall id :: id in s.runs ==> IsLinked(s, id))
    && (forall id: TurnId :: Outrun(s, id) ==> s.failing == Some(id))
    && (s.failing.Some? ==> s.failing.value !in s.runs)
    && (forall id :: id in s.tables.turns ==> !s.tables.turns[id].status.Pending?)
  }

  // An open run's attempt has a row that counted nothing yet.
  ghost predicate OpenRow(s: Race, id: TurnId)
    requires id in s.open && id in s.tables.turns
  {
    && (id, s.open[id]) in s.tables.attempts && s.tables.attempts[(id, s.open[id])].counters == NO_METRICS
    && s.tables.turns[id].recoveries < s.tables.turns[id].attemptCount
  }

  ghost predicate Counted(s: Race) {
    AttemptsInv(s.tables) && forall id :: id in s.open && id in s.tables.turns ==> OpenRow(s, id)
  }

  // ---------- Every step keeps memory linked ----------

  lemma FinishTurns(s: State, id: TurnId, status: Status, attempt: Option<nat>)
    requires Terminated(status)
    ensures var t := FinishLocally(s, id, status, attempt);
      && t.turns.Keys == s.turns.Keys
      && (forall k :: k in s.turns && k != id ==> t.turns[k] == s.turns[k])
      && (id in s.turns ==> !Active(t.turns[id].status))
  {}

  // A step that ends, or leaves ended, the turn it is about.
  ghost predicate Stops(s: Race, t: Race, id: TurnId) {
    && t.tables.turns.Keys == s.tables.turns.Keys
    && (forall k :: k in s.tables.turns && k != id ==> t.tables.turns[k] == s.tables.turns[k])
    && (id in t.tables.turns ==> !t.tables.turns[id].status.Running? && !t.tables.turns[id].status.Pending?)
    && id !in t.runs && (forall k :: k in t.runs <==> k in s.runs && k != id)
    && (forall k :: k in t.runs ==> t.runs[k] == s.runs[k])
    && (forall k :: k in t.open ==> k in s.open && t.open[k] == s.open[k])
    && (forall k :: k in s.open && k != id ==> k in t.open)
    && (t.failing == s.failing || (s.failing == Some(id) && t.failing.None?))
  }

  lemma StopsKeepsLinked(s: Race, t: Race, id: TurnId)
    requires Linked(s) && Stops(s, t, id)
    ensures Linked(t)
  {
    forall k | k in t.runs ensures IsLinked(t, k) { assert IsLinked(s, k); }
    forall k: TurnId | Outrun(t, k) ensures t.failing == Some(k) { assert k != id && Outrun(s, k); }
  }

  lemma CatchStops(c: Config, s: Race, id: TurnId)
    requires Linked(s) && Enabled(c, s, SCatch(id))
    ensures Stops(s, Apply(c, s, SCatch(id)), id)
  {
    FinishTurns(s.tables, id, Failed, None);
    assert id in s.runs ==> IsLinked(s, id);
  }

  lemma TerminalStops(c: Config, s: Race, e: Step)
    requires Linked(s) && e.STerminal? && Enabled(c, s, e)
    ensures Stops(s, Apply(c, s, e), e.id)
  {
    if IsActive(s.tables.turns, e.id) {
      Proofs.TerminalTurns(s.tables, e.id, s.open[e.id], e.event, e.closed, e.sequence);
    }
  }

  lemma InterruptedStops(c: Config, s: Race, call: CallId)
    requires Linked(s) && Enabled(c, s, SInterrupted(call))
    ensures Stops(s, Apply(c, s, SInterrupted(call)), s.interrupts[call].id)
  {
    FinishTurns(s.tables, s.interrupts[call].id, Status.Interrupted, s.interrupts[call].captured);
  }

  lemma ForceStops(c: Config, s: Race, id: TurnId, requeue: bool)
    requires Linked(s) && Enabled(c, s, SForce(id, requeue))
    ensures Stops(s, Apply(c, s, SForce(id, requeue)), id)
  {
    FinishTurns(s.tables, id, Status.Interrupted, Captured(s, id));
  }

  lemma StartKeepsLinked(c: Config, s: Race, id: TurnId, refused: bool)
    requires Linked(s) && Enabled(c, s, SStart(id, refused))
    ensures Linked(Begin(s, id, refused))
  {
    var t := Begin(s, id, refused);
    assert id in s.runs ==> IsLinked(s, id);
    forall k | k in t.runs ensures IsLinked(t, k) { assert k != id ==> IsLinked(s, k); }
    forall k: TurnId | Outrun(t, k) ensures t.failing == Some(k) { assert k != id ==> Outrun(s, k); }
  }

  // Steps that start nothing and end nothing.
  ghost predicate Idles(s: Race, t: Race) {
    && t.runs == s.runs && t.open == s.open && t.failing == s.failing
    && (forall id :: id in t.tables.turns ==> !t.tables.turns[id].status.Pending?)
    && (forall id :: id in t.tables.turns && t.tables.turns[id].status.Running? ==>
          id in s.tables.turns && t.tables.turns[id] == s.tables.turns[id])
    && (forall id :: id in s.tables.turns && s.tables.turns[id].status.Running? ==> id in t.tables.turns)
    && (forall id :: id in s.tables.turns && s.tables.turns[id].status.Running? ==>
          t.tables.turns[id] == s.tables.turns[id])
  }

  lemma IdlesKeepsLinked(s: Race, t: Race)
    requires Linked(s) && Idles(s, t)
    ensures Linked(t)
  {
    forall k | k in t.runs ensures IsLinked(t, k) { assert IsLinked(s, k); }
    forall k: TurnId | Outrun(t, k) ensures t.failing == Some(k) { assert Outrun(s, k); }
  }

  lemma CallIdles(c: Config, s: Race, e: Step)
    requires Linked(s) && (e.SInterrupt? || e.SCapture?) && Enabled(c, s, e)
    ensures Idles(s, Apply(c, s, e))
  {
  }

  lemma TableStepIdles(c: Config, s: Race, e: Step)
    requires Linked(s) && (e.SSend? || e.SResume? || e.SDeleteChat?) && Enabled(c, s, e)
    ensures Idles(s, Apply(c, s, e))
  {
    var t := Apply(c, s, e);
    forall id | id in s.tables.turns && s.tables.turns[id].status.Running?
      ensures id in t.tables.turns && t.tables.turns[id] == s.tables.turns[id]
    {
      assert IsActive(s.tables.turns, id);
    }
  }

  /** Whatever interleaves, memory stays linked to the tables: a turn in the map of runs runs as the
      attempt the runtime has open, and only a start that the runtime just refused outruns an open run. */
  lemma StepKeepsLinked(c: Config, s: Race, e: Step)
    requires Linked(s) && Enabled(c, s, e)
    ensures Linked(Apply(c, s, e))
  {
    var t := Apply(c, s, e);
    match e
    case SStart(id, refused) => StartKeepsLinked(c, s, id, refused);
    case SCatch(id) => CatchStops(c, s, id); StopsKeepsLinked(s, t, id);
    case STerminal(id, _, _, _) => TerminalStops(c, s, e); StopsKeepsLinked(s, t, id);
    case SInterrupted(call) => InterruptedStops(c, s, call); StopsKeepsLinked(s, t, s.interrupts[call].id);
    case SForce(id, requeue) => ForceStops(c, s, id, requeue); StopsKeepsLinked(s, t, id);
    case SRestart =>
    case _ => if e.SInterrupt? || e.SCapture? { CallIdles(c, s, e); } else { TableStepIdles(c, s, e); }
      IdlesKeepsLinked(s, t);
  }

  // ---------- Conservation, step by step ----------

  lemma NewestIsLive(s: State, id: TurnId)
    requires id in s.turns && TurnInv(s, id)
    ensures Newest(s, id) == LiveAttempt(s, id)
  {
    var n := Newest(s, id);
    if n.None? {
      Proofs.LiveIsSafe(s, id, None);
      var last := s.turns[id].attemptCount;
      assert s.turns[id].status.Running? ==> AttemptRow(s.turns[id], s.attempts[(id, last)], last);
      forall m: nat | (id, m) in s.attempts ensures s.attempts[(id, m)].status.Running? ==> m <= last {
        assert AttemptRow(s.turns[id], s.attempts[(id, m)], m);
      }
      assert s.turns[id].status.Running? ==> NewestRunning(s, id, last);
    } else {
      Proofs.LiveIsNewest(s, id, n);
    }
  }

  // With nothing stale captured, finishTurnLocally ends the live attempt.
  lemma FinishIsLive(s: Race, id: TurnId, status: Status, attempt: Option<nat>)
    requires Linked(s) && AttemptsInv(s.tables) && IsActive(s.tables.turns, id)
    requires attempt.None? || attempt == Captured(s, id)
    ensures FinishLocally(s.tables, id, status, attempt)
      == Finish(s.tables, id, status, None, LiveAttempt(s.tables, id))
  {
    assert TurnInv(s.tables, id);
    NewestIsLive(s.tables, id);
    assert id in s.runs ==> IsLinked(s, id);
  }

  lemma FinishKeepsAttempts(s: Race, id: TurnId, status: Status, attempt: Option<nat>)
    requires Linked(s) && AttemptsInv(s.tables) && Terminated(status)
    requires attempt.None? || attempt == Captured(s, id)
    ensures AttemptsInv(FinishLocally(s.tables, id, status, attempt))
  {
    if IsActive(s.tables.turns, id) {
      FinishIsLive(s, id, status, attempt);
      assert TurnInv(s.tables, id);
      Proofs.LiveIsSafe(s.tables, id, None);
      Proofs.FinishKeepsAttemptsExactly(s.tables, id, status, None, LiveAttempt(s.tables, id));
    }
  }

  lemma ForceKeepsAttempts(s: Race, id: TurnId, requeue: bool)
    requires Linked(s) && AttemptsInv(s.tables)
    ensures AttemptsInv(Force(s, id, requeue).tables)
  {
    FinishKeepsAttempts(s, id, Status.Interrupted, Captured(s, id));
    if IsActive(s.tables.turns, id) && requeue {
      FinishIsLive(s, id, Status.Interrupted, Captured(s, id));
      assert TurnInv(s.tables, id);
      Proofs.ShutdownKeepsTurn(s.tables, id);
      Proofs.ShutdownIsLocal(s.tables, id);
      Proofs.LocalKeepsAttempts(s.tables, Force(s, id, requeue).tables, id);
    }
  }

  /** Whoever ends an interruptTurn call with an attempt id in hand keeps the tables consistent exactly
      when that attempt, or else the one looked up, is a safe one. */
  lemma InterruptedExactly(s: Race, call: CallId)
    requires AttemptsInv(s.tables) && call in s.interrupts && s.interrupts[call].Closing?
    ensures var i := s.interrupts[call];
      AttemptsInv(Interrupted(s, call).tables) <==>
      (IsActive(s.tables.turns, i.id) ==>
         Proofs.SafeFinish(s.tables, i.id, None, if i.captured.Some? then i.captured else LiveAttempt(s.tables, i.id)))
  {
    var i := s.interrupts[call];
    if IsActive(s.tables.turns, i.id) {
      assert TurnInv(s.tables, i.id);
      NewestIsLive(s.tables, i.id);
      var attempt := if i.captured.Some? then i.captured else LiveAttempt(s.tables, i.id);
      Proofs.FinishKeepsAttemptsExactly(s.tables, i.id, Status.Interrupted, None, attempt);
    }
  }

  // Every step but a terminal event and the end of an interruption keeps the attempts consistent.
  lemma PlainKeepsAttempts(c: Config, s: Race, e: Step)
    requires Linked(s) && AttemptsInv(s.tables) && Enabled(c, s, e) && !e.STerminal? && !e.SInterrupted?
    ensures AttemptsInv(Apply(c, s, e).tables)
  {
    match e
    case SSend(id, chat, n) => Proofs.EventKeepsAttempts(c, s.tables, ESend(id, chat, n));
    case SStart(id, _) => Proofs.EventKeepsAttempts(c, s.tables, EStart(id));
    case SCatch(id) => FinishKeepsAttempts(s, id, Failed, None);
    case SForce(id, requeue) => ForceKeepsAttempts(s, id, requeue);
    case SResume(id, n) => Proofs.EventKeepsAttempts(c, s.tables, EResume(id, n));
    case SDeleteChat(chat) => Proofs.EventKeepsAttempts(c, s.tables, EDeleteChat(chat));
    case SRestart => Proofs.RecoverKeepsAttempts(s.tables);
    case _ =>
  }

  // Ending a running turn with another attempt's row leaves the live one running.
  lemma OutrunBreaks(s: State, id: TurnId, n: nat, e: TerminalEvent, closed: bool, sequence: nat)
    requires AttemptsInv(s) && id in s.turns && s.turns[id].status.Running? && Terminated(e.status)
    requires n != s.turns[id].attemptCount
    ensures var t := Terminal(s, id, n, e, closed, sequence);
      && (id, s.turns[id].attemptCount) in t.attempts && t.attempts[(id, s.turns[id].attemptCount)].status.Running?
      && !AttemptsInv(t)
  {
    assert TurnInv(s, id);
    Proofs.LiveIsSafe(s, id, None);
    var t, last := Terminal(s, id, n, e, closed, sequence), s.turns[id].attemptCount;
    assert AttemptRow(s.turns[id], s.attempts[(id, last)], last);
    assert t.attempts[(id, last)] == s.attempts[(id, last)];
    assert !AttemptRow(t.turns[id], t.attempts[(id, last)], last);
    assert !TurnInv(t, id);
  }

  lemma TerminalExactly(c: Config, s: Race, e: Step)
    requires Linked(s) && Counted(s) && Enabled(c, s, e) && e.STerminal?
    ensures AttemptsInv(Apply(c, s, e).tables) <==> !Outrun(s, e.id)
  {
    if IsActive(s.tables.turns, e.id) {
      var n := s.open[e.id];
      assert OpenRow(s, e.id);
      if Outrun(s, e.id) {
        OutrunBreaks(s.tables, e.id, n, e.event, e.closed, e.sequence);
      } else {
        Proofs.TerminalKeepsAttempts(s.tables, e.id, n, e.event, e.closed, e.sequence);
      }
    }
  }

  // ---------- Open runs keep an empty row ----------

  // Everything open afterwards was open before, for a turn with as many attempts and recoveries,
  // and its row still counts nothing.
  ghost predicate RowStays(a: State, b: State, id: TurnId, n: nat)
    requires id in b.turns
  {
    && id in a.turns && b.turns[id].recoveries == a.turns[id].recoveries
    && b.turns[id].attemptCount == a.turns[id].attemptCount
    && ((id, n) in a.attempts && a.attempts[(id, n)].counters == NO_METRICS ==>
          (id, n) in b.attempts && b.attempts[(id, n)].counters == NO_METRICS)
  }

  lemma FinishRowStays(s: State, k: TurnId, id: TurnId, n: nat, status: Status, attempt: Option<nat>)
    requires id in s.turns
    ensures id in FinishLocally(s, k, status, attempt).turns
    ensures RowStays(s, FinishLocally(s, k, status, attempt), id, n)
  {
    if IsActive(s.turns, k) { Proofs.PlusZero(s.turns[k].counters, NO_METRICS); }
  }

  lemma StartKeepsRows(s: Race, k: TurnId, refused: bool, id: TurnId)
    requires Counted(s) && k in s.tables.turns && (k in s.open ==> refused)
    requires id in Begin(s, k, refused).open && id in s.tables.turns
    ensures OpenRow(Begin(s, k, refused), id)
  {
    assert TurnInv(s.tables, k);
    assert id in s.open ==> OpenRow(s, id);
    assert (k, s.tables.turns[k].attemptCount + 1) !in s.tables.attempts;
  }

  lemma PlainRowStays(c: Config, s: Race, e: Step, id: TurnId)
    requires Linked(s) && Enabled(c, s, e) && !e.STerminal? && !e.SStart? && !e.SRestart?
    requires id in s.open && id in Apply(c, s, e).tables.turns
    ensures RowStays(s.tables, Apply(c, s, e).tables, id, s.open[id])
  {
    match e
    case SCatch(k) => FinishRowStays(s.tables, k, id, s.open[id], Failed, None);
    case SInterrupted(call) =>
      FinishRowStays(s.tables, s.interrupts[call].id, id, s.open[id], Status.Interrupted, s.interrupts[call].captured);
    case SForce(k, _) => FinishRowStays(s.tables, k, id, s.open[id], Status.Interrupted, Captured(s, k));
    case _ =>
  }

  lemma TerminalRowStays(c: Config, s: Race, e: Step, id: TurnId)
    requires Enabled(c, s, e) && e.STerminal? && id != e.id && id in s.tables.turns && id in s.open
    ensures id in Apply(c, s, e).tables.turns && RowStays(s.tables, Apply(c, s, e).tables, id, s.open[id])
  {
    if IsActive(s.tables.turns, e.id) {
      Proofs.TerminalIsLocal(s.tables, e.id, s.open[e.id], e.event, e.closed, e.sequence);
    }
  }

  lemma StepKeepsRows(c: Config, s: Race, e: Step, id: TurnId)
    requires Linked(s) && Counted(s) && Enabled(c, s, e)
    requires id in Apply(c, s, e).open && id in Apply(c, s, e).tables.turns
    ensures OpenRow(Apply(c, s, e), id)
  {
    if e.SStart? {
      StartKeepsRows(s, e.id, e.refused, id);
    } else if e.STerminal? {
      assert id in s.tables.turns && OpenRow(s, id);
      TerminalRowStays(c, s, e, id);
    } else if !e.SRestart? {
      PlainRowStays(c, s, e, id);
      assert OpenRow(s, id);
    }
  }

  // An interruptTurn call is about to end its turn with an attempt that has counted something or that
  // the running turn has left behind.
  predicate HoldsStale(s: Race, call: CallId) {
    && call in s.interrupts && s.interrupts[call].Closing? && s.interrupts[call].captured.Some?
    && IsActive(s.tables.turns, s.interrupts[call].id)
    && !Proofs.SafeFinish(s.tables, s.interrupts[call].id, None, s.interrupts[call].captured)
  }

  // The two late arrivals: the terminal event of an outrun run, and a stale attempt id.
  predicate Spoils(s: Race, e: Step) {
    (e.STerminal? && Outrun(s, e.id)) || (e.SInterrupted? && HoldsStale(s, e.call))
  }

  lemma StaleExactly(s: Race, call: CallId)
    requires AttemptsInv(s.tables) && call in s.interrupts && s.interrupts[call].Closing?
    ensures AttemptsInv(Interrupted(s, call).tables) <==> !HoldsStale(s, call)
  {
    var i := s.interrupts[call];
    InterruptedExactly(s, call);
    if IsActive(s.tables.turns, i.id) {
      assert TurnInv(s.tables, i.id);
      Proofs.LiveIsSafe(s.tables, i.id, None);
    }
  }

  /** One step, exactly: from a consistent state only the terminal event of a run that its turn has
      outrun, or the end of an interruption that holds a stale attempt, makes the attempts disagree with
      their turn, and it always does. */
  lemma StepConserves(c: Config, s: Race, e: Step)
    requires Linked(s) && Counted(s) && Enabled(c, s, e)
    ensures AttemptsInv(Apply(c, s, e).tables) <==> !Spoils(s, e)
    ensures !Spoils(s, e) ==> Counted(Apply(c, s, e))
  {
    if e.STerminal? {
      TerminalExactly(c, s, e);
    } else if e.SInterrupted? {
      StaleExactly(s, e.call);
    } else {
      PlainKeepsAttempts(c, s, e);
    }
    forall id | id in Apply(c, s, e).open && id in Apply(c, s, e).tables.turns ensures OpenRow(Apply(c, s, e), id) {
      StepKeepsRows(c, s, e, id);
    }
  }

  // ---------- Runs ----------

  // Nothing arrives too late.
  ghost predicate Clean(c: Config, s: Race, es: seq<Step>)
    requires Possible(c, s, es)
    decreases |es|
  {
    es != [] ==> !Spoils(s, es[0]) && Clean(c, Apply(c, s, es[0]), es[1..])
  }

  // The attempts agree with their turns from the start of the run to its end.
  ghost predicate Conserves(c: Config, s: Race, es: seq<Step>)
    requires Possible(c, s, es)
    decreases |es|
  {
    AttemptsInv(s.tables) && (es != [] ==> Conserves(c, Apply(c, s, es[0]), es[1..]))
  }

  lemma {:induction false} RunsConserveExactly(c: Config, s: Race, es: seq<Step>)
    requires Linked(s) && Counted(s) && Possible(c, s, es)
    ensures Conserves(c, s, es) <==> Clean(c, s, es)
    decreases |es|
  {
    if es != [] {
      var t := Apply(c, s, es[0]);
      StepKeepsLinked(c, s, es[0]);
      StepConserves(c, s, es[0]);
      if Spoils(s, es[0]) {
        assert !Conserves(c, t, es[1..]);
      } else {
        RunsConserveExactly(c, t, es[1..]);
      }
    }
  }

  /** Attempt conservation over all interleavings with the awaits: it holds throughout a run exactly
      when no terminal event of the run comes from an attempt that its running turn has left behind and no
      interruption ends its turn with a stale attempt. */
  lemma RacesConserveExactly(c: Config, es: seq<Step>)
    requires Possible(c, CALM, es)
    ensures Conserves(c, CALM, es) <==> Clean(c, CALM, es)
  {
    RunsConserveExactly(c, CALM, es);
  }

  lemma {:induction false} RunKeepsLinked(c: Config, s: Race, es: seq<Step>)
    requires Linked(s) && Possible(c, s, es)
    ensures Linked(Run(c, s, es))
    decreases |es|
  {
    if es != [] {
      StepKeepsLinked(c, s, es[0]);
      RunKeepsLinked(c, Apply(c, s, es[0]), es[1..]);
    }
  }

  // Whenever runtime.interrupt returns, its caller goes on before the turn is started again.
  ghost predicate Prompt(c: Config, s: Race, es: seq<Step>)
    requires Possible(c, s, es)
    decreases |es|
  {
    es != [] ==> (es[0].SCapture? ==> s.interrupts[es[0].call].id !in s.open) && Prompt(c, Apply(c, s, es[0]), es[1..])
  }

  ghost predicate NoCaptures(s: Race) {
    forall call :: call in s.interrupts && s.interrupts[call].Closing? ==> s.interrupts[call].captured.None?
  }

  lemma StepCapturesNothing(c: Config, s: Race, e: Step)
    requires Linked(s) && NoCaptures(s) && Enabled(c, s, e)
    requires e.SCapture? ==> s.interrupts[e.call].id !in s.open
    ensures NoCaptures(Apply(c, s, e))
  {
    if e.SInterrupt? || e.SCapture? {
      var id := if e.SInterrupt? then e.id else s.interrupts[e.call].id;
      assert id in s.runs ==> IsLinked(s, id);
    }
  }

  lemma {:induction false} PromptCapturesNothing(c: Config, s: Race, es: seq<Step>)
    requires Linked(s) && NoCaptures(s) && Possible(c, s, es) && Prompt(c, s, es)
    ensures NoCaptures(Run(c, s, es))
    decreases |es|
  {
    if es != [] {
      StepKeepsLinked(c, s, es[0]);
      StepCapturesNothing(c, s, es[0]);
      PromptCapturesNothing(c, Apply(c, s, es[0]), es[1..]);
    }
  }

  /** As long as interruptTurn goes on before its turn is started again, the attempt id it holds across its
      last await is none, so it is never stale. */
  lemma CapturesNothing(c: Config, es: seq<Step>, call: CallId)
    requires Possible(c, CALM, es) && Prompt(c, CALM, es)
    ensures !HoldsStale(Run(c, CALM, es), call)
    ensures var s := Run(c, CALM, es); call in s.interrupts && s.interrupts[call].Closing? ==>
      s.interrupts[call].captured.None?
  {
    PromptCapturesNothing(c, CALM, es);
  }

  /** In every run a turn has left an open run behind only while its start has just been refused, and the
      turns in the map of runs are running as the attempt that the runtime has open. */
  lemma OnlyRefusedOutrun(c: Config, es: seq<Step>, id: TurnId)
    requires Possible(c, CALM, es)
    ensures var s := Run(c, CALM, es);
      (Outrun(s, id) ==> s.failing == Some(id)) && (id in s.runs ==> IsLinked(s, id))
  {
    RunKeepsLinked(c, CALM, es);
  }

  // ---------- The queue ----------

  lemma ForceKeepsQueue(c: Config, s: Race, id: TurnId, requeue: bool)
    requires QueueInv(c, s.tables.turns)
    ensures QueueInv(c, Force(s, id, requeue).tables.turns)
  {
    if IsActive(s.tables.turns, id) {
      var turns := Force(s, id, requeue).tables.turns;
      assert turns == s.tables.turns[id := turns[id]];
      Proofs.MoveActive(c, s.tables.turns, id, turns[id]);
    }
  }

  lemma FinishLocallyKeepsQueue(c: Config, s: State, id: TurnId, status: Status, attempt: Option<nat>)
    requires QueueInv(c, s.turns) && Terminated(status)
    ensures QueueInv(c, FinishLocally(s, id, status, attempt).turns)
  {
    if IsActive(s.turns, id) {
      Proofs.FinishKeepsQueue(c, s, id, status, None, if attempt.Some? then attempt else Newest(s, id));
    }
  }

  lemma StepKeepsQueue(c: Config, s: Race, e: Step)
    requires QueueInv(c, s.tables.turns) && Enabled(c, s, e)
    ensures QueueInv(c, Apply(c, s, e).tables.turns)
  {
    match e
    case SSend(id, chat, n) => Proofs.EventKeepsQueue(c, s.tables, ESend(id, chat, n));
    case SStart(id, _) => Proofs.EventKeepsQueue(c, s.tables, EStart(id));
    case SCatch(id) => FinishLocallyKeepsQueue(c, s.tables, id, Failed, None);
    case STerminal(id, event, closed, n) =>
      if IsActive(s.tables.turns, id) {
        Proofs.TerminalKeepsQueue(c, s.tables, id, s.open[id], event, closed, n);
      }
    case SInterrupted(call) =>
      FinishLocallyKeepsQueue(c, s.tables, s.interrupts[call].id, Status.Interrupted, s.interrupts[call].captured);
    case SForce(id, requeue) => ForceKeepsQueue(c, s, id, requeue);
    case SResume(id, n) => Proofs.EventKeepsQueue(c, s.tables, EResume(id, n));
    case SDeleteChat(chat) => Proofs.EventKeepsQueue(c, s.tables, EDeleteChat(chat));
    case SRestart => Proofs.RecoverKeepsQueue(c, s.tables);
    case _ =>
  }

  lemma {:induction false} RunKeepsQueue(c: Config, s: Race, es: seq<Step>)
    requires QueueInv(c, s.tables.turns) && Possible(c, s, es)
    ensures QueueInv(c, Run(c, s, es).tables.turns)
    decreases |es|
  {
    if es != [] {
      StepKeepsQueue(c, s, es[0]);
      RunKeepsQueue(c, Apply(c, s, es[0]), es[1..]);
    }
  }

  /** The queue bounds hold over all interleavings with the awaits, clean or not. */
  lemma RacesKeepQueue(c: Config, es: seq<Step>)
    requires Possible(c, CALM, es)
    ensures var turns := Run(c, CALM, es).tables.turns;
      && |RunningTurns(turns)| <= c.maxActive
      && |QueuedTurns(turns)| + |RunningTurns(turns)| <= c.maxQueued + c.maxActive
      && (forall a, b :: IsActive(turns, a) && IsActive(turns, b) && turns[a].chat == turns[b].chat ==> a == b)
      && (forall a, b :: a in turns && b in turns && turns[a].sequence == turns[b].sequence ==> a == b)
  {
    RunKeepsQueue(c, CALM, es);
  }

  // ---------- What the snapshot lifecycle sees of a turn ----------

  ghost predicate WasActive(s: Race, t: Race, id: TurnId)
    requires id in t.tables.turns
  {
    IsActive(s.tables.turns, id) && t.tables.turns[id].chat == s.tables.turns[id].chat
  }

  // Only a submission or a resumption makes a turn active; every other step keeps an active turn
  // active, in its chat, or ends it.
  lemma OnlySubmissionActivates(c: Config, s: Race, e: Step, id: TurnId)
    requires Enabled(c, s, e) && IsActive(Apply(c, s, e).tables.turns, id)
    ensures WasActive(s, Apply(c, s, e), id) || ((e.SSend? || e.SResume?) && e.id == id)
  {
    match e
    case SCatch(k) => FinishTurns(s.tables, k, Failed, None);
    case SInterrupted(call) =>
      FinishTurns(s.tables, s.interrupts[call].id, Status.Interrupted, s.interrupts[call].captured);
    case SForce(k, _) => FinishTurns(s.tables, k, Status.Interrupted, Captured(s, k));
    case STerminal(k, event, closed, n) =>
      if IsActive(s.tables.turns, k) { Proofs.TerminalTurns(s.tables, k, s.open[k], event, closed, n); }
    case _ =>
  }
}
