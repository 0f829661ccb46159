/**
 What becomes of a turn and its attempts: every event of the turn queue read off the rows before it, and
 what a turn has counted over a whole run.
 */
module AgentOutcomes {
  import opened Wrappers
  import opened AgentTurns
  import Proofs = AgentProofs

  // ---------- Rows ----------

  // Every column of b is that of a plus that of m.
  ghost predicate Grown(a: Metrics, b: Metrics, m: Metrics) {
    && b.rounds == a.rounds + m.rounds
    && b.lengthStops == a.lengthStops + m.lengthStops
    && b.toolCalls == a.toolCalls + m.toolCalls
    && b.input == a.input + m.input
    && b.output == a.output + m.output
    && b.reasoning == a.reasoning + m.reasoning
    && b.cacheRead == a.cacheRead + m.cacheRead
    && b.cacheWrite == a.cacheWrite + m.cacheWrite
    && b.total == a.total + m.total
  }

  ghost predicate Zero(m: Metrics) { forall f :: Of(m, f) == 0 }

  // Columns that ending a turn leaves alone.
  ghost predicate SamePlace(a: Turn, b: Turn) {
    b.chat == a.chat && b.sequence == a.sequence && b.attemptCount == a.attemptCount && b.recoveries == a.recoveries
  }

  // A turn ended with this status and these metrics, none counting nothing.
  ghost predicate EndedRow(a: Turn, b: Turn, status: Status, metrics: Option<Metrics>) {
    && SamePlace(a, b) && b.status == status
    && if metrics.Some? then Grown(a.counters, b.counters, metrics.value) else b.counters == a.counters
  }

  ghost predicate EndedAttempt(b: Attempt, status: Status, metrics: Option<Metrics>) {
    b.status == status && if metrics.Some? then b.counters == metrics.value else Zero(b.counters)
  }

  // A failure of the provider that may be retried, with attempts left.
  ghost predicate Retries(a: Turn, e: TerminalEvent) {
    e.status == Failed && e.providerFailure && e.resumable && e.retryable && a.attemptCount < 3
  }

  ghost predicate Shelved(e: TerminalEvent, closed: bool) { closed && e.status == Interrupted && e.resumable }

  // The turn after a terminal event: back in its place after a shutdown, back at the end of the queue to be
  // retried, or ended.
  ghost predicate TerminalRow(a: Turn, b: Turn, e: TerminalEvent, closed: bool, sequence: nat) {
    && b.chat == a.chat && b.attemptCount == a.attemptCount && Grown(a.counters, b.counters, e.metrics)
    && b.status == (if Retries(a, e) || Shelved(e, closed) then Queued else e.status)
    && b.sequence == (if Retries(a, e) then sequence else a.sequence)
    && b.recoveries == a.recoveries + if Retries(a, e) then 1 else 0
  }

  ghost predicate OneTurn(a: map<TurnId, Turn>, b: map<TurnId, Turn>, id: TurnId) {
    a.Keys == b.Keys && forall k :: k in a && k != id ==> b[k] == a[k]
  }

  ghost predicate OneAttempt(a: Attempts, b: Attempts, id: TurnId, n: nat) {
    a.Keys == b.Keys && forall k :: k in a && k != (id, n) ==> b[k] == a[k]
  }

  // The turn runs its next attempt, which is running and has counted nothing.
  ghost predicate Begun(s: State, t: State, id: TurnId) {
    && id in s.turns
    && var n := s.turns[id].attemptCount + 1;
       && t.turns == s.turns[id := s.turns[id].(status := Running, attemptCount := n)]
       && (id, n) in t.attempts && t.attempts == s.attempts[(id, n) := t.attempts[(id, n)]]
       && t.attempts[(id, n)].status == Running && Zero(t.attempts[(id, n)].counters)
  }

  // finishTurnLocally on an active turn.
  ghost predicate Finished(s: State, t: State, id: TurnId, status: Status, metrics: Option<Metrics>, n: Option<nat>) {
    && id in s.turns && OneTurn(s.turns, t.turns, id) && EndedRow(s.turns[id], t.turns[id], status, metrics)
    && if n.Some? && (id, n.value) in s.attempts
       then OneAttempt(s.attempts, t.attempts, id, n.value) && EndedAttempt(t.attempts[(id, n.value)], status, metrics)
       else t.attempts == s.attempts
  }

  // A terminal event of attempt n of an active turn.
  ghost predicate Delivered(s: State, t: State, id: TurnId, n: nat, e: TerminalEvent, closed: bool, sequence: nat) {
    && id in s.turns && OneTurn(s.turns, t.turns, id)
    && TerminalRow(s.turns[id], t.turns[id], e, closed, sequence)
    && if (id, n) in s.attempts
       then OneAttempt(s.attempts, t.attempts, id, n) && EndedAttempt(t.attempts[(id, n)], e.status, Some(e.metrics))
       else t.attempts == s.attempts
  }

  lemma FinishMoves(s: State, t: State, id: TurnId, status: Status, metrics: Option<Metrics>, n: Option<nat>)
    requires id in s.turns && t == Finish(s, id, status, metrics, n)
    ensures Finished(s, t, id, status, metrics, n)
  {}

  lemma TerminalMoves(s: State, t: State, id: TurnId, n: nat, e: TerminalEvent, closed: bool, sequence: nat)
    requires id in s.turns && Active(s.turns[id].status) && t == Terminal(s, id, n, e, closed, sequence)
    ensures Delivered(s, t, id, n, e, closed, sequence)
  {
    TerminalTurn(s, t, id, n, e, closed, sequence);
    TerminalAttempts(s, t, id, n, e, closed, sequence);
  }

  lemma TerminalTurn(s: State, t: State, id: TurnId, n: nat, e: TerminalEvent, closed: bool, sequence: nat)
    requires id in s.turns && Active(s.turns[id].status) && t == Terminal(s, id, n, e, closed, sequence)
    ensures OneTurn(s.turns, t.turns, id) && TerminalRow(s.turns[id], t.turns[id], e, closed, sequence)
  {
    var a, u := s.turns[id], Finish(s, id, e.status, Some(e.metrics), Some(n));
    FinishMoves(s, u, id, e.status, Some(e.metrics), Some(n));
    var b := u.turns[id];
    assert t.turns == u.turns[id :=
      if Shelved(e, closed) then b.(status := Queued)
      else if Retries(a, e) then b.(status := Queued, sequence := sequence, recoveries := a.recoveries + 1)
      else b];
  }

  lemma TerminalAttempts(s: State, t: State, id: TurnId, n: nat, e: TerminalEvent, closed: bool, sequence: nat)
    requires id in s.turns && Active(s.turns[id].status) && t == Terminal(s, id, n, e, closed, sequence)
    ensures if (id, n) in s.attempts
      then OneAttempt(s.attempts, t.attempts, id, n) && EndedAttempt(t.attempts[(id, n)], e.status, Some(e.metrics))
      else t.attempts == s.attempts
  {}

  // ---------- Events ----------

  // The row after the event of a turn that was there before and still is.
  ghost predicate TurnMoves(e: Event, id: TurnId, a: Turn, b: Turn) {
    match e
    case EStart(k) =>
      if k == id then b == a.(status := Running, attemptCount := a.attemptCount + 1) else b == a
    case ETerminal(k, event, closed, n) => if k == id then TerminalRow(a, b, event, closed, n) else b == a
    case EEnd(k, status) => b == if k == id then a.(status := status) else a
    case EShutdown(k) => b == if k == id then a.(status := Queued) else a
    case EResume(k, n) => b == if k == id then a.(status := Queued, sequence := n) else a
    case ERecover => b == if a.status in {Pending, Running} then a.(status := Queued) else a
    case _ => b == a
  }

  // A new turn is queued at the end and has counted nothing.
  ghost predicate FreshTurn(b: Turn, chat: ChatId, sequence: nat) {
    && b.chat == chat && b.status == Queued && b.sequence == sequence
    && b.attemptCount == 0 && b.recoveries == 0 && Zero(b.counters)
  }

  ghost predicate TurnsMove(s: State, e: Event, t: State) {
    && (forall id :: id in s.turns ==> (id in t.turns <==> e != EDeleteChat(s.turns[id].chat)))
    && (forall id :: id in t.turns && id in s.turns ==> TurnMoves(e, id, s.turns[id], t.turns[id]))
    && (forall id :: id in t.turns && id !in s.turns ==>
          e.ESend? && e.id == id && FreshTurn(t.turns[id], e.chat, e.sequence))
    && (e.ESend? ==> e.id in t.turns)
  }

  // The attempt a running turn ends with, if the event ends it.
  ghost predicate EndsAttempt(s: State, e: Event, k: (TurnId, nat)) {
    && (e.ETerminal? || e.EEnd? || e.EShutdown?) && k.0 == e.id && k.0 in s.turns
    && s.turns[k.0].status.Running? && k.1 == s.turns[k.0].attemptCount
  }

  ghost predicate AttemptMoves(s: State, e: Event, k: (TurnId, nat), a: Attempt, b: Attempt) {
    if EndsAttempt(s, e, k) then
      match e
      case ETerminal(_, event, _, _) => EndedAttempt(b, event.status, Some(event.metrics))
      case EEnd(_, status) => EndedAttempt(b, status, None)
      case _ => EndedAttempt(b, Interrupted, None)
    else b == if e.ERecover? && a.status.Running? then a.(status := Interrupted) else a
  }

  ghost predicate AttemptsMove(s: State, e: Event, t: State) {
    && (forall k :: k in s.attempts && k.0 in s.turns ==> (k in t.attempts <==> e != EDeleteChat(s.turns[k.0].chat)))
    && (forall k :: k in t.attempts && k in s.attempts ==> AttemptMoves(s, e, k, s.attempts[k], t.attempts[k]))
    && (forall k :: k in t.attempts && k !in s.attempts ==>
          && e == EStart(k.0) && k.0 in s.turns && k.1 == s.turns[k.0].attemptCount + 1
          && t.attempts[k].status == Running && Zero(t.attempts[k].counters))
    && (e.EStart? && e.id in s.turns ==> (e.id, s.turns[e.id].attemptCount + 1) in t.attempts)
  }

  lemma SendMoves(s: State, id: TurnId, chat: ChatId, n: nat, t: State)
    requires id !in s.turns && t == Send(s, id, chat, n)
    ensures TurnsMove(s, ESend(id, chat, n), t) && AttemptsMove(s, ESend(id, chat, n), t)
  {}

  lemma StartMoves(s: State, id: TurnId, t: State)
    requires id in s.turns && (id, s.turns[id].attemptCount + 1) !in s.attempts && t == Start(s, id)
    requires !s.turns[id].status.Running?
    ensures TurnsMove(s, EStart(id), t) && AttemptsMove(s, EStart(id), t)
  {
    StartAttempts(s, id, t, s.turns[id].attemptCount + 1);
  }

  lemma StartAttempts(s: State, id: TurnId, t: State, n: nat)
    requires id in s.turns && n == s.turns[id].attemptCount + 1 && (id, n) !in s.attempts
    requires t.attempts == s.attempts[(id, n) := Attempt(Running, NO_METRICS)] && t.turns.Keys == s.turns.Keys
    ensures AttemptsMove(s, EStart(id), t)
  {}

  lemma DeliverMoves(s: State, e: Event, t: State)
    requires e.ETerminal? && e.id in s.turns && s.turns[e.id].status.Running?
    requires (e.id, s.turns[e.id].attemptCount) in s.attempts
    requires Delivered(s, t, e.id, s.turns[e.id].attemptCount, e.event, e.closed, e.sequence)
    ensures TurnsMove(s, e, t) && AttemptsMove(s, e, t)
  {}

  lemma EndMoves(s: State, id: TurnId, status: Status, t: State)
    requires id in s.turns && Finished(s, t, id, status, None, LiveAttempt(s, id))
    requires s.turns[id].status.Running? ==> (id, s.turns[id].attemptCount) in s.attempts
    ensures TurnsMove(s, EEnd(id, status), t) && AttemptsMove(s, EEnd(id, status), t)
  {}

  lemma ShutdownMoves(s: State, id: TurnId, u: State, t: State)
    requires id in s.turns && Finished(s, u, id, Interrupted, None, LiveAttempt(s, id)) && t == Requeue(u, id, None)
    requires s.turns[id].status.Running? ==> (id, s.turns[id].attemptCount) in s.attempts
    ensures TurnsMove(s, EShutdown(id), t) && AttemptsMove(s, EShutdown(id), t)
  {}

  lemma ResumeMoves(s: State, id: TurnId, n: nat, t: State)
    requires id in s.turns && t == Requeue(s, id, Some(n))
    ensures TurnsMove(s, EResume(id, n), t) && AttemptsMove(s, EResume(id, n), t)
  {}

  lemma RecoverMoves(s: State, t: State)
    requires t == Recover(s)
    ensures TurnsMove(s, ERecover, t) && AttemptsMove(s, ERecover, t)
  {}

  lemma DeleteMoves(s: State, chat: ChatId, t: State)
    requires t == DeleteChat(s, chat)
    ensures TurnsMove(s, EDeleteChat(chat), t) && AttemptsMove(s, EDeleteChat(chat), t)
  {}

  /** What every event does to every turn and attempt, from the rows before it alone. */
  lemma RowsMoveExactly(c: Config, s: State, e: Event, t: State)
    requires AttemptsInv(s) && Enabled(c, s, e) && t == Apply(c, s, e)
    ensures TurnsMove(s, e, t) && AttemptsMove(s, e, t)
  {
    match e {
      case ESend(id, chat, n) => SendMoves(s, id, chat, n, t);
      case ERecover => RecoverMoves(s, t);
      case EDeleteChat(chat) => DeleteMoves(s, chat, t);
      case _ => TurnRowsMove(c, s, e, t);
    }
  }

  lemma TurnRowsMove(c: Config, s: State, e: Event, t: State)
    requires AttemptsInv(s) && Enabled(c, s, e) && t == Apply(c, s, e)
    requires e.EStart? || e.ETerminal? || e.EEnd? || e.EShutdown? || e.EResume?
    ensures TurnsMove(s, e, t) && AttemptsMove(s, e, t)
  {
    var id := e.id;
    assert TurnInv(s, id);
    Proofs.LiveIsSafe(s, id, None);
    match e
    case EStart(_) => StartMoves(s, id, t);
    case ETerminal(_, event, closed, n) =>
      TerminalMoves(s, t, id, s.turns[id].attemptCount, event, closed, n);
      DeliverMoves(s, e, t);
    case EEnd(_, status) =>
      FinishMoves(s, t, id, status, None, LiveAttempt(s, id));
      EndMoves(s, id, status, t);
    case EShutdown(_) =>
      var u := Finish(s, id, Interrupted, None, LiveAttempt(s, id));
      FinishMoves(s, u, id, Interrupted, None, LiveAttempt(s, id));
      ShutdownMoves(s, id, u, t);
    case EResume(_, n) => ResumeMoves(s, id, n, t);
  }

  // ---------- Runs ----------

  // What the terminal events of a run report for one counter of a turn.
  function Reported(es: seq<Event>, id: TurnId, f: Counter): nat {
    if es == [] then 0
    else (if es[0].ETerminal? && es[0].id == id then Of(es[0].event.metrics, f) else 0) + Reported(es[1..], id, f)
  }

  function Starts(es: seq<Event>, id: TurnId): nat {
    if es == [] then 0 else (if es[0] == EStart(id) then 1 else 0) + Starts(es[1..], id)
  }

  // How many of them ask for another attempt that the turn still has.
  ghost function Retried(c: Config, s: State, es: seq<Event>, id: TurnId): nat
    requires Possible(c, s, es)
    decreases |es|
  {
    if es == [] then 0
    else
      var now := es[0].ETerminal? && es[0].id == id && id in s.turns && Retries(s.turns[id], es[0].event);
      (if now then 1 else 0) + Retried(c, Apply(c, s, es[0]), es[1..], id)
  }

  ghost predicate Counts(e: Event, id: TurnId, a: Turn, b: Turn, f: Counter) {
    && b.chat == a.chat
    && Of(b.counters, f) == Of(a.counters, f) + (if e.ETerminal? && e.id == id then Of(e.event.metrics, f) else 0)
    && b.attemptCount == a.attemptCount + (if e == EStart(id) then 1 else 0)
    && b.recoveries == a.recoveries + (if e.ETerminal? && e.id == id && Retries(a, e.event) then 1 else 0)
  }

  lemma RowCounts(e: Event, id: TurnId, a: Turn, b: Turn, f: Counter)
    requires TurnMoves(e, id, a, b)
    ensures Counts(e, id, a, b, f)
  {}

  lemma StepCounts(c: Config, s: State, e: Event, t: State, id: TurnId, f: Counter)
    requires AttemptsInv(s) && Enabled(c, s, e) && t == Apply(c, s, e)
    requires id in s.turns && e != EDeleteChat(s.turns[id].chat)
    ensures id in t.turns && Counts(e, id, s.turns[id], t.turns[id], f)
  {
    RowsMoveExactly(c, s, e, t);
    RowCounts(e, id, s.turns[id], t.turns[id], f);
  }

  /** Over every run that does not delete its chat a turn counts exactly what its terminal events report,
      one attempt for each start, and one recovery for each failure that may be retried. */
  lemma {:induction false} TurnCountsEvents(c: Config, s: State, es: seq<Event>, id: TurnId, f: Counter)
    requires AttemptsInv(s) && Possible(c, s, es)
    requires id in s.turns && EDeleteChat(s.turns[id].chat) !in es
    ensures var t := Run(c, s, es);
      && id in t.turns
      && Of(t.turns[id].counters, f) == Of(s.turns[id].counters, f) + Reported(es, id, f)
      && t.turns[id].attemptCount == s.turns[id].attemptCount + Starts(es, id)
      && t.turns[id].recoveries == s.turns[id].recoveries + Retried(c, s, es, id)
    decreases |es|
  {
    if es != [] {
      StepCounts(c, s, es[0], Apply(c, s, es[0]), id, f);
      Proofs.EventKeepsAttempts(c, s, es[0]);
      TurnCountsEvents(c, Apply(c, s, es[0]), es[1..], id, f);
    }
  }
}
