/** Queue bounds, queue order and attempt conservation for module AgentTurns. */
module AgentProofs {
  import opened Wrappers
  import opened AgentTurns

  // ---------- Queue bounds ----------

  // The running and queued sets after one turn changes status.
  lemma MoveTurn(turns: map<TurnId, Turn>, id: TurnId, turn: Turn)
    ensures var after := turns[id := turn];
      && RunningTurns(after) == (RunningTurns(turns) - {id}) +
        (if turn.status.Running? || turn.status.Pending? then {id} else {})
      && QueuedTurns(after) == (QueuedTurns(turns) - {id}) + (if turn.status.Queued? then {id} else {})
  {}

  lemma {:induction false} Remove<T>(a: set<T>, x: T)
    ensures |a - {x}| == |a| - if x in a then 1 else 0
  {
    if x !in a { assert a - {x} == a; }
  }

  lemma WriteKeepsSequences(turns: map<TurnId, Turn>, id: TurnId, turn: Turn)
    requires DistinctSequences(turns)
    requires (id in turns && turn.sequence == turns[id].sequence) || forall k :: k in turns ==>
      turns[k].sequence < turn.sequence
    ensures DistinctSequences(turns[id := turn])
  {}

  lemma WriteKeepsChats(turns: map<TurnId, Turn>, id: TurnId, turn: Turn)
    requires OnePerChat(turns) && (id in turns ==> turn.chat == turns[id].chat)
    requires IsActive(turns, id) || !ChatBusy(turns, turn.chat)
    ensures OnePerChat(turns[id := turn])
  {
    var after := turns[id := turn];
    forall a, b | IsActive(after, a) && IsActive(after, b) && after[a].chat == after[b].chat ensures a == b {
      assert a != id ==> IsActive(turns, a);
      assert b != id ==> IsActive(turns, b);
    }
  }

  lemma JoinSizes(turns: map<TurnId, Turn>, id: TurnId, turn: Turn)
    requires turn.status.Queued? && (id in turns ==> !Active(turns[id].status))
    ensures var after := turns[id := turn];
      |QueuedTurns(after)| == |QueuedTurns(turns)| + 1 && RunningTurns(after) == RunningTurns(turns)
  {
    MoveTurn(turns, id, turn);
    assert QueuedTurns(turns) - {id} == QueuedTurns(turns) && RunningTurns(turns) - {id} == RunningTurns(turns);
  }

  // A turn that was neither queued nor running joins the queue, which had room.
  lemma JoinQueue(c: Config, turns: map<TurnId, Turn>, id: TurnId, turn: Turn)
    requires QueueInv(c, turns) && turn.status.Queued? && HasCapacity(c, turns, turn.chat)
    requires id in turns ==> !Active(turns[id].status) && turn.chat == turns[id].chat
    requires forall k :: k in turns ==> turns[k].sequence < turn.sequence
    ensures QueueInv(c, turns[id := turn])
  {
    WriteKeepsSequences(turns, id, turn);
    WriteKeepsChats(turns, id, turn);
    JoinSizes(turns, id, turn);
  }

  lemma MoveSizes(turns: map<TurnId, Turn>, id: TurnId, turn: Turn)
    requires IsActive(turns, id) && !turn.status.Pending?
    ensures var after := turns[id := turn];
      && |QueuedTurns(after)| + |RunningTurns(after)| <= |QueuedTurns(turns)| + |RunningTurns(turns)|
      && |RunningTurns(after)| <= |RunningTurns(turns)| + if turn.status.Running? then 1 else 0
  {
    MoveTurn(turns, id, turn);
    var queued, running := QueuedTurns(turns), RunningTurns(turns);
    Remove(queued, id);
    Remove(running, id);
    assert id in queued || id in running;
  }

  // An active turn changes place or ends; only a start may add a running turn.
  lemma MoveActive(c: Config, turns: map<TurnId, Turn>, id: TurnId, turn: Turn)
    requires QueueInv(c, turns) && IsActive(turns, id) && turn.chat == turns[id].chat && !turn.status.Pending?
    requires turn.status.Running? ==> |RunningTurns(turns)| < c.maxActive
    requires turn.sequence == turns[id].sequence || forall k :: k in turns ==> turns[k].sequence < turn.sequence
    ensures QueueInv(c, turns[id := turn])
  {
    WriteKeepsSequences(turns, id, turn);
    WriteKeepsChats(turns, id, turn);
    MoveSizes(turns, id, turn);
  }

  lemma RecoverKeepsQueue(c: Config, s: State)
    requires QueueInv(c, s.turns)
    ensures QueueInv(c, Recover(s).turns)
  {
    var after := Recover(s).turns;
    assert RunningTurns(after) == {};
    assert QueuedTurns(after) == QueuedTurns(s.turns) + RunningTurns(s.turns);
    assert |QueuedTurns(after)| <= |QueuedTurns(s.turns)| + |RunningTurns(s.turns)| by {
      assert QueuedTurns(s.turns) !! RunningTurns(s.turns);
    }
    assert forall k :: IsActive(after, k) ==> IsActive(s.turns, k) && after[k].chat == s.turns[k].chat;
    assert forall k :: k in after ==> after[k].sequence == s.turns[k].sequence;
  }

  lemma DeleteKeepsQueue(c: Config, s: State, chat: ChatId)
    requires QueueInv(c, s.turns)
    ensures QueueInv(c, DeleteChat(s, chat).turns)
  {
    var after := DeleteChat(s, chat).turns;
    SubsetSize(RunningTurns(after), RunningTurns(s.turns));
    SubsetSize(QueuedTurns(after), QueuedTurns(s.turns));
    assert forall k :: IsActive(after, k) ==> IsActive(s.turns, k) && after[k].chat == s.turns[k].chat;
  }

  lemma TerminalTurns(s: State, id: TurnId, n: nat, e: TerminalEvent, closed: bool, sequence: nat)
    requires id in s.turns && Active(s.turns[id].status)
    ensures var turns := Terminal(s, id, n, e, closed, sequence).turns;
      && id in turns && turns == s.turns[id := turns[id]] && turns[id].chat == s.turns[id].chat
      && (turns[id].status == e.status || turns[id].status.Queued?)
      && (turns[id].sequence == s.turns[id].sequence || turns[id].sequence == sequence)
  {}

  lemma EventKeepsQueue(c: Config, s: State, e: Event)
    requires QueueInv(c, s.turns) && Enabled(c, s, e)
    ensures QueueInv(c, Apply(c, s, e).turns)
  {
    match e
    case ESend(id, chat, n) => JoinQueue(c, s.turns, id, Send(s, id, chat, n).turns[id]);
    case EStart(id) => MoveActive(c, s.turns, id, Start(s, id).turns[id]);
    case ETerminal(id, event, closed, n) =>
      TerminalTurns(s, id, s.turns[id].attemptCount, event, closed, n);
      MoveActive(c, s.turns, id, Terminal(s, id, s.turns[id].attemptCount, event, closed, n).turns[id]);
    case EEnd(id, status) => MoveActive(c, s.turns, id, Finish(s, id, status, None, LiveAttempt(s, id)).turns[id]);
    case EShutdown(id) =>
      var ended := Finish(s, id, Interrupted, None, LiveAttempt(s, id));
      assert Requeue(ended, id, None).turns == s.turns[id := Requeue(ended, id, None).turns[id]];
      MoveActive(c, s.turns, id, Requeue(ended, id, None).turns[id]);
    case EResume(id, n) => JoinQueue(c, s.turns, id, Requeue(s, id, Some(n)).turns[id]);
    case ERecover => RecoverKeepsQueue(c, s);
    case EDeleteChat(chat) => DeleteKeepsQueue(c, s, chat);
  }

  // ---------- Conservation over attempts ----------

  lemma {:induction false} SumFrame(a: Attempts, b: Attempts, id: TurnId, n: nat)
    requires forall m: nat :: 1 <= m <= n ==>
      ((id, m) in a <==> (id, m) in b) && ((id, m) in a ==> a[(id, m)].counters == b[(id, m)].counters)
    ensures Sum(a, id, n) == Sum(b, id, n)
  {
    if n > 0 { SumFrame(a, b, id, n - 1); }
  }

  // Overwriting the counters of one attempt changes the sum by the difference.
  lemma {:induction false} SumUpdate(a: Attempts, id: TurnId, m: nat, attempt: Attempt, n: nat)
    requires 1 <= m <= n && (id, m) in a
    ensures Plus(Sum(a[(id, m) := attempt], id, n), a[(id, m)].counters) == Plus(Sum(a, id, n), attempt.counters)
  {
    var b := a[(id, m) := attempt];
    if n == m {
      SumFrame(a, b, id, n - 1);
    } else {
      SumUpdate(a, id, m, attempt, n - 1);
    }
  }

  // Turns whose rows an event leaves alone keep their invariant.
  lemma TurnFrame(s: State, t: State, id: TurnId)
    requires id in s.turns && id in t.turns && t.turns[id] == s.turns[id] && TurnInv(s, id)
    requires forall n: nat :: (id, n) in s.attempts <==> (id, n) in t.attempts
    requires forall n: nat :: (id, n) in s.attempts ==> t.attempts[(id, n)] == s.attempts[(id, n)]
    ensures TurnInv(t, id)
  {
    SumFrame(s.attempts, t.attempts, id, s.turns[id].attemptCount);
    forall n: nat | (id, n) in t.attempts ensures AttemptRow(t.turns[id], t.attempts[(id, n)], n) {
      assert AttemptRow(s.turns[id], s.attempts[(id, n)], n);
    }
  }

  // An event that touches one turn and its attempts only.
  ghost predicate Local(s: State, t: State, id: TurnId) {
    && id in t.turns && t.turns == s.turns[id := t.turns[id]]
    && forall k: (TurnId, nat) :: k.0 != id ==>
      (k in s.attempts <==> k in t.attempts) && (k in s.attempts ==> t.attempts[k] == s.attempts[k])
  }

  lemma LocalKeepsAttempts(s: State, t: State, id: TurnId)
    requires AttemptsInv(s) && Local(s, t, id) && TurnInv(t, id)
    ensures AttemptsInv(t)
  {
    forall k | k in t.turns ensures TurnInv(t, k) {
      if k != id { TurnFrame(s, t, k); }
    }
    forall k | k in t.attempts ensures k.0 in t.turns {
      if k.0 != id { assert k in s.attempts; }
    }
  }

  lemma StartIsLocal(s: State, id: TurnId)
    requires id in s.turns
    ensures Local(s, Start(s, id), id)
  {}

  lemma FinishIsLocal(s: State, id: TurnId, status: Status, metrics: Option<Metrics>, attempt: Option<nat>)
    requires id in s.turns
    ensures Local(s, Finish(s, id, status, metrics, attempt), id)
  {}

  lemma WriteIsLocal(s: State, t: State, u: State, id: TurnId)
    requires Local(s, t, id) && id in u.turns && u.turns == t.turns[id := u.turns[id]] && u.attempts == t.attempts
    ensures Local(s, u, id)
  {}

  lemma TerminalIsLocal(s: State, id: TurnId, n: nat, e: TerminalEvent, closed: bool, sequence: nat)
    requires id in s.turns && Active(s.turns[id].status)
    ensures Local(s, Terminal(s, id, n, e, closed, sequence), id)
  {
    var ended := Finish(s, id, e.status, Some(e.metrics), Some(n));
    FinishIsLocal(s, id, e.status, Some(e.metrics), Some(n));
    WriteIsLocal(s, ended, Terminal(s, id, n, e, closed, sequence), id);
  }

  lemma ShutdownIsLocal(s: State, id: TurnId)
    requires id in s.turns
    ensures Local(s, Requeue(Finish(s, id, Interrupted, None, LiveAttempt(s, id)), id, None), id)
  {
    FinishIsLocal(s, id, Interrupted, None, LiveAttempt(s, id));
  }

  lemma StartBounded(s: State, id: TurnId)
    requires id in s.turns && Bounded(s.turns[id]) && s.turns[id].status.Queued?
    ensures Bounded(Start(s, id).turns[id])
  {}

  lemma StartKeepsTurn(s: State, t: State, id: TurnId)
    requires id in s.turns && TurnInv(s, id) && s.turns[id].status.Queued? && t == Start(s, id)
    ensures TurnInv(t, id)
  {
    StartRows(s, id);
    StartSum(s, id);
    StartNumbered(s, id);
    StartBounded(s, id);
  }

  lemma StartNumbered(s: State, id: TurnId)
    requires id in s.turns && Numbered(s.attempts, id, s.turns[id].attemptCount)
    ensures Numbered(Start(s, id).attempts, id, s.turns[id].attemptCount + 1)
  {}

  lemma PlusZero(a: Metrics, b: Metrics)
    ensures Plus(a, b) == a <==> b == NO_METRICS
  {}

  lemma StartSum(s: State, id: TurnId)
    requires id in s.turns && s.turns[id].counters == Sum(s.attempts, id, s.turns[id].attemptCount)
    ensures Start(s, id).turns[id].counters == Sum(Start(s, id).attempts, id, s.turns[id].attemptCount + 1)
  {
    var n := s.turns[id].attemptCount;
    SumFrame(s.attempts, Start(s, id).attempts, id, n);
    PlusZero(s.turns[id].counters, NO_METRICS);
  }

  lemma StartRows(s: State, id: TurnId)
    requires id in s.turns && RowsAgree(s.attempts, id, s.turns[id]) && s.turns[id].status.Queued?
    requires Numbered(s.attempts, id, s.turns[id].attemptCount)
    ensures RowsAgree(Start(s, id).attempts, id, Start(s, id).turns[id])
  {
    var t, n := Start(s, id), s.turns[id].attemptCount;
    forall m: nat | (id, m) in t.attempts ensures AttemptRow(t.turns[id], t.attempts[(id, m)], m) {
      if m != n + 1 {
        assert (id, m) in s.attempts && AttemptRow(s.turns[id], s.attempts[(id, m)], m);
      }
    }
  }

  // What a caller of finishTurnLocally can check first.  Naming an attempt: it never counted
  // anything, and it is the live one if the turn runs.  Naming none that exists: the turn does not
  // run and there is nothing to count.
  predicate SafeFinish(s: State, id: TurnId, metrics: Option<Metrics>, attempt: Option<nat>)
    requires id in s.turns
  {
    if attempt.Some? && (id, attempt.value) in s.attempts then
      && s.attempts[(id, attempt.value)].counters == NO_METRICS
      && (s.turns[id].status.Running? ==> attempt.value == s.turns[id].attemptCount)
    else !s.turns[id].status.Running? && (metrics.None? || metrics.value == NO_METRICS)
  }

  lemma FinishSum(s: State, id: TurnId, status: Status, counted: Metrics, n: nat)
    requires id in s.turns && TurnInv(s, id) && 1 <= n <= s.turns[id].attemptCount
    ensures var b := s.attempts[(id, n) := Attempt(status, counted)];
      (Plus(s.turns[id].counters, counted) == Sum(b, id, s.turns[id].attemptCount)) <==>
        s.attempts[(id, n)].counters == NO_METRICS
  {
    var count := s.turns[id].attemptCount;
    assert (id, n) in s.attempts;
    SumUpdate(s.attempts, id, n, Attempt(status, counted), count);
    var b := s.attempts[(id, n) := Attempt(status, counted)];
    var old', new' := Plus(s.turns[id].counters, counted), Sum(b, id, count);
    assert Plus(new', s.attempts[(id, n)].counters) == old';
  }

  /** finishTurnLocally keeps the attempts consistent with their turn exactly when it is told a safe
      attempt. */
  lemma FinishKeepsTurnExactly(s: State, id: TurnId, status: Status, metrics: Option<Metrics>, attempt: Option<nat>)
    requires id in s.turns && TurnInv(s, id) && Active(s.turns[id].status) && Terminated(status)
    ensures TurnInv(Finish(s, id, status, metrics, attempt), id) <==> SafeFinish(s, id, metrics, attempt)
  {
    var t := Finish(s, id, status, metrics, attempt);
    var turn := s.turns[id];
    var counted := if metrics.Some? then metrics.value else NO_METRICS;
    if attempt.Some? && (id, attempt.value) in s.attempts {
      FinishNamed(s, id, status, counted, attempt.value);
    } else {
      FinishUnnamed(s, t, id, counted);
    }
  }

  lemma FinishUnnamed(s: State, t: State, id: TurnId, counted: Metrics)
    requires id in s.turns && id in t.turns && TurnInv(s, id) && t.attempts == s.attempts
    requires Terminated(t.turns[id].status)
    requires t.turns[id] == s.turns[id].(status := t.turns[id].status, counters := Plus(s.turns[id].counters, counted))
    ensures TurnInv(t, id) <==> !s.turns[id].status.Running? && counted == NO_METRICS
  {
    if s.turns[id].status.Running? {
      OrphanedRow(s, t, id);
    } else {
      assert RowsAgree(t.attempts, id, t.turns[id]) by { RowsSurvive(s, t, id); }
      assert Numbered(t.attempts, id, t.turns[id].attemptCount) && Bounded(t.turns[id]);
      PlusZero(s.turns[id].counters, counted);
    }
  }

  // Ending a running turn without its attempt leaves that attempt running.
  lemma OrphanedRow(s: State, t: State, id: TurnId)
    requires id in s.turns && id in t.turns && TurnInv(s, id) && t.attempts == s.attempts
    requires s.turns[id].status.Running? && !t.turns[id].status.Running?
    ensures !RowsAgree(t.attempts, id, t.turns[id])
  {
    var n := s.turns[id].attemptCount;
    assert (id, n) in s.attempts && AttemptRow(s.turns[id], s.attempts[(id, n)], n);
    assert !AttemptRow(t.turns[id], t.attempts[(id, n)], n);
  }

  // Rows of a turn that neither runs nor ran before or after the event.
  lemma RowsSurvive(s: State, t: State, id: TurnId)
    requires id in s.turns && id in t.turns && TurnInv(s, id) && t.attempts == s.attempts
    requires !s.turns[id].status.Running? && !t.turns[id].status.Running?
    ensures RowsAgree(t.attempts, id, t.turns[id])
  {
    forall n: nat | (id, n) in t.attempts ensures AttemptRow(t.turns[id], t.attempts[(id, n)], n) {
      assert AttemptRow(s.turns[id], s.attempts[(id, n)], n);
    }
  }

  lemma FinishNamed(s: State, id: TurnId, status: Status, counted: Metrics, n: nat)
    requires id in s.turns && TurnInv(s, id) && Active(s.turns[id].status) && Terminated(status)
    requires (id, n) in s.attempts
    ensures TurnInv(Finish(s, id, status, Some(counted), Some(n)), id) <==> SafeFinish(s, id, Some(counted), Some(n))
  {
    var t, turn := Finish(s, id, status, Some(counted), Some(n)), s.turns[id];
    assert AttemptRow(turn, s.attempts[(id, n)], n);
    FinishSum(s, id, status, counted, n);
    var last := turn.attemptCount;
    if turn.status.Running? && n != last {
      assert AttemptRow(turn, s.attempts[(id, last)], last);
      assert (id, last) in t.attempts && !AttemptRow(t.turns[id], t.attempts[(id, last)], last);
    } else {
      forall m: nat | (id, m) in t.attempts ensures AttemptRow(t.turns[id], t.attempts[(id, m)], m) {
        assert AttemptRow(turn, s.attempts[(id, m)], m);
      }
    }
  }

  // A turn that is not running may take any other place in the queue.
  lemma PlaceKeepsTurn(s: State, t: State, id: TurnId)
    requires id in s.turns && id in t.turns && TurnInv(s, id) && t.attempts == s.attempts
    requires !s.turns[id].status.Running? && !t.turns[id].status.Running?
    requires t.turns[id].attemptCount == s.turns[id].attemptCount && t.turns[id].counters == s.turns[id].counters
    requires t.turns[id].recoveries < MAX_AUTOMATIC_ATTEMPTS && t.turns[id].recoveries <= t.turns[id].attemptCount
    ensures TurnInv(t, id)
  {
    RowsSurvive(s, t, id);
  }

  // The automatic branch fires at most once per attempt, so its history stays below their count.
  lemma TerminalKeepsTurn(s: State, id: TurnId, n: nat, e: TerminalEvent, closed: bool, sequence: nat)
    requires id in s.turns && TurnInv(s, id) && Active(s.turns[id].status) && Terminated(e.status)
    requires (id, n) in s.attempts && SafeFinish(s, id, Some(e.metrics), Some(n))
    requires s.turns[id].recoveries < s.turns[id].attemptCount
    ensures TurnInv(Terminal(s, id, n, e, closed, sequence), id)
  {
    FinishKeepsTurnExactly(s, id, e.status, Some(e.metrics), Some(n));
    var ended := Finish(s, id, e.status, Some(e.metrics), Some(n));
    PlaceKeepsTurn(ended, Terminal(s, id, n, e, closed, sequence), id);
  }

  // A running turn has counted nothing for its live attempt yet.
  lemma LiveIsSafe(s: State, id: TurnId, metrics: Option<Metrics>)
    requires id in s.turns && TurnInv(s, id) && (s.turns[id].status.Running? || metrics.None?)
    ensures SafeFinish(s, id, metrics, LiveAttempt(s, id))
    ensures s.turns[id].status.Running? ==> (id, s.turns[id].attemptCount) in s.attempts
  {
    var n := s.turns[id].attemptCount;
    if s.turns[id].status.Running? {
      assert (id, n) in s.attempts && AttemptRow(s.turns[id], s.attempts[(id, n)], n);
    }
  }

  lemma LiveTerminalKeepsTurn(s: State, id: TurnId, e: TerminalEvent, closed: bool, sequence: nat)
    requires id in s.turns && TurnInv(s, id) && s.turns[id].status.Running? && Terminated(e.status)
    ensures TurnInv(Terminal(s, id, s.turns[id].attemptCount, e, closed, sequence), id)
  {
    LiveIsSafe(s, id, Some(e.metrics));
    TerminalKeepsTurn(s, id, s.turns[id].attemptCount, e, closed, sequence);
  }

  lemma EndKeepsTurn(s: State, id: TurnId, status: Status)
    requires id in s.turns && TurnInv(s, id) && Active(s.turns[id].status) && Terminated(status)
    ensures TurnInv(Finish(s, id, status, None, LiveAttempt(s, id)), id)
  {
    LiveIsSafe(s, id, None);
    FinishKeepsTurnExactly(s, id, status, None, LiveAttempt(s, id));
  }

  /** The same condition for the tables as a whole. */
  lemma FinishKeepsAttemptsExactly(s: State, id: TurnId, status: Status, metrics: Option<Metrics>, attempt: Option<nat>)
    requires AttemptsInv(s) && IsActive(s.turns, id) && Terminated(status)
    ensures AttemptsInv(Finish(s, id, status, metrics, attempt)) <==> SafeFinish(s, id, metrics, attempt)
  {
    var t := Finish(s, id, status, metrics, attempt);
    assert TurnInv(s, id);
    FinishKeepsTurnExactly(s, id, status, metrics, attempt);
    FinishIsLocal(s, id, status, metrics, attempt);
    if SafeFinish(s, id, metrics, attempt) {
      LocalKeepsAttempts(s, t, id);
    } else {
      assert id in t.turns && !TurnInv(t, id);
    }
  }

  // The attempt finishTurnLocally looks up is the live one.
  lemma LiveIsNewest(s: State, id: TurnId, n: Option<nat>)
    requires id in s.turns && TurnInv(s, id)
    requires n.Some? ==> NewestRunning(s, id, n.value)
    requires n.None? ==> forall m: nat :: (id, m) in s.attempts ==> !s.attempts[(id, m)].status.Running?
    ensures n == LiveAttempt(s, id)
  {
    var last := s.turns[id].attemptCount;
    if s.turns[id].status.Running? {
      assert (id, last) in s.attempts && AttemptRow(s.turns[id], s.attempts[(id, last)], last);
    }
    if n.Some? { assert AttemptRow(s.turns[id], s.attempts[(id, n.value)], n.value); }
  }

  // The terminal event belongs to an attempt that never counted anything and is not outrun.
  predicate TerminalIsSafe(s: State, id: TurnId, n: nat, e: TerminalEvent)
    requires id in s.turns
  {
    && (id, n) in s.attempts && SafeFinish(s, id, Some(e.metrics), Some(n))
    && s.turns[id].recoveries < s.turns[id].attemptCount
  }

  lemma FinishKeepsQueue(c: Config, s: State, id: TurnId, status: Status, metrics: Option<Metrics>,
                         attempt: Option<nat>)
    requires QueueInv(c, s.turns) && IsActive(s.turns, id) && Terminated(status)
    ensures QueueInv(c, Finish(s, id, status, metrics, attempt).turns)
  {
    MoveActive(c, s.turns, id, Finish(s, id, status, metrics, attempt).turns[id]);
  }

  lemma TerminalKeepsQueue(c: Config, s: State, id: TurnId, n: nat, e: TerminalEvent, closed: bool, sequence: nat)
    requires QueueInv(c, s.turns) && IsActive(s.turns, id) && Terminated(e.status) && IsNextSequence(s.turns, sequence)
    ensures QueueInv(c, Terminal(s, id, n, e, closed, sequence).turns)
  {
    TerminalTurns(s, id, n, e, closed, sequence);
    MoveActive(c, s.turns, id, Terminal(s, id, n, e, closed, sequence).turns[id]);
  }

  lemma TerminalKeepsAttempts(s: State, id: TurnId, n: nat, e: TerminalEvent, closed: bool, sequence: nat)
    requires AttemptsInv(s) && IsActive(s.turns, id) && Terminated(e.status) && TerminalIsSafe(s, id, n, e)
    ensures AttemptsInv(Terminal(s, id, n, e, closed, sequence))
  {
    assert TurnInv(s, id);
    TerminalKeepsTurn(s, id, n, e, closed, sequence);
    TerminalIsLocal(s, id, n, e, closed, sequence);
    LocalKeepsAttempts(s, Terminal(s, id, n, e, closed, sequence), id);
  }

  lemma RecoverKeepsTurn(s: State, id: TurnId)
    requires id in s.turns && TurnInv(s, id)
    ensures TurnInv(Recover(s), id)
  {
    var t := Recover(s);
    SumFrame(s.attempts, t.attempts, id, s.turns[id].attemptCount);
    forall n: nat | (id, n) in t.attempts ensures AttemptRow(t.turns[id], t.attempts[(id, n)], n) {
      assert AttemptRow(s.turns[id], s.attempts[(id, n)], n);
    }
  }

  lemma SendKeepsAttempts(s: State, id: TurnId, chat: ChatId, n: nat)
    requires AttemptsInv(s) && id !in s.turns
    ensures AttemptsInv(Send(s, id, chat, n))
  {
    var t := Send(s, id, chat, n);
    forall m: nat ensures (id, m) !in s.attempts { assert (id, m) in s.attempts ==> (id, m).0 in s.turns; }
    LocalKeepsAttempts(s, t, id);
  }

  lemma DeleteKeepsAttempts(s: State, chat: ChatId)
    requires AttemptsInv(s)
    ensures AttemptsInv(DeleteChat(s, chat))
  {
    var t := DeleteChat(s, chat);
    forall id | id in t.turns ensures TurnInv(t, id) { TurnFrame(s, t, id); }
  }

  lemma ShutdownKeepsTurn(s: State, id: TurnId)
    requires id in s.turns && TurnInv(s, id) && Active(s.turns[id].status)
    ensures TurnInv(Requeue(Finish(s, id, Interrupted, None, LiveAttempt(s, id)), id, None), id)
  {
    var ended := Finish(s, id, Interrupted, None, LiveAttempt(s, id));
    EndKeepsTurn(s, id, Interrupted);
    PlaceKeepsTurn(ended, Requeue(ended, id, None), id);
  }

  lemma TurnEventIsLocal(c: Config, s: State, e: Event, id: TurnId)
    requires id in s.turns && Enabled(c, s, e)
    requires (e.EStart? || e.ETerminal? || e.EEnd? || e.EShutdown? || e.EResume?) && e.id == id
    ensures Local(s, Apply(c, s, e), id)
  {
    match e
    case EStart(_) => StartIsLocal(s, id);
    case ETerminal(_, event, closed, n) => TerminalIsLocal(s, id, s.turns[id].attemptCount, event, closed, n);
    case EEnd(_, status) => FinishIsLocal(s, id, status, None, LiveAttempt(s, id));
    case EShutdown(_) => ShutdownIsLocal(s, id);
    case EResume(_, n) =>
  }

  lemma TurnEventKeepsTurn(c: Config, s: State, e: Event, id: TurnId)
    requires id in s.turns && TurnInv(s, id) && Enabled(c, s, e)
    requires (e.EStart? || e.ETerminal? || e.EEnd? || e.EShutdown? || e.EResume?) && e.id == id
    ensures TurnInv(Apply(c, s, e), id)
  {
    match e
    case EStart(_) => StartKeepsTurn(s, Start(s, id), id);
    case ETerminal(_, event, closed, n) => LiveTerminalKeepsTurn(s, id, event, closed, n);
    case EEnd(_, status) => EndKeepsTurn(s, id, status);
    case EShutdown(_) => ShutdownKeepsTurn(s, id);
    case EResume(_, n) => PlaceKeepsTurn(s, Requeue(s, id, Some(n)), id);
  }

  lemma EventKeepsAttempts(c: Config, s: State, e: Event)
    requires AttemptsInv(s) && Enabled(c, s, e)
    ensures AttemptsInv(Apply(c, s, e))
  {
    match e {
      case ESend(id, chat, n) => SendKeepsAttempts(s, id, chat, n);
      case ERecover => RecoverKeepsAttempts(s);
      case EDeleteChat(chat) => DeleteKeepsAttempts(s, chat);
      case _ =>
        assert e.id in s.turns && TurnInv(s, e.id);
        TurnEventKeepsTurn(c, s, e, e.id);
        TurnEventIsLocal(c, s, e, e.id);
        LocalKeepsAttempts(s, Apply(c, s, e), e.id);
    }
  }

  lemma RecoverKeepsAttempts(s: State)
    requires AttemptsInv(s)
    ensures AttemptsInv(Recover(s))
  {
    forall id | id in s.turns ensures TurnInv(Recover(s), id) { RecoverKeepsTurn(s, id); }
  }

  lemma {:induction false} RunKeepsInv(c: Config, s: State, es: seq<Event>)
    requires QueueInv(c, s.turns) && AttemptsInv(s) && Possible(c, s, es)
    ensures QueueInv(c, Run(c, s, es).turns) && AttemptsInv(Run(c, s, es))
    decreases |es|
  {
    if es != [] {
      EventKeepsQueue(c, s, es[0]);
      EventKeepsAttempts(c, s, es[0]);
      RunKeepsInv(c, Apply(c, s, es[0]), es[1..]);
    }
  }

  lemma PlusAdds(a: Metrics, b: Metrics, f: Counter)
    ensures Of(Plus(a, b), f) == Of(a, f) + Of(b, f)
  {}

  lemma {:induction false} SumCounts(attempts: Attempts, id: TurnId, n: nat, f: Counter)
    ensures Of(Sum(attempts, id, n), f) == SumOf(attempts, id, n, f)
  {
    if n > 0 {
      SumCounts(attempts, id, n - 1, f);
      PlusAdds(Sum(attempts, id, n - 1), if (id, n) in attempts then attempts[(id, n)].counters else NO_METRICS, f);
    }
  }

  // ---------- Main results ----------

  /** Queue bounds over all interleavings, although automatic requeues never check capacity. */
  lemma QueueBounds(c: Config, es: seq<Event>)
    requires Possible(c, EMPTY, es)
    ensures var turns := Run(c, EMPTY, es).turns;
      && |RunningTurns(turns)| <= c.maxActive
      && |QueuedTurns(turns)| + |RunningTurns(turns)| <= c.maxQueued + c.maxActive
      && (forall a, b :: IsActive(turns, a) && IsActive(turns, b) && turns[a].chat == turns[b].chat ==> a == b)
      && (forall a, b :: a in turns && b in turns && turns[a].sequence == turns[b].sequence ==> a == b)
  {
    RunKeepsInv(c, EMPTY, es);
  }

  /** Attempt conservation over all interleavings; each counter is the plain sum of that counter. */
  lemma AttemptConservation(c: Config, es: seq<Event>, id: TurnId)
    requires Possible(c, EMPTY, es) && id in Run(c, EMPTY, es).turns
    ensures var s := Run(c, EMPTY, es); var turn := s.turns[id];
      && (forall n: nat :: (id, n) in s.attempts <==> 1 <= n <= turn.attemptCount)
      && (forall n: nat :: (id, n) in s.attempts ==>
            (s.attempts[(id, n)].status.Running? <==> turn.status.Running? && n == turn.attemptCount))
      && (turn.status.Running? ==> (id, turn.attemptCount) in s.attempts)
      && (forall f :: Of(turn.counters, f) == SumOf(s.attempts, id, turn.attemptCount, f))
      && turn.recoveries <= MAX_AUTOMATIC_ATTEMPTS - 1
  {
    RunKeepsInv(c, EMPTY, es);
    var s := Run(c, EMPTY, es);
    assert TurnInv(s, id);
    forall n: nat | (id, n) in s.attempts
      ensures s.attempts[(id, n)].status.Running? <==> s.turns[id].status.Running? && n == s.turns[id].attemptCount
    {
      assert AttemptRow(s.turns[id], s.attempts[(id, n)], n);
    }
    forall f ensures Of(s.turns[id].counters, f) == SumOf(s.attempts, id, s.turns[id].attemptCount, f) {
      SumCounts(s.attempts, id, s.turns[id].attemptCount, f);
    }
  }

  // ---------- Queue positions ----------

  lemma PositionsDistinct(turns: map<TurnId, Turn>, a: TurnId, b: TurnId)
    requires a in QueuedTurns(turns) && b in QueuedTurns(turns) && turns[a].sequence < turns[b].sequence
    ensures QueuePosition(turns, a) < QueuePosition(turns, b)
  {
    var x, y := Ahead(turns, turns[a].sequence), Ahead(turns, turns[b].sequence);
    assert x + {b} <= y && b !in x;
    SubsetSize(x + {b}, y);
  }

  lemma {:induction false} Latest(turns: map<TurnId, Turn>, ids: set<TurnId>) returns (id: TurnId)
    requires ids != {} && ids <= turns.Keys
    ensures id in ids && forall k :: k in ids ==> turns[k].sequence <= turns[id].sequence
    decreases ids
  {
    id :| id in ids;
    if ids != {id} {
      var b := Latest(turns, ids - {id});
      assert forall k :: k in ids ==> k == id || k in ids - {id};
      if turns[b].sequence > turns[id].sequence { id := b; }
    }
  }

  // Every size between 1 and the length of the queue is the position of some turn.
  lemma {:induction false} PositionTaken(turns: map<TurnId, Turn>, p: nat, bound: int) returns (id: TurnId)
    requires DistinctSequences(turns) && 1 <= p <= |Ahead(turns, bound)|
    ensures id in QueuedTurns(turns) && turns[id].sequence <= bound && QueuePosition(turns, id) == p
    decreases |Ahead(turns, bound)|
  {
    var ahead := Ahead(turns, bound);
    id := Latest(turns, ahead);
    assert Ahead(turns, turns[id].sequence) == ahead;
    if p < |ahead| {
      var shorter := Ahead(turns, turns[id].sequence - 1);
      assert shorter == ahead - {id};
      assert |shorter| == |ahead| - 1;
      id := PositionTaken(turns, p, turns[id].sequence - 1);
    }
  }

  ghost predicate Position(turns: map<TurnId, Turn>, id: TurnId, p: nat) {
    id in QueuedTurns(turns) && QueuePosition(turns, id) == p
  }

  ghost predicate Taken(turns: map<TurnId, Turn>, p: nat) { exists id :: Position(turns, id, p) }

  /** queuePosition is a bijection from the queued turns to 1..n, and the dispatcher always takes the
      turn at position 1. */
  lemma PositionsAreABijection(c: Config, turns: map<TurnId, Turn>)
    requires QueueInv(c, turns)
    ensures forall id :: id in QueuedTurns(turns) ==> 1 <= QueuePosition(turns, id) <= |QueuedTurns(turns)|
    ensures forall p: nat :: 1 <= p <= |QueuedTurns(turns)| ==> Taken(turns, p)
    ensures forall a, b, p: nat :: Position(turns, a, p) && Position(turns, b, p) ==> a == b
    ensures forall id :: Position(turns, id, 1) <==> IsNext(turns, id)
  {
    forall id | id in QueuedTurns(turns) ensures 1 <= QueuePosition(turns, id) <= |QueuedTurns(turns)| {
      PositionInRange(turns, id);
    }
    forall p: nat | 1 <= p <= |QueuedTurns(turns)| ensures Taken(turns, p) {
      var last := Latest(turns, QueuedTurns(turns));
      assert Ahead(turns, turns[last].sequence) == QueuedTurns(turns);
      var id := PositionTaken(turns, p, turns[last].sequence);
      assert Position(turns, id, p);
    }
    forall a, b, p: nat | Position(turns, a, p) && Position(turns, b, p) ensures a == b {
      if turns[a].sequence < turns[b].sequence { PositionsDistinct(turns, a, b); }
      if turns[b].sequence < turns[a].sequence { PositionsDistinct(turns, b, a); }
    }
    forall id ensures Position(turns, id, 1) <==> IsNext(turns, id) { FirstIsNext(turns, id); }
  }

  lemma PositionInRange(turns: map<TurnId, Turn>, id: TurnId)
    requires id in QueuedTurns(turns)
    ensures 1 <= QueuePosition(turns, id) <= |QueuedTurns(turns)|
  {
    var ahead := Ahead(turns, turns[id].sequence);
    SubsetSize({id}, ahead);
    SubsetSize(ahead, QueuedTurns(turns));
  }

  lemma FirstIsNext(turns: map<TurnId, Turn>, id: TurnId)
    requires DistinctSequences(turns)
    ensures Position(turns, id, 1) <==> IsNext(turns, id)
  {
    if id in QueuedTurns(turns) {
      var ahead := Ahead(turns, turns[id].sequence);
      if IsNext(turns, id) {
        assert ahead == {id};
      } else {
        var k :| k in QueuedTurns(turns) && turns[k].sequence < turns[id].sequence;
        SubsetSize({id, k}, ahead);
      }
    }
  }
}
