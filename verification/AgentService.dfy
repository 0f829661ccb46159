/** The synchronous sections of apps/api/src/services/agentService.ts, over module AgentTurns. */
module AgentServices {
  import opened Wrappers
  import opened AgentTurns
  import Outcomes = AgentOutcomes
  import Proofs = AgentProofs

  datatype HttpError = NotFound | Conflict | TooManyRequests

  // How an attempt to start a queued turn goes once its awaits are over.
  datatype Reply = Started | NotStarted | Deferred | Broken(afterStart: bool)

  // A chat with a turn that has not ended is busy, and a full queue takes no more.
  ghost function Capacity(c: Config, turns: map<TurnId, Turn>, chat: ChatId): (r: Result<(), HttpError>) {
    if exists id :: id in turns && turns[id].chat == chat && turns[id].status in {Queued, Pending, Running}
    then Err(Conflict)
    else if |set id | id in turns && turns[id].status == Queued| >= c.maxQueued then Err(TooManyRequests)
    else Ok(())
  }

  // Failed and interrupted turns are resumed, and completed ones whose answer may be continued, when there
  // is room for them.
  ghost function Resumption(c: Config, turns: map<TurnId, Turn>, id: TurnId, resumable: bool)
    : (r: Result<(), HttpError>)
  {
    if id !in turns then Err(NotFound)
    else if turns[id].status in {Failed, Interrupted} || (turns[id].status == Completed && resumable)
    then Capacity(c, turns, turns[id].chat)
    else Err(Conflict)
  }

  // The turn is queued at this place, and nothing else changes.
  ghost predicate Requeued(before: map<TurnId, Turn>, after: map<TurnId, Turn>, id: TurnId, sequence: nat) {
    id in before && after == before[id := before[id].(status := Queued, sequence := sequence)]
  }

  class AgentService {
    const config: Config
    var turns: map<TurnId, Turn>
    var attempts: Attempts
    var closed: bool

    ghost function View(): State
      reads this
    {
      State(turns, attempts)
    }

    ghost predicate Valid()
      reads this
    {
      QueueInv(config, turns) && AttemptsInv(View())
    }

    // Constructing the service recovers what a previous process left running.
    constructor (config: Config, turns: map<TurnId, Turn>, attempts: Attempts)
      requires QueueInv(config, turns) && AttemptsInv(State(turns, attempts))
      ensures this.config == config && !closed && Valid() && View() == Recover(State(turns, attempts))
    {
      this.config := config;
      this.turns, this.attempts := turns, attempts;
      closed := false;
      new;
      RecoverInterruptedTurns();
    }

    method RecoverInterruptedTurns()
      requires Valid()
      modifies `turns, `attempts
      ensures Valid() && View() == Recover(old(View()))
    {
      Proofs.RecoverKeepsQueue(config, View());
      Proofs.RecoverKeepsAttempts(View());
      RecoverRows();
    }

    method RecoverRows()
      modifies `turns, `attempts
      ensures View() == Recover(old(View()))
    {
      attempts := map k | k in attempts ::
        if attempts[k].status.Running? then attempts[k].(status := Interrupted) else attempts[k];
      turns := map id | id in turns ::
        if turns[id].status.Pending? || turns[id].status.Running? then turns[id].(status := Queued) else turns[id];
    }

    method NextSequence() returns (n: nat)
      ensures IsNextSequence(turns, n)
    {
      n := 1;
      var todo := turns.Keys;
      while todo != {}
        invariant todo <= turns.Keys
        invariant forall id :: id in turns && id !in todo ==> turns[id].sequence < n
        invariant n == 1 || exists id :: id in turns && turns[id].sequence + 1 == n
        decreases todo
      {
        var id :| id in todo;
        if turns[id].sequence >= n { n := turns[id].sequence + 1; }
        todo := todo - {id};
      }
    }

    method AssertQueueCapacity(chat: ChatId) returns (r: Result<(), HttpError>)
      ensures r.Ok? <==> HasCapacity(config, turns, chat)
      ensures r == Capacity(config, turns, chat)
    {
      if ChatBusy(turns, chat) { return Err(Conflict); }
      assert QueuedTurns(turns) == set id | id in turns && turns[id].status == Queued;
      if |QueuedTurns(turns)| >= config.maxQueued { return Err(TooManyRequests); }
      return Ok(());
    }

    // The transaction of sendMessage.
    method SendMessage(id: TurnId, chat: ChatId) returns (r: Result<TurnId, HttpError>)
      requires Valid() && id !in turns
      modifies `turns
      ensures Valid() && (r.Ok? <==> HasCapacity(config, old(turns), chat))
      ensures r.Err? ==> View() == old(View()) && Capacity(config, old(turns), chat) == Err(r.error)
      ensures r.Ok? ==> r.value == id && id in turns && IsNextSequence(old(turns), turns[id].sequence)
      ensures r.Ok? ==> turns == old(turns)[id := turns[id]] && Capacity(config, old(turns), chat) == Ok(())
      ensures r.Ok? ==> Outcomes.FreshTurn(turns[id], chat, turns[id].sequence)
      ensures r.Ok? ==> View() == Send(old(View()), id, chat, turns[id].sequence)
    {
      var capacity := AssertQueueCapacity(chat);
      if capacity.Err? { return Err(capacity.error); }
      var n := NextSequence();
      Proofs.EventKeepsQueue(config, View(), ESend(id, chat, n));
      Proofs.EventKeepsAttempts(config, View(), ESend(id, chat, n));
      turns := turns[id := Turn(chat, Queued, n, 0, NO_METRICS, 0)];
      return Ok(id);
    }

    // SELECT ... WHERE status = 'queued' ORDER BY submission_sequence LIMIT 1
    method FirstQueued() returns (next: Option<TurnId>)
      ensures next.None? ==> QueuedTurns(turns) == {}
      ensures next.Some? ==> IsNext(turns, next.value)
    {
      var todo := QueuedTurns(turns);
      if todo == {} { return None; }
      var id :| id in todo;
      todo := todo - {id};
      while todo != {}
        invariant todo <= QueuedTurns(turns) && id in QueuedTurns(turns)
        invariant forall k :: k in QueuedTurns(turns) && k !in todo ==> turns[id].sequence <= turns[k].sequence
        decreases todo
      {
        var k :| k in todo;
        if turns[k].sequence < turns[id].sequence { id := k; }
        todo := todo - {k};
      }
      return Some(id);
    }

    // The transaction of startQueuedTurn.
    method StartQueuedTurn(id: TurnId) returns (changed: bool)
      requires Valid() && id in turns
      modifies `turns, `attempts
      ensures Valid() && changed == (old(turns)[id].status.Queued? && |RunningTurns(old(turns))| < config.maxActive)
      ensures View() == if changed then Start(old(View()), id) else old(View())
      ensures changed ==> Outcomes.Begun(old(View()), View(), id)
    {
      if |RunningTurns(turns)| >= config.maxActive || !turns[id].status.Queued? { return false; }
      Proofs.EventKeepsQueue(config, View(), EStart(id));
      Proofs.EventKeepsAttempts(config, View(), EStart(id));
      assert TurnInv(View(), id);
      StartRows(id);
      return true;
    }

    method StartRows(id: TurnId)
      requires id in turns
      modifies `turns, `attempts
      ensures View() == Start(old(View()), id) && Outcomes.Begun(old(View()), View(), id)
    {
      var n := turns[id].attemptCount + 1;
      turns := turns[id := turns[id].(status := Running, attemptCount := n)];
      attempts := attempts[(id, n) := Attempt(Running, NO_METRICS)];
    }

    // Without an attempt id the newest running attempt of the turn is the one to update.
    method EffectiveAttempt(id: TurnId) returns (n: Option<nat>)
      requires Valid() && id in turns
      ensures n == LiveAttempt(View(), id)
      ensures n.Some? ==> NewestRunning(View(), id, n.value)
      ensures n.None? ==> forall m: nat :: (id, m) in attempts ==> !attempts[(id, m)].status.Running?
    {
      assert TurnInv(View(), id);
      n := None;
      var m := turns[id].attemptCount;
      while m > 0 && n.None?
        invariant m <= turns[id].attemptCount
        invariant forall k: nat :: k > m && n.None? && (id, k) in attempts ==> !attempts[(id, k)].status.Running?
        invariant n.Some? ==> NewestRunning(View(), id, n.value)
        decreases m, n.None?
      {
        assert (id, m) in attempts && AttemptRow(turns[id], attempts[(id, m)], m);
        if attempts[(id, m)].status.Running? { n := Some(m); } else { m := m - 1; }
      }
      Proofs.LiveIsNewest(View(), id, n);
    }

    method FinishTurnLocally(id: TurnId, status: Status, metrics: Option<Metrics>, attempt: Option<nat>)
      returns (changed: bool)
      requires Valid() && Terminated(status)
      modifies `turns, `attempts
      ensures QueueInv(config, turns) && changed == IsActive(old(turns), id)
      ensures !changed ==> View() == old(View())
      ensures changed ==> View() == Finish(old(View()), id, status, metrics, Effective(old(View()), id, attempt))
      ensures changed ==>
        Outcomes.Finished(old(View()), View(), id, status, metrics, Effective(old(View()), id, attempt))
      ensures AttemptsInv(View()) <==>
        (changed ==> Proofs.SafeFinish(old(View()), id, metrics, Effective(old(View()), id, attempt)))
    {
      if !IsActive(turns, id) { return false; }
      var effective := attempt;
      if attempt.None? { effective := EffectiveAttempt(id); }
      assert effective == Effective(View(), id, attempt);
      Proofs.FinishKeepsQueue(config, View(), id, status, metrics, effective);
      Proofs.FinishKeepsAttemptsExactly(View(), id, status, metrics, effective);
      Outcomes.FinishMoves(View(), Finish(View(), id, status, metrics, effective), id, status, metrics, effective);
      FinishRows(id, status, metrics, effective);
      return true;
    }

    method FinishRows(id: TurnId, status: Status, metrics: Option<Metrics>, effective: Option<nat>)
      requires id in turns
      modifies `turns, `attempts
      ensures View() == Finish(old(View()), id, status, metrics, effective)
    {
      var counted := if metrics.Some? then metrics.value else NO_METRICS;
      turns := turns[id := turns[id].(status := status, counters := Plus(turns[id].counters, counted))];
      if effective.Some? && (id, effective.value) in attempts {
        attempts := attempts[(id, effective.value) := Attempt(status, counted)];
      }
    }

    method RequeueTurnForRecovery(id: TurnId, moveToQueueEnd: bool) returns (ghost place: Option<nat>)
      requires id in turns
      modifies `turns
      ensures moveToQueueEnd ==> place.Some? && IsNextSequence(old(turns), place.value)
      ensures !moveToQueueEnd ==> place.None?
      ensures View() == Requeue(old(View()), id, place)
      ensures Requeued(old(turns), turns, id, if moveToQueueEnd then place.value else old(turns)[id].sequence)
    {
      var n := turns[id].sequence;
      place := None;
      if moveToQueueEnd {
        n := NextSequence();
        place := Some(n);
      }
      turns := turns[id := turns[id].(status := Queued, sequence := n)];
    }

    // handleRuntimeEvent on the terminal event of the run that attempt `n` opened.
    method HandleTerminalEvent(id: TurnId, n: nat, e: TerminalEvent)
      returns (r: Result<(), HttpError>, ghost sequence: nat)
      requires Valid() && Terminated(e.status)
      modifies `turns, `attempts
      ensures QueueInv(config, turns) && (r.Ok? <==> id in old(turns))
      ensures r.Err? ==> r.error == NotFound && View() == old(View())
      ensures r.Ok? ==> IsNextSequence(old(turns), sequence)
      ensures r.Ok? ==> View() == Terminal(old(View()), id, n, e, closed, sequence)
      ensures r.Ok? && !IsActive(old(turns), id) ==> View() == old(View())
      ensures r.Ok? && IsActive(old(turns), id) ==>
        Outcomes.Delivered(old(View()), View(), id, n, e, closed, sequence)
      ensures r.Ok? && (IsActive(old(turns), id) ==> Proofs.TerminalIsSafe(old(View()), id, n, e)) ==> Valid()
    {
      sequence := 0;
      if id !in turns { return Err(NotFound), sequence; }
      ghost var before := View();
      sequence := TerminalRows(id, n, e);
      if IsActive(before.turns, id) {
        Outcomes.TerminalMoves(before, View(), id, n, e, closed, sequence);
        Proofs.TerminalKeepsQueue(config, before, id, n, e, closed, sequence);
        if Proofs.TerminalIsSafe(before, id, n, e) {
          Proofs.TerminalKeepsAttempts(before, id, n, e, closed, sequence);
        }
      }
      return Ok(()), sequence;
    }

    method TerminalRows(id: TurnId, n: nat, e: TerminalEvent) returns (ghost sequence: nat)
      requires id in turns
      modifies `turns, `attempts
      ensures IsNextSequence(old(turns), sequence)
      ensures View() == Terminal(old(View()), id, n, e, closed, sequence)
    {
      sequence := NextSequence();
      if !Active(turns[id].status) { return; }
      var automatic := RecoversAutomatically(turns[id], e);
      FinishRows(id, e.status, Some(e.metrics), Some(n));
      if RecoversAfterShutdown(closed, e) {
        ghost var _ := RequeueTurnForRecovery(id, false);
      } else if automatic {
        ghost var ended := turns;
        ghost var place := RequeueTurnForRecovery(id, true);
        SameSequences(old(turns), ended, place.value);
        sequence := place.value;
        // the history variable
        turns := turns[id := turns[id].(recoveries := turns[id].recoveries + 1)];
      }
    }

    // The last section of interruptTurn, and the failure branch of the dispatcher.
    method EndTurn(id: TurnId, status: Status) returns (changed: bool)
      requires Valid() && (status.Failed? || status.Interrupted?)
      modifies `turns, `attempts
      ensures Valid() && changed == IsActive(old(turns), id)
      ensures changed ==> View() == Finish(old(View()), id, status, None, LiveAttempt(old(View()), id))
      ensures !changed ==> View() == old(View())
    {
      if IsActive(turns, id) { Proofs.LiveIsSafe(View(), id, None); }
      changed := FinishTurnLocally(id, status, None, None);
    }

    // resumeTurn after its awaits; `resumable` is the answer-quality test on the stored turn.
    method ResumeTurn(id: TurnId, resumable: bool) returns (r: Result<(), HttpError>, ghost sequence: Option<nat>)
      requires Valid()
      modifies `turns
      ensures Valid() && (r.Err? ==> View() == old(View()))
      ensures r == Resumption(config, old(turns), id, resumable)
      ensures r.Ok? ==> sequence.Some? && IsNextSequence(old(turns), sequence.value)
      ensures r.Ok? ==> View() == Requeue(old(View()), id, sequence)
      ensures r.Ok? ==> attempts == old(attempts) && Requeued(old(turns), turns, id, sequence.value)
    {
      sequence := None;
      if id !in turns { return Err(NotFound), None; }
      var continuable := turns[id].status.Completed? && resumable;
      if !turns[id].status.Failed? && !turns[id].status.Interrupted? && !continuable { return Err(Conflict), None; }
      var capacity := AssertQueueCapacity(turns[id].chat);
      if capacity.Err? { return Err(capacity.error), None; }
      ghost var before := View();
      sequence := RequeueTurnForRecovery(id, true);
      Proofs.EventKeepsQueue(config, before, EResume(id, sequence.value));
      Proofs.EventKeepsAttempts(config, before, EResume(id, sequence.value));
      return Ok(()), sequence;
    }

    // forceInterruptTurns: end the given turns that are still active, and for recovery put them back where
    // they were in the queue.
    method ForceInterruptTurns(ids: seq<TurnId>, requeueForRecovery: bool)
      requires Valid()
      modifies `turns, `attempts
      ensures Valid() && turns == Forced(old(turns), ids, requeueForRecovery)
      ensures attempts == ForcedAttempts(old(View()), ids)
      ensures turns.Keys == old(turns).Keys
      ensures forall id :: id in ids && IsActive(old(turns), id) ==>
        turns[id].status == if requeueForRecovery then Queued else Interrupted
    {
      ghost var before := View();
      ForcedNone(before, requeueForRecovery);
      for n := 0 to |ids|
        invariant Valid() && turns == Forced(before.turns, ids[..n], requeueForRecovery)
        invariant attempts == ForcedAttempts(before, ids[..n])
      {
        ForceInterrupt(ids[n], requeueForRecovery);
        ForcedMore(before, ids, n, requeueForRecovery);
      }
      assert ids[..|ids|] == ids;
    }

    method ForceInterrupt(id: TurnId, requeue: bool)
      requires Valid()
      modifies `turns, `attempts
      ensures Valid() && turns == Forced(old(turns), [id], requeue)
      ensures attempts == ForcedAttempts(old(View()), [id])
    {
      ghost var before := View();
      var changed := EndTurn(id, Interrupted);
      if changed && requeue {
        ghost var _ := RequeueTurnForRecovery(id, false);
        ShutdownKeeps(config, before, View(), id);
      }
      if IsActive(before.turns, id) { Proofs.LiveIsSafe(before, id, None); }
      ForcedOne(before, View(), id, requeue);
    }

    // runQueueDispatcher, with the outcome of each awaited start given.
    method RunQueueDispatcher(replies: seq<Reply>)
      requires Valid()
      modifies `turns, `attempts
      ensures Valid() && Dispatched(config, closed, old(View()), replies, View())
    {
      var n := 0;
      while !closed && |RunningTurns(turns)| < config.maxActive && n < |replies|
        invariant n <= |replies| && Valid() && closed == old(closed)
        invariant forall t :: Dispatched(config, closed, View(), replies[n..], t) ==>
          Dispatched(config, closed, old(View()), replies, t)
        decreases |replies| - n
      {
        var queued := FirstQueued();
        if queued.None? { return; }
        ghost var before := View();
        if replies[n].Deferred? { return; }
        DispatchOne(queued.value, replies[n]);
        assert replies[n..][1..] == replies[n + 1..];
        forall t | Dispatched(config, closed, View(), replies[n + 1..], t)
          ensures Dispatched(config, closed, before, replies[n..], t)
        {
          DispatchedMore(config, before, queued.value, replies[n..], t);
        }
        n := n + 1;
      }
    }

    method DispatchOne(id: TurnId, reply: Reply)
      requires Valid() && id in QueuedTurns(turns) && |RunningTurns(turns)| < config.maxActive && !reply.Deferred?
      modifies `turns, `attempts
      ensures Valid() && View() == Dispatch(old(View()), id, reply)
    {
      if reply.Started? || (reply.Broken? && reply.afterStart) {
        var _ := StartQueuedTurn(id);
      }
      if reply.Broken? {
        var _ := EndTurn(id, Failed);
      }
    }
  }

  // The effect of one start on the turn it was meant for.
  function Dispatch(s: State, id: TurnId, reply: Reply): State
    requires id in s.turns
  {
    match reply
    case Deferred => s
    case NotStarted => s
    case Started => Start(s, id)
    case Broken(afterStart) =>
      var t := if afterStart then Start(s, id) else s;
      Finish(t, id, Failed, None, LiveAttempt(t, id))
  }

  // What a start of the turn at the head of the queue leaves behind: nothing, another attempt, or a failed
  // turn, whose new attempt has failed with it if there is one.
  ghost predicate Served(s: State, t: State, id: TurnId, reply: Reply) {
    match reply
    case Deferred => t == s
    case NotStarted => t == s
    case Started => Outcomes.Begun(s, t, id)
    case Broken(afterStart) =>
      if afterStart
      then exists u ::
        Outcomes.Begun(s, u, id) && Outcomes.Finished(u, t, id, Failed, None, Some(u.turns[id].attemptCount))
      else Outcomes.Finished(s, t, id, Failed, None, None)
  }

  lemma DispatchServes(s: State, id: TurnId, reply: Reply)
    requires id in QueuedTurns(s.turns)
    ensures Served(s, Dispatch(s, id, reply), id, reply)
  {
    if reply.Broken? {
      var u := if reply.afterStart then Start(s, id) else s;
      Outcomes.FinishMoves(u, Dispatch(s, id, reply), id, Failed, None, LiveAttempt(u, id));
      if reply.afterStart { assert Outcomes.Begun(s, u, id); }
    }
  }

  // The dispatcher serves the head of the queue while there is capacity; a deferral stops it.
  ghost predicate Dispatched(c: Config, closed: bool, s: State, replies: seq<Reply>, t: State)
    decreases |replies|
  {
    if closed || |RunningTurns(s.turns)| >= c.maxActive || QueuedTurns(s.turns) == {}
       || replies == [] || replies[0].Deferred?
    then t == s
    else exists id :: IsNext(s.turns, id) && Dispatched(c, closed, Dispatch(s, id, replies[0]), replies[1..], t)
  }

  lemma DispatchedMore(c: Config, s: State, id: TurnId, replies: seq<Reply>, t: State)
    requires |RunningTurns(s.turns)| < c.maxActive && IsNext(s.turns, id) && replies != [] && !replies[0].Deferred?
    requires Dispatched(c, false, Dispatch(s, id, replies[0]), replies[1..], t)
    ensures Dispatched(c, false, s, replies, t)
  {}

  function Forced(turns: map<TurnId, Turn>, ids: seq<TurnId>, requeue: bool): map<TurnId, Turn> {
    map id | id in turns ::
      if id in ids && Active(turns[id].status) then
        turns[id].(status := if requeue then Queued else Interrupted)
      else turns[id]
  }

  // The live attempts of those turns end as interrupted, having counted nothing.
  function ForcedAttempts(s: State, ids: seq<TurnId>): Attempts {
    map k | k in s.attempts ::
      if k.0 in ids && k.0 in s.turns && s.turns[k.0].status.Running? && k.1 == s.turns[k.0].attemptCount
      then Attempt(Interrupted, NO_METRICS)
      else s.attempts[k]
  }

  lemma ForcedNone(s: State, requeue: bool)
    ensures Forced(s.turns, [], requeue) == s.turns && ForcedAttempts(s, []) == s.attempts
  {}

  lemma ForcedMore(s: State, ids: seq<TurnId>, n: nat, requeue: bool)
    requires n < |ids|
    ensures var t := State(Forced(s.turns, ids[..n], requeue), ForcedAttempts(s, ids[..n]));
      && Forced(t.turns, [ids[n]], requeue) == Forced(s.turns, ids[..n + 1], requeue)
      && ForcedAttempts(t, [ids[n]]) == ForcedAttempts(s, ids[..n + 1])
  {
    assert ids[..n + 1] == ids[..n] + [ids[n]];
  }

  lemma ForcedOne(s: State, t: State, id: TurnId, requeue: bool)
    requires IsActive(s.turns, id) && s.turns[id].status.Running? ==> (id, s.turns[id].attemptCount) in s.attempts
    requires !IsActive(s.turns, id) ==> t == s
    requires IsActive(s.turns, id) ==>
      var ended := Finish(s, id, Interrupted, None, LiveAttempt(s, id));
      t == if requeue then Requeue(ended, id, None) else ended
    ensures t.turns == Forced(s.turns, [id], requeue) && t.attempts == ForcedAttempts(s, [id])
  {
    if IsActive(s.turns, id) { Proofs.PlusZero(s.turns[id].counters, NO_METRICS); }
  }

  lemma SameSequences(a: map<TurnId, Turn>, b: map<TurnId, Turn>, n: nat)
    requires a.Keys == b.Keys && (forall id :: id in a ==> a[id].sequence == b[id].sequence) && IsNextSequence(b, n)
    ensures IsNextSequence(a, n)
  {}

  lemma ShutdownKeeps(c: Config, s: State, t: State, id: TurnId)
    requires QueueInv(c, s.turns) && AttemptsInv(s) && IsActive(s.turns, id)
    requires t == Requeue(Finish(s, id, Interrupted, None, LiveAttempt(s, id)), id, None)
    ensures QueueInv(c, t.turns) && AttemptsInv(t)
  {
    assert TurnInv(s, id);
    Proofs.ShutdownKeepsTurn(s, id);
    Proofs.ShutdownIsLocal(s, id);
    Proofs.LocalKeepsAttempts(s, t, id);
    assert t.turns == s.turns[id := t.turns[id]];
    Proofs.MoveActive(c, s.turns, id, t.turns[id]);
  }

  // The attempt finishTurnLocally updates.
  function Effective(s: State, id: TurnId, attempt: Option<nat>): Option<nat>
    requires id in s.turns
  {
    if attempt.Some? then attempt else LiveAttempt(s, id)
  }
}
