/**
 The turn queue of apps/api/src/services/agentService.ts: the agent_turns and agent_turn_attempts
 tables, and the synchronous sections that update them.  An attempt row is identified by its
 UNIQUE (turn_id, attempt_number).
 */
module AgentTurns {
  import opened Wrappers

  type TurnId = nat
  type ChatId = nat

  datatype Metrics = Metrics(rounds: nat, lengthStops: nat, toolCalls: nat, input: nat, output: nat,
                             reasoning: nat, cacheRead: nat, cacheWrite: nat, total: nat)

  const NO_METRICS := Metrics(0, 0, 0, 0, 0, 0, 0, 0, 0)
  const MAX_AUTOMATIC_ATTEMPTS: nat := 3

  function Plus(a: Metrics, b: Metrics): Metrics {
    Metrics(a.rounds + b.rounds, a.lengthStops + b.lengthStops, a.toolCalls + b.toolCalls, a.input + b.input,
            a.output + b.output, a.reasoning + b.reasoning, a.cacheRead + b.cacheRead, a.cacheWrite + b.cacheWrite,
            a.total + b.total)
  }

  // The counter columns one by one.
  datatype Counter = RoundCount | LengthStopCount | ToolCallCount | InputTokens | OutputTokens
                   | ReasoningTokens | CacheReadTokens | CacheWriteTokens | TotalTokens

  function Of(m: Metrics, f: Counter): nat {
    match f
    case RoundCount => m.rounds
    case LengthStopCount => m.lengthStops
    case ToolCallCount => m.toolCalls
    case InputTokens => m.input
    case OutputTokens => m.output
    case ReasoningTokens => m.reasoning
    case CacheReadTokens => m.cacheRead
    case CacheWriteTokens => m.cacheWrite
    case TotalTokens => m.total
  }

  datatype Status = Queued | Pending | Running | Completed | Failed | Interrupted

  predicate Active(st: Status) { st.Queued? || st.Pending? || st.Running? }

  // `recoveries` is a history variable: how often the automatic recovery branch fired.
  datatype Turn = Turn(chat: ChatId, status: Status, sequence: nat, attemptCount: nat, counters: Metrics,
                       recoveries: nat)

  datatype Attempt = Attempt(status: Status, counters: Metrics)

  type Attempts = map<(TurnId, nat), Attempt>

  datatype State = State(turns: map<TurnId, Turn>, attempts: Attempts)

  datatype Config = Config(maxActive: nat, maxQueued: nat)

  const EMPTY := State(map[], map[])

  // ---------- Queries ----------

  function RunningTurns(turns: map<TurnId, Turn>): set<TurnId> {
    set id | id in turns && (turns[id].status.Pending? || turns[id].status.Running?)
  }

  function QueuedTurns(turns: map<TurnId, Turn>): set<TurnId> { set id | id in turns && turns[id].status.Queued? }

  predicate IsActive(turns: map<TurnId, Turn>, id: TurnId) { id in turns && Active(turns[id].status) }

  // The two answers of assertQueueCapacity.
  predicate ChatBusy(turns: map<TurnId, Turn>, chat: ChatId) {
    exists id :: id in turns && IsActive(turns, id) && turns[id].chat == chat
  }

  predicate HasCapacity(c: Config, turns: map<TurnId, Turn>, chat: ChatId) {
    !ChatBusy(turns, chat) && |QueuedTurns(turns)| < c.maxQueued
  }

  // COALESCE(MAX(submission_sequence), 0) + 1
  ghost predicate IsNextSequence(turns: map<TurnId, Turn>, n: nat) {
    && (forall id :: id in turns ==> turns[id].sequence < n)
    && (n == 1 || exists id :: id in turns && turns[id].sequence + 1 == n)
  }

  function Ahead(turns: map<TurnId, Turn>, sequence: int): set<TurnId> {
    set k | k in QueuedTurns(turns) && turns[k].sequence <= sequence
  }

  function QueuePosition(turns: map<TurnId, Turn>, id: TurnId): nat
    requires id in turns
  {
    |Ahead(turns, turns[id].sequence)|
  }

  ghost predicate IsNext(turns: map<TurnId, Turn>, id: TurnId) {
    id in QueuedTurns(turns) && forall k :: k in QueuedTurns(turns) ==> turns[id].sequence <= turns[k].sequence
  }

  // ---------- Updates ----------

  function Send(s: State, id: TurnId, chat: ChatId, sequence: nat): State {
    s.(turns := s.turns[id := Turn(chat, Queued, sequence, 0, NO_METRICS, 0)])
  }

  function Start(s: State, id: TurnId): State
    requires id in s.turns
  {
    var turn := s.turns[id];
    State(s.turns[id := turn.(status := Running, attemptCount := turn.attemptCount + 1)],
          s.attempts[(id, turn.attemptCount + 1) := Attempt(Running, NO_METRICS)])
  }

  // The attempt finishTurnLocally updates when its caller names none: the newest running one.
  ghost predicate NewestRunning(s: State, id: TurnId, n: nat) {
    && (id, n) in s.attempts && s.attempts[(id, n)].status.Running?
    && forall m: nat :: (id, m) in s.attempts && s.attempts[(id, m)].status.Running? ==> m <= n
  }

  // finishTurnLocally: the turn accumulates the metrics, the attempt row is overwritten with them.
  function Finish(s: State, id: TurnId, status: Status, metrics: Option<Metrics>, attempt: Option<nat>): State
    requires id in s.turns
  {
    var turn := s.turns[id];
    var counted := if metrics.Some? then metrics.value else NO_METRICS;
    var turns := s.turns[id := turn.(status := status, counters := Plus(turn.counters, counted))];
    if attempt.Some? && (id, attempt.value) in s.attempts then
      State(turns, s.attempts[(id, attempt.value) := Attempt(status, counted)])
    else s.(turns := turns)
  }

  // requeueTurnForRecovery; `sequence` is the new place at the end of the queue, if it moves.
  function Requeue(s: State, id: TurnId, sequence: Option<nat>): State
    requires id in s.turns
  {
    var turn := s.turns[id];
    s.(turns := s.turns[id := turn.(status := Queued,
                                    sequence := if sequence.Some? then sequence.value else turn.sequence)])
  }

  datatype TerminalEvent = TerminalEvent(status: Status, providerFailure: bool, resumable: bool, retryable: bool,
                                         metrics: Metrics)

  predicate RecoversAutomatically(turn: Turn, e: TerminalEvent) {
    e.status.Failed? && e.providerFailure && e.resumable && e.retryable && turn.attemptCount < MAX_AUTOMATIC_ATTEMPTS
  }

  predicate RecoversAfterShutdown(closed: bool, e: TerminalEvent) { closed && e.status.Interrupted? && e.resumable }

  function Terminal(s: State, id: TurnId, attempt: nat, e: TerminalEvent, closed: bool, sequence: nat): State
    requires id in s.turns
  {
    var turn := s.turns[id];
    if !Active(turn.status) then s
    else
      var ended := Finish(s, id, e.status, Some(e.metrics), Some(attempt));
      if RecoversAfterShutdown(closed, e) then Requeue(ended, id, None)
      else if RecoversAutomatically(turn, e) then
        var queued := Requeue(ended, id, Some(sequence));
        queued.(turns := queued.turns[id := queued.turns[id].(recoveries := turn.recoveries + 1)])
      else ended
  }

  // recoverInterruptedTurns
  function Recover(s: State): State {
    State(map id | id in s.turns ::
            if id in RunningTurns(s.turns) then s.turns[id].(status := Queued) else s.turns[id],
          map k | k in s.attempts ::
            if s.attempts[k].status.Running? then s.attempts[k].(status := Interrupted) else s.attempts[k])
  }

  // Deleting a chat cascades to its turns and their attempts.
  function DeleteChat(s: State, chat: ChatId): State {
    State(map id | id in s.turns && s.turns[id].chat != chat :: s.turns[id],
          map k | k in s.attempts && !(k.0 in s.turns && s.turns[k.0].chat == chat) :: s.attempts[k])
  }

  // ---------- Runs ----------

  datatype Event =
    | ESend(id: TurnId, chat: ChatId, sequence: nat)
    | EStart(id: TurnId)
    | ETerminal(id: TurnId, event: TerminalEvent, closed: bool, sequence: nat)
    | EEnd(id: TurnId, status: Status)                 // interruption, or a failed dispatch
    | EShutdown(id: TurnId)                            // forceInterruptTurns with requeueing
    | EResume(id: TurnId, sequence: nat)
    | ERecover
    | EDeleteChat(chat: ChatId)

  predicate Terminated(st: Status) { st.Completed? || st.Failed? || st.Interrupted? }

  ghost predicate Enabled(c: Config, s: State, e: Event) {
    match e
    case ESend(id, chat, n) => id !in s.turns && HasCapacity(c, s.turns, chat) && IsNextSequence(s.turns, n)
    case EStart(id) => id in QueuedTurns(s.turns) && |RunningTurns(s.turns)| < c.maxActive
    // one terminal event per started run, delivered to the live attempt
    case ETerminal(id, event, _, n) =>
      id in s.turns && s.turns[id].status.Running? && Terminated(event.status) && IsNextSequence(s.turns, n)
    case EEnd(id, status) => IsActive(s.turns, id) && (status.Failed? || status.Interrupted?)
    case EShutdown(id) => id in RunningTurns(s.turns)
    case EResume(id, n) =>
      && id in s.turns && Terminated(s.turns[id].status)
      && HasCapacity(c, s.turns, s.turns[id].chat) && IsNextSequence(s.turns, n)
    case ERecover => true
    case EDeleteChat(chat) => !ChatBusy(s.turns, chat)
  }

  function LiveAttempt(s: State, id: TurnId): Option<nat>
    requires id in s.turns
  {
    if s.turns[id].status.Running? then Some(s.turns[id].attemptCount) else None
  }

  ghost function Apply(c: Config, s: State, e: Event): State
    requires Enabled(c, s, e)
  {
    match e
    case ESend(id, chat, n) => Send(s, id, chat, n)
    case EStart(id) => Start(s, id)
    case ETerminal(id, event, closed, n) => Terminal(s, id, s.turns[id].attemptCount, event, closed, n)
    case EEnd(id, status) => Finish(s, id, status, None, LiveAttempt(s, id))
    case EShutdown(id) => Requeue(Finish(s, id, Interrupted, None, LiveAttempt(s, id)), id, None)
    case EResume(id, n) => Requeue(s, id, Some(n))
    case ERecover => Recover(s)
    case EDeleteChat(chat) => DeleteChat(s, chat)
  }

  ghost predicate Possible(c: Config, s: State, es: seq<Event>)
    decreases |es|
  {
    es == [] || (Enabled(c, s, es[0]) && Possible(c, Apply(c, s, es[0]), es[1..]))
  }

  ghost function Run(c: Config, s: State, es: seq<Event>): State
    requires Possible(c, s, es)
    decreases |es|
  {
    if es == [] then s else Run(c, Apply(c, s, es[0]), es[1..])
  }

  // ---------- Invariants ----------

  ghost predicate QueueInv(c: Config, turns: map<TurnId, Turn>) {
    && (forall id :: id in turns ==> !turns[id].status.Pending?)
    && |RunningTurns(turns)| <= c.maxActive
    && |QueuedTurns(turns)| + |RunningTurns(turns)| <= c.maxQueued + c.maxActive
    && OnePerChat(turns)
    && DistinctSequences(turns)
  }

  ghost predicate OnePerChat(turns: map<TurnId, Turn>) {
    forall a, b :: IsActive(turns, a) && IsActive(turns, b) && turns[a].chat == turns[b].chat ==> a == b
  }

  ghost predicate DistinctSequences(turns: map<TurnId, Turn>) {
    forall a, b :: a in turns && b in turns && turns[a].sequence == turns[b].sequence ==> a == b
  }

  // The sum of the counters of attempts 1..n.
  ghost function Sum(attempts: Attempts, id: TurnId, n: nat): Metrics {
    if n == 0 then NO_METRICS
    else Plus(Sum(attempts, id, n - 1), if (id, n) in attempts then attempts[(id, n)].counters else NO_METRICS)
  }

  // The same for a single counter, in plain numbers.
  ghost function SumOf(attempts: Attempts, id: TurnId, n: nat, f: Counter): nat {
    if n == 0 then 0
    else SumOf(attempts, id, n - 1, f) + if (id, n) in attempts then Of(attempts[(id, n)].counters, f) else 0
  }

  ghost predicate AttemptRow(turn: Turn, attempt: Attempt, n: nat) {
    && (attempt.status.Running? <==> turn.status.Running? && n == turn.attemptCount)
    && (attempt.status.Running? ==> attempt.counters == NO_METRICS)
    && !attempt.status.Queued? && !attempt.status.Pending?
  }

  ghost predicate Numbered(attempts: Attempts, id: TurnId, count: nat) {
    forall n: nat :: (id, n) in attempts <==> 1 <= n <= count
  }

  ghost predicate RowsAgree(attempts: Attempts, id: TurnId, turn: Turn) {
    forall n: nat :: (id, n) in attempts ==> AttemptRow(turn, attempts[(id, n)], n)
  }

  ghost predicate Bounded(turn: Turn) {
    && turn.recoveries < MAX_AUTOMATIC_ATTEMPTS
    && turn.recoveries + (if turn.status.Running? then 1 else 0) <= turn.attemptCount
  }

  ghost predicate TurnInv(s: State, id: TurnId)
    requires id in s.turns
  {
    var turn := s.turns[id];
    && Numbered(s.attempts, id, turn.attemptCount)
    && RowsAgree(s.attempts, id, turn)
    && turn.counters == Sum(s.attempts, id, turn.attemptCount)
    && Bounded(turn)
  }

  ghost predicate AttemptsInv(s: State) {
    && (forall id :: id in s.turns ==> TurnInv(s, id))
    && (forall k :: k in s.attempts ==> k.0 in s.turns)
  }
}
