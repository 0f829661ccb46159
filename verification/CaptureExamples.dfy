/** A run of module AgentRaces in which interruptTurn goes on late and ends its turn with a stale attempt. */
module CaptureExamples {
  import opened Wrappers
  import opened AgentTurns
  import opened AgentExamples
  import Races = AgentRaces
  import Proofs = AgentProofs

  const FAILURE := TerminalEvent(Failed, true, true, true, NO_METRICS)

  function Rows(statuses: seq<Status>): Attempts
    requires |statuses| <= 3
  {
    if |statuses| == 0 then map[]
    else if |statuses| == 1 then map[(0, 1) := Attempt(statuses[0], NO_METRICS)]
    else if |statuses| == 2
    then map[(0, 1) := Attempt(statuses[0], NO_METRICS), (0, 2) := Attempt(statuses[1], NO_METRICS)]
    else map[(0, 1) := Attempt(statuses[0], NO_METRICS), (0, 2) := Attempt(statuses[1], NO_METRICS),
             (0, 3) := Attempt(statuses[2], NO_METRICS)]
  }

  // One turn with attempts of these statuses, which runs exactly when it is running.
  function At(counters: Metrics, status: Status, sequence: nat, recoveries: nat, statuses: seq<Status>,
              call: Option<Races.Interrupt>): Races.Race
    requires |statuses| <= 3
  {
    var open := if status.Running? then map[0 := |statuses|] else map[];
    Races.Race(State(map[0 := Turn(0, status, sequence, |statuses|, counters, recoveries)], Rows(statuses)), open, open,
               if call.Some? then map[0 := call.value] else map[], None)
  }

  const WAITS: Option<Races.Interrupt> := Some(Races.Waiting(0, Some(1)))
  const HOLDS: Option<Races.Interrupt> := Some(Races.Closing(0, Some(2)))

  // The newest attempt of the queued turn starts.
  lemma StartsNext(counters: Metrics, n: nat, statuses: seq<Status>, call: Option<Races.Interrupt>)
    requires |statuses| <= 2 && n > 0
    ensures Leads(At(counters, Queued, n, |statuses|, statuses, call), Races.SStart(0, false),
                  At(counters, Running, n, |statuses|, statuses + [Running], call))
  {
    var s := At(counters, Queued, n, |statuses|, statuses, call);
    assert RunningTurns(s.tables.turns) == {};
    assert Rows(statuses + [Running]) == Rows(statuses)[(0, |statuses| + 1) := Attempt(Running, NO_METRICS)];
  }

  // The provider fails, and the turn is queued again at the end.
  lemma FailsAgain(counters: Metrics, n: nat, earlier: seq<Status>, call: Option<Races.Interrupt>)
    requires |earlier| <= 1 && n > 0
    ensures Leads(At(counters, Running, n, |earlier|, earlier + [Running], call),
                  Races.STerminal(0, FAILURE, false, n + 1),
                  At(counters, Queued, n + 1, |earlier| + 1, earlier + [Failed], call))
  {
    var s := At(counters, Running, n, |earlier|, earlier + [Running], call);
    var t := At(counters, Queued, n + 1, |earlier| + 1, earlier + [Failed], call);
    assert s.tables.turns[0].sequence == n;
    Proofs.PlusZero(counters, NO_METRICS);
    assert Rows(earlier + [Failed]) == Rows(earlier + [Running])[(0, |earlier| + 1) := Attempt(Failed, NO_METRICS)];
    assert Terminal(s.tables, 0, |earlier| + 1, FAILURE, false, n + 1) == t.tables;
    assert s.open - {0} == map[] && s.runs - {0} == map[];
  }

  lemma SendsOne(counters: Metrics)
    requires counters == NO_METRICS
    ensures Leads(Races.CALM, Races.SSend(0, 0, 1), At(counters, Queued, 1, 0, [], None))
  {
    assert QueuedTurns(EMPTY.turns) == {};
  }

  // interruptTurn waits for the first run.
  lemma CallsRunning(counters: Metrics)
    ensures Leads(At(counters, Running, 1, 0, [Running], None), Races.SInterrupt(0, 0),
                  At(counters, Running, 1, 0, [Running], WAITS))
  {}

  // It goes on after the second one has started.
  lemma GoesOnLate(counters: Metrics)
    ensures Leads(At(counters, Running, 2, 1, [Failed, Running], WAITS), Races.SCapture(0),
                  At(counters, Running, 2, 1, [Failed, Running], HOLDS))
  {}

  // And ends the turn with that one when the third one runs.
  function Ended(counters: Metrics): Races.Race {
    var s := At(counters, Interrupted, 3, 2, [Failed, Interrupted, Running], None);
    s.(open := map[0 := 3])
  }

  lemma EndsStale(counters: Metrics)
    ensures Leads(At(counters, Running, 3, 2, [Failed, Failed, Running], HOLDS), Races.SInterrupted(0), Ended(counters))
  {
    var s := At(counters, Running, 3, 2, [Failed, Failed, Running], HOLDS);
    Proofs.PlusZero(counters, NO_METRICS);
    assert Rows([Failed, Interrupted, Running]) ==
      Rows([Failed, Failed, Running])[(0, 2) := Attempt(Interrupted, NO_METRICS)];
    assert Races.FinishLocally(s.tables, 0, Interrupted, Some(2)) == Ended(counters).tables;
    assert s.runs - {0} == map[] && s.interrupts - {0} == map[];
  }

  // The second half: from the failure of the first run on.
  lemma SecondHalf(counters: Metrics) returns (es: seq<Races.Step>)
    ensures Races.Possible(ONE, At(counters, Queued, 2, 1, [Failed], WAITS), es)
    ensures Races.Run(ONE, At(counters, Queued, 2, 1, [Failed], WAITS), es) == Ended(counters)
  {
    es := [];
    EndsStale(counters);
    es := Prepend(At(counters, Running, 3, 2, [Failed, Failed, Running], HOLDS), Races.SInterrupted(0),
                  Ended(counters), es);
    StartsNext(counters, 3, [Failed, Failed], HOLDS);
    es := Prepend(At(counters, Queued, 3, 2, [Failed, Failed], HOLDS), Races.SStart(0, false),
                  At(counters, Running, 3, 2, [Failed, Failed] + [Running], HOLDS), es);
    FailsAgain(counters, 2, [Failed], HOLDS);
    es := Prepend(At(counters, Running, 2, 1, [Failed] + [Running], HOLDS), Races.STerminal(0, FAILURE, false, 3),
                  At(counters, Queued, 3, 2, [Failed] + [Failed], HOLDS), es);
    GoesOnLate(counters);
    es := Prepend(At(counters, Running, 2, 1, [Failed, Running], WAITS), Races.SCapture(0),
                  At(counters, Running, 2, 1, [Failed, Running], HOLDS), es);
    StartsNext(counters, 2, [Failed], WAITS);
    es := Prepend(At(counters, Queued, 2, 1, [Failed], WAITS), Races.SStart(0, false),
                  At(counters, Running, 2, 1, [Failed] + [Running], WAITS), es);
  }

  lemma Prepend(s: Races.Race, e: Races.Step, t: Races.Race, es: seq<Races.Step>) returns (all: seq<Races.Step>)
    requires Leads(s, e, t) && Races.Possible(ONE, t, es)
    ensures Races.Possible(ONE, s, all) && Races.Run(ONE, s, all) == Races.Run(ONE, t, es)
  {
    Before(s, e, t, es);
    all := [e] + es;
  }

  lemma FirstHalf(counters: Metrics, tail: seq<Races.Step>) returns (es: seq<Races.Step>)
    requires counters == NO_METRICS && Races.Possible(ONE, At(counters, Queued, 2, 1, [Failed], WAITS), tail)
    ensures Races.Possible(ONE, Races.CALM, es)
    ensures Races.Run(ONE, Races.CALM, es) == Races.Run(ONE, At(counters, Queued, 2, 1, [Failed], WAITS), tail)
  {
    FailsAgain(counters, 1, [], WAITS);
    es := Prepend(At(counters, Running, 1, 0, [] + [Running], WAITS), Races.STerminal(0, FAILURE, false, 2),
                  At(counters, Queued, 2, 1, [] + [Failed], WAITS), tail);
    CallsRunning(counters);
    es := Prepend(At(counters, Running, 1, 0, [Running], None), Races.SInterrupt(0, 0),
                  At(counters, Running, 1, 0, [Running], WAITS), es);
    StartsNext(counters, 1, [], None);
    es := Prepend(At(counters, Queued, 1, 0, [], None), Races.SStart(0, false),
                  At(counters, Running, 1, 0, [] + [Running], None), es);
    SendsOne(counters);
    es := Prepend(Races.CALM, Races.SSend(0, 0, 1), At(counters, Queued, 1, 0, [], None), es);
  }

  /** interruptTurn waits for the first run of a turn; the run fails and the second one starts before the call
      goes on, so it holds the second attempt; that fails too, and the call ends the turn while the third one
      runs, with the second attempt: the third is left running. */
  lemma StaleCaptureBreaks() returns (es: seq<Races.Step>)
    ensures Races.Possible(ONE, Races.CALM, es)
    ensures var s := Races.Run(ONE, Races.CALM, es).tables;
      && 0 in s.turns && s.turns[0].status.Interrupted?
      && (0, 3) in s.attempts && s.attempts[(0, 3)].status.Running? && !AttemptsInv(s)
  {
    var tail := SecondHalf(NO_METRICS);
    es := FirstHalf(NO_METRICS, tail);
    LeavesThird(NO_METRICS);
  }

  lemma LeavesThird(counters: Metrics)
    ensures !AttemptsInv(Ended(counters).tables)
  {
    var s := Ended(counters).tables;
    assert (0, 3) in s.attempts && !AttemptRow(s.turns[0], s.attempts[(0, 3)], 3);
    assert !TurnInv(s, 0);
  }
}
