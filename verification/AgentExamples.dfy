/** A run of module AgentRaces in which a turn outruns its open run. */
module AgentExamples {
  import opened Wrappers
  import opened AgentTurns
  import Races = AgentRaces
  import Proofs = AgentProofs

  const ONE := Config(1, 1)
  const CALLED := Races.Closing(0, None)

  const ANSWER := TerminalEvent(Completed, false, false, false, NO_METRICS)

  // One turn with the given counters; its first attempt has status `first` and its second one runs.
  function Tables(counters: Metrics, status: Status, sequence: nat, count: nat, first: Status): State {
    State(map[0 := Turn(0, status, sequence, count, counters, 0)],
          if count == 0 then map[]
          else if count == 1 then map[(0, 1) := Attempt(first, NO_METRICS)]
          else map[(0, 1) := Attempt(first, NO_METRICS), (0, 2) := Attempt(Running, NO_METRICS)])
  }

  function Memory(tables: State, runs: map<TurnId, nat>, open: map<TurnId, nat>, called: bool,
                  failing: bool): Races.Race {
    Races.Race(tables, runs, open, if called then map[0 := CALLED] else map[], if failing then Some(0) else None)
  }

  function Sent(counters: Metrics): Races.Race {
    Memory(Tables(counters, Queued, 1, 0, Queued), map[], map[], false, false)
  }

  function Called(counters: Metrics): Races.Race {
    Memory(Tables(counters, Queued, 1, 0, Queued), map[], map[], true, false)
  }

  function Started(counters: Metrics): Races.Race {
    Memory(Tables(counters, Running, 1, 1, Running), map[0 := 1], map[0 := 1], true, false)
  }

  function Escaped(counters: Metrics): Races.Race {
    Memory(Tables(counters, Interrupted, 1, 1, Interrupted), map[], map[0 := 1], false, false)
  }

  function Resumed(counters: Metrics): Races.Race {
    Memory(Tables(counters, Queued, 2, 1, Interrupted), map[], map[0 := 1], false, false)
  }

  function Refused(counters: Metrics): Races.Race {
    Memory(Tables(counters, Running, 2, 2, Interrupted), map[], map[0 := 1], false, true)
  }

  function Broken(counters: Metrics): Races.Race {
    Memory(Tables(counters, Completed, 2, 2, Completed), map[], map[], false, true)
  }

  // One step from one state to the next.
  ghost predicate Leads(s: Races.Race, e: Races.Step, t: Races.Race) {
    Races.Enabled(ONE, s, e) && Races.Apply(ONE, s, e) == t
  }

  lemma Sends()
    ensures Leads(Races.CALM, Races.SSend(0, 0, 1), Sent(NO_METRICS))
  {
    assert QueuedTurns(EMPTY.turns) == {};
  }

  lemma Calls(counters: Metrics)
    ensures Leads(Sent(counters), Races.SInterrupt(0, 0), Called(counters))
  {}

  lemma Starts(counters: Metrics)
    ensures Leads(Called(counters), Races.SStart(0, false), Started(counters))
  {
    assert RunningTurns(Called(counters).tables.turns) == {};
  }

  lemma Interrupts(counters: Metrics)
    ensures Leads(Started(counters), Races.SInterrupted(0), Escaped(counters))
  {
    var s, t := Started(counters).tables, Escaped(counters).tables;
    assert NewestRunning(s, 0, 1);
    assert Races.Newest(s, 0) == Some(1);
    Proofs.PlusZero(counters, NO_METRICS);
    assert Races.FinishLocally(s, 0, Interrupted, None) == t;
    assert Started(counters).runs - {0} == map[] && Started(counters).interrupts - {0} == map[];
  }

  lemma Resumes(counters: Metrics)
    ensures Leads(Escaped(counters), Races.SResume(0, 2), Resumed(counters))
  {
    assert QueuedTurns(Escaped(counters).tables.turns) == {};
    assert Escaped(counters).tables.turns[0].sequence == 1;
  }

  lemma IsRefused(counters: Metrics)
    ensures Leads(Resumed(counters), Races.SStart(0, true), Refused(counters))
  {
    assert RunningTurns(Resumed(counters).tables.turns) == {};
  }

  lemma Answers(counters: Metrics)
    ensures Leads(Refused(counters), Races.STerminal(0, ANSWER, false, 3), Broken(counters))
  {
    var s := Refused(counters);
    assert s.tables.turns[0].sequence == 2;
    Proofs.PlusZero(counters, NO_METRICS);
    assert Terminal(s.tables, 0, 1, ANSWER, false, 3) == Broken(counters).tables;
    assert s.open - {0} == map[] && s.runs - {0} == map[];
  }

  lemma Before(s: Races.Race, e: Races.Step, t: Races.Race, es: seq<Races.Step>)
    requires Leads(s, e, t) && Races.Possible(ONE, t, es)
    ensures Races.Possible(ONE, s, [e] + es) && Races.Run(ONE, s, [e] + es) == Races.Run(ONE, t, es)
  {
    assert ([e] + es)[1..] == es;
  }

  // A queued turn is interrupted while it starts: its run stays open in the runtime.
  lemma Escapes(counters: Metrics, es: seq<Races.Step>) returns (all: seq<Races.Step>)
    requires Races.Possible(ONE, Escaped(counters), es)
    ensures Races.Possible(ONE, Sent(counters), all)
    ensures Races.Run(ONE, Sent(counters), all) == Races.Run(ONE, Escaped(counters), es)
  {
    Interrupts(counters);
    Before(Started(counters), Races.SInterrupted(0), Escaped(counters), es);
    all := [Races.SInterrupted(0)] + es;
    Starts(counters);
    Before(Called(counters), Races.SStart(0, false), Started(counters), all);
    all := [Races.SStart(0, false)] + all;
    Calls(counters);
    Before(Sent(counters), Races.SInterrupt(0, 0), Called(counters), all);
    all := [Races.SInterrupt(0, 0)] + all;
  }

  // The turn is resumed, its second start is refused, and the escaped run answers before the catch.
  lemma Overtakes(counters: Metrics) returns (es: seq<Races.Step>)
    ensures Races.Possible(ONE, Escaped(counters), es) && Races.Run(ONE, Escaped(counters), es) == Broken(counters)
  {
    es := [];
    Answers(counters);
    Before(Refused(counters), Races.STerminal(0, ANSWER, false, 3), Broken(counters), es);
    es := [Races.STerminal(0, ANSWER, false, 3)] + es;
    IsRefused(counters);
    Before(Resumed(counters), Races.SStart(0, true), Refused(counters), es);
    es := [Races.SStart(0, true)] + es;
    Resumes(counters);
    Before(Escaped(counters), Races.SResume(0, 2), Resumed(counters), es);
    es := [Races.SResume(0, 2)] + es;
  }

  /** A queued turn is interrupted while it starts, its run escapes and the turn is resumed: the
      escaped run's answer, between the refused second start and its catch, completes the turn and
      leaves the second attempt running. */
  lemma EscapedRunBreaks() returns (es: seq<Races.Step>)
    ensures Races.Possible(ONE, Races.CALM, es)
    ensures var s := Races.Run(ONE, Races.CALM, es).tables;
      && 0 in s.turns && s.turns[0].status.Completed?
      && (0, 2) in s.attempts && s.attempts[(0, 2)].status.Running? && !AttemptsInv(s)
  {
    var tail := Overtakes(NO_METRICS);
    es := Escapes(NO_METRICS, tail);
    Sends();
    Before(Races.CALM, Races.SSend(0, 0, 1), Sent(NO_METRICS), es);
    es := [Races.SSend(0, 0, 1)] + es;
    Disagrees(NO_METRICS);
  }

  lemma Disagrees(counters: Metrics)
    ensures !AttemptsInv(Broken(counters).tables)
  {
    var s := Broken(counters).tables;
    assert (0, 2) in s.attempts && !AttemptRow(s.turns[0], s.attempts[(0, 2)], 2);
    assert !TurnInv(s, 0);
  }
}
