/** The budgets of a run told by the events that happened in it, apart from the counters that are kept. */
module BudgetHistories {
  import opened Wrappers
  import opened RunBudgets

  // ---------- Limits ----------

  // A caller's positive value counts up to the configured one, which stands for any other value.
  ghost predicate Grants(asked: Option<int>, configured: int, limit: int) {
    limit == if asked.Some? && 0 < asked.value <= configured then asked.value else configured
  }

  // The reserve is the positive value asked for or else the configured one, but leaves at least 1 for research.
  ghost predicate Reserves(asked: Option<int>, configured: int, maximum: int, research: int) {
    var reserve := if asked.Some? && asked.value > 0 then asked.value else configured;
    research == if maximum - reserve >= 1 then maximum - reserve else 1
  }

  /** Every limit of a run in terms of what the caller asks for and what is configured. */
  lemma LimitsExactly(settings: Settings, input: InputLimits)
    requires settings.Positive()
    ensures var l := Resolve(settings, input);
      && Grants(input.runMs, settings.runMs, l.maxRunMs)
      && Grants(input.toolCalls, settings.toolCalls, l.maxToolCalls)
      && Grants(input.providerRounds, settings.providerRounds, l.maxProviderRounds)
      && Grants(input.noProgressRounds, settings.noProgressRounds, l.maxNoProgressRounds)
      && Grants(input.repeatedToolCalls, settings.repeatedToolCalls, l.maxRepeatedToolCalls)
      && Grants(input.consecutiveErrors, settings.consecutiveErrors, l.maxConsecutiveErrors)
      && Reserves(input.reserveMs, settings.reserveMs, l.maxRunMs, l.researchRunMs)
      && Reserves(input.reserveToolCalls, settings.reserveToolCalls, l.maxToolCalls, l.researchToolCalls)
      && Reserves(input.reserveProviderRounds, settings.reserveProviderRounds, l.maxProviderRounds,
                  l.researchProviderRounds)
  {}

  // A positive option stands, any other value gives way to the default.
  ghost predicate Sets(option: Option<int>, default: int, setting: int) {
    setting == if option.Some? && option.value > 0 then option.value else default
  }

  /** The defaults: half an hour, 200 calls and 50 rounds, with reserves of 3 minutes, 20 calls and 5 rounds, and
      limits of 4 rounds without progress, 3 equal calls and 3 errors in a row. */
  lemma DefaultsExactly(options: InputLimits)
    ensures var s := Configure(options);
      && Sets(options.runMs, 1_800_000, s.runMs) && Sets(options.reserveMs, 180_000, s.reserveMs)
      && Sets(options.toolCalls, 200, s.toolCalls) && Sets(options.reserveToolCalls, 20, s.reserveToolCalls)
      && Sets(options.providerRounds, 50, s.providerRounds)
      && Sets(options.reserveProviderRounds, 5, s.reserveProviderRounds)
      && Sets(options.noProgressRounds, 4, s.noProgressRounds)
      && Sets(options.repeatedToolCalls, 3, s.repeatedToolCalls)
      && Sets(options.consecutiveErrors, 3, s.consecutiveErrors)
  {}

  // ---------- Counts over a run ----------

  function Front(es: seq<Event>): seq<Event>
    requires es != []
  {
    es[..|es| - 1]
  }

  function Last(es: seq<Event>): Event
    requires es != []
  {
    es[|es| - 1]
  }

  function Requests(es: seq<Event>): nat {
    if es == [] then 0 else Requests(Front(es)) + if Last(es).ERequest? then 1 else 0
  }

  function RequestsOf(es: seq<Event>, signature: Signature): nat {
    if es == [] then 0 else RequestsOf(Front(es), signature) + if Last(es) == ERequest(signature) then 1 else 0
  }

  // Failed results since the last success.
  function FailuresInARow(es: seq<Event>): nat {
    if es == [] then 0
    else match Last(es)
      case EResult(None) => FailuresInARow(Front(es)) + 1
      case EResult(Some(_)) => 0
      case _ => FailuresInARow(Front(es))
  }

  // The distinct successful results.
  function Results(es: seq<Event>): set<Fingerprint> {
    if es == [] then {}
    else Results(Front(es)) + match Last(es) case EResult(Some(f)) => {f} case _ => {}
  }

  function Turns(es: seq<Event>): nat { if es == [] then 0 else Turns(Front(es)) + if Last(es).ETurn? then 1 else 0 }

  // The distinct results there were at the last tool round; none before the first.
  function ResultsAtRound(es: seq<Event>): set<Fingerprint> {
    if es == [] then {} else if Last(es) == ETurn(true) then Results(Front(es)) else ResultsAtRound(Front(es))
  }

  // The last event is a tool round that brings nothing new; the first turn of a run never counts as one.
  predicate IsStuck(es: seq<Event>)
    requires es != []
  {
    Last(es) == ETurn(true) && Turns(es) > 1 && |Results(es)| == |ResultsAtRound(Front(es))|
  }

  // Tool rounds in a row that brought nothing new.
  function StuckRounds(es: seq<Event>): nat {
    if es == [] then 0
    else if Last(es) != ETurn(true) then StuckRounds(Front(es))
    else if IsStuck(es) then StuckRounds(Front(es)) + 1
    else 0
  }

  // Why the last event asks for finalization, if it does: repetition before the tool budget, lack of
  // progress before the round budget.
  function Cause(l: Limits, es: seq<Event>): Option<Reason>
    requires es != []
  {
    match Last(es)
    case ERequest(signature) =>
      if RequestsOf(es, signature) >= l.maxRepeatedToolCalls then Some(NoProgress)
      else if Requests(es) >= l.researchToolCalls then Some(Budget)
      else None
    case EResult(result) =>
      if result.None? && FailuresInARow(es) >= l.maxConsecutiveErrors then Some(NoProgress) else None
    case ETurn(toolUse) =>
      if !toolUse then None
      else if StuckRounds(es) >= l.maxNoProgressRounds then Some(NoProgress)
      else if Turns(es) >= l.researchProviderRounds then Some(Budget)
      else None
    case EQuery(elapsed) => if elapsed >= l.researchRunMs then Some(Budget) else None
    case EDeadline => None
  }

  // The first cause of the run.
  function FirstCause(l: Limits, es: seq<Event>): Option<Reason> {
    if es == [] then None
    else
      var earlier := FirstCause(l, Front(es));
      if earlier.Some? then earlier else Cause(l, es)
  }

  // The deadline passes, or a tool round comes at or after the last permitted provider round.
  predicate Stops(l: Limits, es: seq<Event>) {
    es != [] && (Stops(l, Front(es)) || Last(es).EDeadline?
                 || (Last(es) == ETurn(true) && Turns(es) >= l.maxProviderRounds))
  }

  // ---------- The counters tell the history ----------

  lemma {:induction false} RunSnoc(l: Limits, s: State, es: seq<Event>)
    requires es != []
    ensures Run(l, s, es) == Apply(l, Run(l, s, Front(es)), Last(es))
    decreases |es|
  {
    if |es| == 1 {
      assert Front(es) == [] && es[1..] == [];
    } else {
      assert Front(es)[0] == es[0] && Front(es)[1..] == Front(es[1..]) && Last(es[1..]) == Last(es);
      RunSnoc(l, Apply(l, s, es[0]), es[1..]);
    }
  }

  ghost predicate Tells(s: State, es: seq<Event>) {
    && s.toolCalls == Requests(es) && (forall g :: s.past.calls[g] == RequestsOf(es, g))
    && s.consecutiveErrors == FailuresInARow(es) && s.results == Results(es) && s.turns == Turns(es)
    && s.noProgress == StuckRounds(es) && s.observed == |ResultsAtRound(es)|
  }

  lemma RequestGrows(l: Limits, s: State, es: seq<Event>, t: State)
    requires es != [] && Last(es).ERequest? && Tells(s, Front(es)) && t == RequestTool(l, s, Last(es).signature)
    ensures Tells(t, es)
  {
    forall g ensures t.past.calls[g] == RequestsOf(es, g) { assert s.past.calls[g] == RequestsOf(Front(es), g); }
  }

  lemma ResultGrows(l: Limits, s: State, es: seq<Event>, t: State)
    requires es != [] && Last(es).EResult? && Tells(s, Front(es)) && t == ToolResult(l, s, Last(es).result)
    ensures Tells(t, es)
  {}

  lemma TurnGrows(l: Limits, s: State, es: seq<Event>, t: State)
    requires es != [] && Last(es).ETurn? && Tells(s, Front(es)) && t == ProviderTurn(l, s, Last(es).toolUse)
    ensures Tells(t, es)
  {}

  lemma Grow(l: Limits, s: State, es: seq<Event>, t: State)
    requires es != [] && Tells(s, Front(es)) && t == Apply(l, s, Last(es))
    ensures Tells(t, es)
  {
    match Last(es)
    case ERequest(_) => RequestGrows(l, s, es, t);
    case EResult(_) => ResultGrows(l, s, es, t);
    case ETurn(_) => TurnGrows(l, s, es, t);
    case _ =>
  }

  lemma CauseIsNoted(l: Limits, s: State, es: seq<Event>)
    requires l.Ok() && es != [] && Tells(s, Front(es)) && Tells(Apply(l, s, Last(es)), es)
    ensures Apply(l, s, Last(es)).reason == if s.reason.Some? then s.reason else Cause(l, es)
  {
    var t := Apply(l, s, Last(es));
    match Last(es)
    case ERequest(signature) => assert t.past.calls[signature] == s.past.calls[signature] + 1;
    case _ =>
  }

  /** In every run finalization is requested exactly when, and for the reason for which, the first of these
      causes arises: enough equal calls, the tool budget, enough failures in a row, enough rounds without a
      new result, the round budget or the time budget.  The run is stopped exactly by its deadline or the
      last permitted round. */
  lemma {:induction false} ReasonExactly(l: Limits, es: seq<Event>)
    requires l.Ok()
    ensures Tells(Run(l, START, es), es)
    ensures Run(l, START, es).reason == FirstCause(l, es)
    ensures Run(l, START, es).aborted <==> Stops(l, es)
    decreases |es|
  {
    if es == [] {
      assert START.past.calls == multiset{};
    } else {
      var s := Run(l, START, Front(es));
      ReasonExactly(l, Front(es));
      RunSnoc(l, START, es);
      Grow(l, s, es, Apply(l, s, Last(es)));
      CauseIsNoted(l, s, es);
    }
  }
}
