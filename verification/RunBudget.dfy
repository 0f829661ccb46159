/**
 The budgets inside one AgentRuntime.execute call of packages/agent-runtime/src/agentRuntime.ts.
 Tool requests run in parallel, so a request and the return of its result are separate events and
 interleave freely with provider turns, finalization queries and the deadline timer.
 */
module RunBudgets {
  import opened Wrappers

  // ---------- Limits ----------

  // None stands for undefined and for every value that is not an integer.
  function PositiveInteger(value: Option<int>, fallback: int): int {
    if value.Some? && value.value > 0 then value.value else fallback
  }

  function Min(a: int, b: int): int { if a < b then a else b }

  function BoundedPositiveInteger(value: Option<int>, maximum: int): int {
    Min(PositiveInteger(value, maximum), maximum)
  }

  function BoundedReserve(value: Option<int>, fallback: int, maximum: int): int {
    if maximum <= 1 then 0 else Min(PositiveInteger(value, fallback), maximum - 1)
  }

  datatype Settings = Settings(runMs: int, toolCalls: int, providerRounds: int, reserveMs: int, reserveToolCalls: int,
                               reserveProviderRounds: int, noProgressRounds: int, repeatedToolCalls: int,
                               consecutiveErrors: int)
  {
    ghost predicate Positive() {
      && runMs > 0 && toolCalls > 0 && providerRounds > 0 && reserveMs > 0 && reserveToolCalls > 0
      && reserveProviderRounds > 0 && noProgressRounds > 0 && repeatedToolCalls > 0 && consecutiveErrors > 0
    }
  }

  datatype InputLimits = InputLimits(runMs: Option<int>, toolCalls: Option<int>, providerRounds: Option<int>,
                                     reserveMs: Option<int>, reserveToolCalls: Option<int>,
                                     reserveProviderRounds: Option<int>, noProgressRounds: Option<int>,
                                     repeatedToolCalls: Option<int>, consecutiveErrors: Option<int>)

  datatype Limits = Limits(maxRunMs: int, maxToolCalls: int, maxProviderRounds: int,
                           researchRunMs: int, researchToolCalls: int, researchProviderRounds: int,
                           maxNoProgressRounds: int, maxRepeatedToolCalls: int, maxConsecutiveErrors: int)
  {
    ghost predicate Ok() {
      && Soft(researchRunMs, maxRunMs) && Soft(researchToolCalls, maxToolCalls)
      && Soft(researchProviderRounds, maxProviderRounds)
      && maxNoProgressRounds > 0 && maxRepeatedToolCalls > 0 && maxConsecutiveErrors > 0
    }
  }

  // A soft limit lies strictly below the hard one whenever there is room for that.
  ghost predicate Soft(research: int, maximum: int) {
    0 < research <= maximum && (research < maximum <==> maximum > 1)
  }

  function Research(maximum: int, reserve: int): int { Max(1, maximum - reserve) }

  // The constructor of AgentRuntime.
  function Configure(options: InputLimits): Settings {
    Settings(PositiveInteger(options.runMs, 1_800_000), PositiveInteger(options.toolCalls, 200),
             PositiveInteger(options.providerRounds, 50),
             PositiveInteger(options.reserveMs, 180_000), PositiveInteger(options.reserveToolCalls, 20),
             PositiveInteger(options.reserveProviderRounds, 5), PositiveInteger(options.noProgressRounds, 4),
             PositiveInteger(options.repeatedToolCalls, 3), PositiveInteger(options.consecutiveErrors, 3))
  }

  function Resolve(settings: Settings, input: InputLimits): Limits {
    var runMs := BoundedPositiveInteger(input.runMs, settings.runMs);
    var toolCalls := BoundedPositiveInteger(input.toolCalls, settings.toolCalls);
    var rounds := BoundedPositiveInteger(input.providerRounds, settings.providerRounds);
    Limits(runMs, toolCalls, rounds,
           Research(runMs, BoundedReserve(input.reserveMs, settings.reserveMs, runMs)),
           Research(toolCalls, BoundedReserve(input.reserveToolCalls, settings.reserveToolCalls, toolCalls)),
           Research(rounds, BoundedReserve(input.reserveProviderRounds, settings.reserveProviderRounds, rounds)),
           BoundedPositiveInteger(input.noProgressRounds, settings.noProgressRounds),
           BoundedPositiveInteger(input.repeatedToolCalls, settings.repeatedToolCalls),
           BoundedPositiveInteger(input.consecutiveErrors, settings.consecutiveErrors))
  }

  /** Whatever a caller passes, no limit of a run exceeds the configured one and every hard limit above 1
      keeps a finalization reserve. */
  lemma LimitsAreBounded(options: InputLimits, input: InputLimits)
    ensures var settings := Configure(options); var limits := Resolve(settings, input);
      && settings.Positive() && limits.Ok()
      && limits.maxRunMs <= settings.runMs && limits.maxToolCalls <= settings.toolCalls
      && limits.maxProviderRounds <= settings.providerRounds && limits.maxNoProgressRounds <= settings.noProgressRounds
      && limits.maxRepeatedToolCalls <= settings.repeatedToolCalls
      && limits.maxConsecutiveErrors <= settings.consecutiveErrors
  {
    var settings := Configure(options);
    ReserveIsSoft(input.reserveMs, settings.reserveMs, BoundedPositiveInteger(input.runMs, settings.runMs));
    ReserveIsSoft(input.reserveToolCalls, settings.reserveToolCalls,
                  BoundedPositiveInteger(input.toolCalls, settings.toolCalls));
    ReserveIsSoft(input.reserveProviderRounds, settings.reserveProviderRounds,
                  BoundedPositiveInteger(input.providerRounds, settings.providerRounds));
  }

  lemma ReserveIsSoft(value: Option<int>, fallback: int, maximum: int)
    requires fallback > 0 && maximum > 0
    ensures Soft(Research(maximum, BoundedReserve(value, fallback, maximum)), maximum)
  {
  }

  // ---------- One run ----------

  type Signature = string
  type Fingerprint = string

  datatype Reason = Budget | NoProgress

  // The calls made, the real tool invocations, the tool rounds, whether the first provider turn was
  // one, and the number of the last turn that was.
  datatype History = History(calls: multiset<Signature>, invoked: nat, toolRounds: nat, firstIsToolUse: bool,
                             lastToolTurn: nat)

  datatype State = State(
    toolCalls: nat, reason: Option<Reason>, consecutiveErrors: nat, noProgress: nat, observed: nat,
    results: set<Fingerprint>, turns: nat, aborted: bool, past: History)

  const START := State(0, None, 0, 0, 0, {}, 0, false, History(multiset{}, 0, 0, false, 0))

  // requestFinalization(reason), called only `when`
  function Noted(reason: Option<Reason>, when: bool, next: Reason): Option<Reason> {
    if when && reason.None? then Some(next) else reason
  }

  function Called(past: History, signature: Signature, invoked: bool): History {
    past.(calls := past.calls + multiset{signature}, invoked := past.invoked + if invoked then 1 else 0)
  }

  // requestTool up to its await.
  function RequestTool(l: Limits, s: State, signature: Signature): State {
    var toolCalls := s.toolCalls + 1;
    var repeated := Noted(s.reason, s.past.calls[signature] + 1 >= l.maxRepeatedToolCalls, NoProgress);
    var reached := Noted(repeated, toolCalls >= l.researchToolCalls, Budget);
    s.(toolCalls := toolCalls, reason := Noted(reached, toolCalls > l.maxToolCalls, Budget),
       past := Called(s.past, signature, toolCalls <= l.maxToolCalls))
  }

  // requestTool after its await; None for a failed result.
  function ToolResult(l: Limits, s: State, result: Option<Fingerprint>): State {
    if result.Some? then s.(consecutiveErrors := 0, results := s.results + {result.value}) else
    s.(consecutiveErrors := s.consecutiveErrors + 1,
       reason := Noted(s.reason, s.consecutiveErrors + 1 >= l.maxConsecutiveErrors, NoProgress))
  }

  // onProviderTurn
  function ProviderTurn(l: Limits, s: State, toolUse: bool): State {
    var turns := s.turns + 1;
    var first := if s.turns == 0 then toolUse else s.past.firstIsToolUse;
    if !toolUse then s.(turns := turns, past := s.past.(firstIsToolUse := first)) else
    var stuck := |s.results| == s.observed && turns > 1;
    var noProgress := if stuck then s.noProgress + 1 else 0;
    var stalled := Noted(s.reason, noProgress >= l.maxNoProgressRounds, NoProgress);
    s.(turns := turns,
       past := s.past.(firstIsToolUse := first, toolRounds := s.past.toolRounds + 1, lastToolTurn := turns),
       noProgress := noProgress, observed := if stuck then s.observed else |s.results|,
       reason := Noted(stalled, turns >= l.researchProviderRounds, Budget),
       aborted := s.aborted || turns >= l.maxProviderRounds)
  }

  // finalizationReason(), `elapsed` milliseconds into the run.
  function Query(l: Limits, s: State, elapsed: nat): State {
    s.(reason := Noted(s.reason, elapsed >= l.researchRunMs, Budget))
  }

  datatype Event =
    | ERequest(signature: Signature)
    | EResult(result: Option<Fingerprint>)
    | ETurn(toolUse: bool)
    | EQuery(elapsed: nat)
    | EDeadline

  function Apply(l: Limits, s: State, e: Event): State {
    match e
    case ERequest(signature) => RequestTool(l, s, signature)
    case EResult(result) => ToolResult(l, s, result)
    case ETurn(toolUse) => ProviderTurn(l, s, toolUse)
    case EQuery(elapsed) => Query(l, s, elapsed)
    case EDeadline => s.(aborted := true)
  }

  function Run(l: Limits, s: State, es: seq<Event>): State
    decreases |es|
  {
    if es == [] then s else Run(l, Apply(l, s, es[0]), es[1..])
  }

  // ---------- Invariant ----------

  ghost predicate Counted(l: Limits, s: State) {
    s.toolCalls == |s.past.calls| && s.past.invoked == Min(s.toolCalls, l.maxToolCalls)
  }

  // While finalization has not been requested, every soft limit is unreached.
  ghost predicate Researching(l: Limits, s: State) {
    s.reason.None? ==>
      && s.toolCalls < l.researchToolCalls && s.past.lastToolTurn < l.researchProviderRounds
      && s.noProgress < l.maxNoProgressRounds && s.consecutiveErrors < l.maxConsecutiveErrors
      && forall g :: g in s.past.calls ==> s.past.calls[g] < l.maxRepeatedToolCalls
  }

  ghost function Allowance(most: int, observed: nat, noProgress: nat, first: bool): int {
    most * observed + noProgress + if first then 1 else 0
  }

  ghost predicate Rounds(l: Limits, s: State) {
    && s.observed <= |s.results| && s.past.lastToolTurn <= s.turns
    && (s.turns == 0 ==> s.past.toolRounds == 0 && !s.past.firstIsToolUse)
    && (s.reason.None? ==>
          s.past.toolRounds <= Allowance(l.maxNoProgressRounds, s.observed, s.noProgress, s.past.firstIsToolUse))
    && (s.past.lastToolTurn >= l.maxProviderRounds ==> s.aborted)
  }

  ghost predicate Inv(l: Limits, s: State) {
    Counted(l, s) && Researching(l, s) && Rounds(l, s)
  }

  lemma RequestKeepsInv(l: Limits, s: State, signature: Signature)
    requires l.Ok() && Inv(l, s)
    ensures Inv(l, RequestTool(l, s, signature))
  {
    assert |s.past.calls + multiset{signature}| == |s.past.calls| + 1;
  }

  lemma ResultKeepsInv(l: Limits, s: State, result: Option<Fingerprint>)
    requires l.Ok() && Inv(l, s)
    ensures Inv(l, ToolResult(l, s, result))
  {
    if result.Some? { SizeGrows(s.results, result.value); }
  }

  lemma SizeGrows(results: set<Fingerprint>, f: Fingerprint)
    ensures |results| <= |results + {f}| <= |results| + 1
  {
    if f in results { assert results + {f} == results; }
  }

  lemma TurnKeepsInv(l: Limits, s: State, toolUse: bool)
    requires l.Ok() && Inv(l, s)
    ensures Inv(l, ProviderTurn(l, s, toolUse))
  {
    TurnKeepsRounds(l, s, toolUse, ProviderTurn(l, s, toolUse));
  }

  lemma TurnKeepsRounds(l: Limits, s: State, toolUse: bool, t: State)
    requires Rounds(l, s) && t == ProviderTurn(l, s, toolUse) && l.maxNoProgressRounds > 0
    requires s.reason.None? ==> s.noProgress < l.maxNoProgressRounds
    ensures Rounds(l, t)
  {
    if s.observed < |s.results| {
      AllowanceGrows(l.maxNoProgressRounds, s.observed, s.noProgress, s.past.firstIsToolUse, |s.results|);
    }
  }

  lemma AllowanceGrows(most: nat, observed: nat, noProgress: nat, first: bool, size: nat)
    requires observed < size
    ensures noProgress < most ==> Allowance(most, observed, noProgress, first) < Allowance(most, size, 0, first)
  {
    Scales(most, observed + 1, size);
    Scales(most, observed, observed);
  }

  lemma Scales(m: nat, a: nat, b: nat)
    requires a <= b
    ensures m * a <= m * b && m * (a + 1) == m * a + m
  {
  }

  lemma EventKeepsInv(l: Limits, s: State, e: Event)
    requires l.Ok() && Inv(l, s)
    ensures Inv(l, Apply(l, s, e))
  {
    match e
    case ERequest(signature) => RequestKeepsInv(l, s, signature);
    case EResult(result) => ResultKeepsInv(l, s, result);
    case ETurn(toolUse) => TurnKeepsInv(l, s, toolUse);
    case EQuery(_) =>
    case EDeadline =>
  }

  lemma {:induction false} RunKeepsInv(l: Limits, s: State, es: seq<Event>)
    requires l.Ok() && Inv(l, s)
    ensures Inv(l, Run(l, s, es))
    decreases |es|
  {
    if es != [] {
      EventKeepsInv(l, s, es[0]);
      RunKeepsInv(l, Apply(l, s, es[0]), es[1..]);
    }
  }

  // ---------- Main results ----------

  /** Under any interleaving exactly the first maxToolCalls tool requests reach the real tool; when the
      limit exceeds 1, finalization has been requested before the last permitted call, and the same
      holds for tool rounds of the provider. */
  lemma ToolBudget(l: Limits, es: seq<Event>, s: State)
    requires l.Ok() && s == Run(l, START, es)
    ensures s.past.invoked == Min(s.toolCalls, l.maxToolCalls)
    ensures l.maxToolCalls > 1 && s.toolCalls >= l.maxToolCalls - 1 ==> s.reason.Some?
    ensures s.toolCalls >= l.maxToolCalls ==> s.reason.Some?
    ensures l.maxProviderRounds > 1 && s.past.lastToolTurn >= l.maxProviderRounds - 1 ==> s.reason.Some?
    ensures s.past.lastToolTurn >= l.maxProviderRounds ==> s.aborted
  {
    RunKeepsInv(l, START, es);
  }

  /** At most maxNoProgressRounds tool rounds pass per distinct successful result, and one more such
      stretch, without finalization being requested. */
  lemma NoProgressBound(l: Limits, es: seq<Event>, s: State)
    requires l.Ok() && s == Run(l, START, es) && s.reason.None?
    ensures s.past.toolRounds <= l.maxNoProgressRounds * (|s.results| + 1)
  {
    RunKeepsInv(l, START, es);
    Scales(l.maxNoProgressRounds, s.observed, |s.results|);
    Scales(l.maxNoProgressRounds, |s.results|, |s.results|);
  }

  function Elements(m: multiset<Signature>): set<Signature> { set g | g in m }

  lemma {:induction false} Pigeonhole(m: multiset<Signature>, cap: nat)
    requires forall g :: g in m ==> m[g] <= cap
    ensures |m| <= cap * |Elements(m)|
    decreases |Elements(m)|
  {
    if m == multiset{} {
      assert Elements(m) == {};
    } else {
      var g :| g in m;
      var rest := m[g := 0];
      assert Elements(m) == Elements(rest) + {g};
      assert m == rest + multiset{}[g := m[g]];
      Pigeonhole(rest, cap);
      assert cap * |Elements(m)| == cap * |Elements(rest)| + cap;
    }
  }

  /** Until finalization is requested, tool calls are fewer than maxRepeatedToolCalls per distinct call. */
  lemma RepetitionBound(l: Limits, es: seq<Event>, s: State)
    requires l.Ok() && s == Run(l, START, es) && s.reason.None?
    ensures s.toolCalls <= (l.maxRepeatedToolCalls - 1) * |Elements(s.past.calls)|
  {
    RunKeepsInv(l, START, es);
    Pigeonhole(s.past.calls, l.maxRepeatedToolCalls - 1);
  }

  /** The finalization reason is written once. */
  lemma {:induction false} ReasonIsStable(l: Limits, s: State, es: seq<Event>)
    requires s.reason.Some?
    ensures Run(l, s, es).reason == s.reason
    decreases |es|
  {
    if es != [] {
      ReasonIsStable(l, Apply(l, s, es[0]), es[1..]);
    }
  }
}
