/** The AgentRuntime class of packages/agent-runtime/src/agentRuntime.ts and the closures of `execute`. */
module AgentRuntimes {
  import opened Wrappers
  import opened RunBudgets

  // The local variables of one `execute` call.
  class Execution {
    const limits: Limits
    var toolCalls: nat
    var toolCallCounts: map<Signature, nat>
    var finalizationReason: Option<Reason>
    var consecutiveToolErrors: nat
    var noProgressRounds: nat
    var observedSuccessfulResultCount: nat
    var successfulResultFingerprints: set<Fingerprint>
    var providerTurns: nat
    var aborted: bool
    ghost var past: History

    ghost function View(): State
      reads this
    {
      State(toolCalls, finalizationReason, consecutiveToolErrors, noProgressRounds, observedSuccessfulResultCount,
            successfulResultFingerprints, providerTurns, aborted, past)
    }

    ghost predicate Valid()
      reads this
    {
      limits.Ok() && Inv(limits, View()) && Tallies()
    }

    ghost predicate Tallies()
      reads this
    {
      forall g :: past.calls[g] == if g in toolCallCounts then toolCallCounts[g] else 0
    }

    constructor (settings: Settings, input: InputLimits)
      requires settings.Positive() && Resolve(settings, input).Ok()
      ensures limits == Resolve(settings, input) && Valid() && View() == START
    {
      limits := Resolve(settings, input);
      toolCalls, toolCallCounts, finalizationReason := 0, map[], None;
      consecutiveToolErrors, noProgressRounds, observedSuccessfulResultCount := 0, 0, 0;
      successfulResultFingerprints, providerTurns, aborted := {}, 0, false;
      past := History(multiset{}, 0, 0, false, 0);
    }

    method RequestFinalization(reason: Reason)
      modifies `finalizationReason
      ensures finalizationReason == Noted(old(finalizationReason), true, reason)
    {
      if finalizationReason.None? { finalizationReason := Some(reason); }
    }

    // Up to the await; false is the research_budget_reached reply.
    method BeginToolRequest(signature: Signature) returns (invoke: bool)
      requires Valid()
      modifies this
      ensures Valid() && View() == RequestTool(limits, old(View()), signature)
      ensures invoke <==> past.invoked == old(past).invoked + 1
    {
      RequestKeepsInv(limits, View(), signature);
      invoke := CountRequest(signature);
    }

    method CountRequest(signature: Signature) returns (invoke: bool)
      requires Tallies()
      modifies this
      ensures Tallies() && View() == RequestTool(limits, old(View()), signature)
      ensures invoke <==> past.invoked == old(past).invoked + 1
    {
      toolCalls := toolCalls + 1;
      var count := (if signature in toolCallCounts then toolCallCounts[signature] else 0) + 1;
      toolCallCounts := toolCallCounts[signature := count];
      invoke := CheckToolLimits(count);
      past := Called(past, signature, invoke);
    }

    method CheckToolLimits(count: nat) returns (invoke: bool)
      modifies `finalizationReason
      ensures invoke <==> toolCalls <= limits.maxToolCalls
      ensures finalizationReason
        == Noted(Noted(Noted(old(finalizationReason), count >= limits.maxRepeatedToolCalls, NoProgress),
                                                toolCalls >= limits.researchToolCalls, Budget), !invoke, Budget)
    {
      if count >= limits.maxRepeatedToolCalls { RequestFinalization(NoProgress); }
      if toolCalls >= limits.researchToolCalls { RequestFinalization(Budget); }
      invoke := toolCalls <= limits.maxToolCalls;
      if !invoke { RequestFinalization(Budget); }
    }

    // After the await.
    method EndToolRequest(result: Option<Fingerprint>)
      requires Valid()
      modifies `consecutiveToolErrors, `successfulResultFingerprints, `finalizationReason
      ensures Valid() && View() == ToolResult(limits, old(View()), result)
    {
      ResultKeepsInv(limits, View(), result);
      if result.Some? {
        consecutiveToolErrors := 0;
        successfulResultFingerprints := successfulResultFingerprints + {result.value};
      } else {
        consecutiveToolErrors := consecutiveToolErrors + 1;
        if consecutiveToolErrors >= limits.maxConsecutiveErrors { RequestFinalization(NoProgress); }
      }
    }

    method OnProviderTurn(toolUse: bool)
      requires Valid()
      modifies this
      ensures Valid() && View() == ProviderTurn(limits, old(View()), toolUse)
    {
      TurnKeepsInv(limits, View(), toolUse);
      CountTurn(toolUse);
    }

    method CountTurn(toolUse: bool)
      modifies this
      ensures toolCallCounts == old(toolCallCounts) && View() == ProviderTurn(limits, old(View()), toolUse)
    {
      past := past.(firstIsToolUse := if providerTurns == 0 then toolUse else past.firstIsToolUse);
      providerTurns := providerTurns + 1;
      if !toolUse { return; }
      past := past.(toolRounds := past.toolRounds + 1, lastToolTurn := providerTurns);
      TrackProgress();
      CheckTurnLimits();
    }

    method TrackProgress()
      modifies `noProgressRounds, `observedSuccessfulResultCount
      ensures var stuck := |successfulResultFingerprints| == old(observedSuccessfulResultCount) && providerTurns > 1;
        noProgressRounds == if stuck then old(noProgressRounds) + 1 else 0
      ensures observedSuccessfulResultCount == |successfulResultFingerprints|
    {
      if |successfulResultFingerprints| == observedSuccessfulResultCount && providerTurns > 1 {
        noProgressRounds := noProgressRounds + 1;
      } else {
        noProgressRounds := 0;
        observedSuccessfulResultCount := |successfulResultFingerprints|;
      }
    }

    method CheckTurnLimits()
      modifies `finalizationReason, `aborted
      ensures finalizationReason
        == Noted(Noted(old(finalizationReason), noProgressRounds >= limits.maxNoProgressRounds, NoProgress),
                                          providerTurns >= limits.researchProviderRounds, Budget)
      ensures aborted == (old(aborted) || providerTurns >= limits.maxProviderRounds)
    {
      if noProgressRounds >= limits.maxNoProgressRounds { RequestFinalization(NoProgress); }
      if providerTurns >= limits.researchProviderRounds { RequestFinalization(Budget); }
      if providerTurns >= limits.maxProviderRounds { aborted := true; }
    }

    method FinalizationReason(elapsed: nat) returns (reason: Option<Reason>)
      requires Valid()
      modifies `finalizationReason
      ensures Valid() && View() == Query(limits, old(View()), elapsed) && reason == finalizationReason
    {
      if elapsed >= limits.researchRunMs { RequestFinalization(Budget); }
      return finalizationReason;
    }
  }

  type RunId = string
  type SessionId = string
  type Token = nat

  datatype RuntimeError = Unavailable | AuthenticationChanging | RunActive | SessionActive

  // Runs and sessions mirror each other.
  ghost predicate Mirrors(runs: map<RunId, SessionId>, sessions: map<SessionId, RunId>) {
    && (forall r :: r in runs ==> runs[r] in sessions && sessions[runs[r]] == r)
    && (forall x :: x in sessions ==> sessions[x] in runs && runs[sessions[x]] == x)
  }

  // The unreleased closures are exactly those of the active runs.
  ghost predicate Owners(runs: map<RunId, SessionId>, released: seq<bool>, captured: seq<(RunId, SessionId)>,
                         owner: map<RunId, Token>) {
    && |released| == |captured| && owner.Keys == runs.Keys
    && (forall r :: r in runs ==> owner[r] < |released| && !released[owner[r]] && captured[owner[r]] == (r, runs[r]))
    && (forall k: nat :: k < |released| && !released[k] ==> captured[k].0 in runs && owner[captured[k].0] == k)
  }

  lemma RegisterKeepsOwners(runs: map<RunId, SessionId>, released: seq<bool>, captured: seq<(RunId, SessionId)>,
                            owner: map<RunId, Token>, run: RunId, session: SessionId)
    requires Owners(runs, released, captured, owner) && run !in runs
    ensures Owners(runs[run := session], released + [false], captured + [(run, session)], owner[run := |released|])
  {
  }

  lemma RegisterKeepsMirrors(runs: map<RunId, SessionId>, sessions: map<SessionId, RunId>,
                             run: RunId, session: SessionId)
    requires Mirrors(runs, sessions) && run !in runs && session !in sessions
    ensures Mirrors(runs[run := session], sessions[session := run])
  {}

  class AgentRuntime {
    var runs: map<RunId, SessionId>
    var sessions: map<SessionId, RunId>
    var closed: bool
    var authenticationChanging: bool
    // The `released` flags of the release closures; token k belongs to the k-th started run.
    var released: seq<bool>
    // what each closure captured, and the closure of each active run
    ghost var captured: seq<(RunId, SessionId)>
    ghost var owner: map<RunId, Token>

    ghost predicate Valid()
      reads this
    {
      Mirrors(runs, sessions) && Owners(runs, released, captured, owner)
    }

    constructor ()
      ensures Valid() && runs == map[] && sessions == map[] && !closed && !authenticationChanging
    {
      runs, sessions, closed, authenticationChanging, released := map[], map[], false, false, [];
      captured, owner := [], map[];
    }

    method StartRun(run: RunId, session: SessionId) returns (r: Result<Token, RuntimeError>)
      requires Valid()
      modifies this
      ensures Valid() && closed == old(closed) && authenticationChanging == old(authenticationChanging)
      ensures r.Ok? <==> !old(closed) && !old(authenticationChanging) && run !in old(runs) && session !in old(sessions)
      ensures r.Ok? ==> runs == old(runs)[run := session] && sessions == old(sessions)[session := run]
      ensures r.Ok? ==> owner[run] == r.value
      ensures r.Ok? ==> r.value == |old(released)| && released == old(released) + [false]
      ensures r.Ok? ==> captured == old(captured) + [(run, session)]
      ensures r.Err? ==> runs == old(runs) && sessions == old(sessions)
      ensures r.Err? ==> released == old(released) && captured == old(captured)
    {
      if closed { return Err(Unavailable); }
      if authenticationChanging { return Err(AuthenticationChanging); }
      if run in runs { return Err(RunActive); }
      if session in sessions { return Err(SessionActive); }
      r := Ok(|released|);
      Register(run, session);
    }

    method Register(run: RunId, session: SessionId)
      requires Valid() && run !in runs && session !in sessions
      modifies `runs, `sessions, `released, `captured, `owner
      ensures Valid()
      ensures runs == old(runs)[run := session] && sessions == old(sessions)[session := run]
      ensures owner == old(owner)[run := |old(released)|]
      ensures released == old(released) + [false] && captured == old(captured) + [(run, session)]
    {
      RegisterKeepsOwners(runs, released, captured, owner, run, session);
      RegisterKeepsMirrors(runs, sessions, run, session);
      RegisterRows(run, session);
    }

    method RegisterRows(run: RunId, session: SessionId)
      modifies `runs, `sessions, `released, `captured, `owner
      ensures runs == old(runs)[run := session] && sessions == old(sessions)[session := run]
      ensures owner == old(owner)[run := |old(released)|]
      ensures released == old(released) + [false] && captured == old(captured) + [(run, session)]
    {
      runs := runs[run := session];
      sessions := sessions[session := run];
      owner := owner[run := |released|];
      released, captured := released + [false], captured + [(run, session)];
    }

    // The closure `release`: only its first call removes anything, and then exactly its own run.
    method Release(token: Token, run: RunId, session: SessionId)
      requires Valid() && token < |released| && captured[token] == (run, session)
      modifies `runs, `sessions, `released, `owner
      ensures Valid() && released == old(released)[token := true]
      ensures old(released)[token] ==> runs == old(runs) && sessions == old(sessions)
      ensures !old(released)[token] ==> runs == old(runs) - {run} && sessions == old(sessions) - {session}
      ensures forall r :: r in old(runs) && old(owner)[r] != token ==> r in runs && owner[r] == old(owner)[r]
    {
      if released[token] { return; }
      released := released[token := true];
      runs := runs - {run};
      owner := owner - {run};
      if session in sessions && sessions[session] == run { sessions := sessions - {session}; }
    }
  }
}
