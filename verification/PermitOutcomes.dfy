/** What becomes of a ticket: every settlement by its exact cause, from the outcomes before it. */
module PermitOutcomes {
  import opened Permits

  ghost predicate IsPending(s: State, k: Ticket) { k < |s.outcomes| && s.outcomes[k].Pending? }

  // Every older ticket that still waits has an aborted signal.
  ghost predicate AllAheadAborted(s: State, k: Ticket)
    requires |s.signals| == |s.outcomes|
  {
    forall j: Ticket :: j < k && IsPending(s, j) ==> s.signals[j] in s.aborted
  }

  // The first call of a granted ticket's release token.
  ghost predicate Frees(s: State, e: Event) {
    e.ERelease? && e.ticket < |s.outcomes| && s.outcomes[e.ticket].Granted?
  }

  // The event gives ticket k this outcome.
  ghost predicate Gives(limit: nat, s: State, e: Event, k: Ticket, o: Outcome)
    requires |s.signals| == |s.outcomes|
  {
    match o
    case Pending => e.EAcquire? && k == |s.outcomes| && s.active >= limit
    case Granted =>
      || (e.EAcquire? && k == |s.outcomes| && s.active < limit)
      || (Frees(s, e) && IsPending(s, k) && s.signals[k] !in s.aborted && AllAheadAborted(s, k))
    case Rejected =>
      IsPending(s, k) && s.signals[k] in s.aborted && (e == EOnAbort(k) || (Frees(s, e) && AllAheadAborted(s, k)))
    case Released => Frees(s, e) && e.ticket == k
  }

  ghost predicate Has(s: State, k: Ticket, o: Outcome) { k < |s.outcomes| && s.outcomes[k] == o }

  // The queue before a ticket is what is pending before it.
  lemma AheadInQueue(s: State, n: nat)
    requires WellFormed(s) && QueueOk(s) && n < |s.waiting|
    ensures IsPending(s, s.waiting[n])
    ensures AllAheadAborted(s, s.waiting[n]) <==> forall m :: 0 <= m < n ==> s.signals[s.waiting[m]] in s.aborted
  {
    assert s.waiting[n] in s.waiting;
    forall j: Ticket | j < s.waiting[n] && IsPending(s, j) ensures exists m :: 0 <= m < n && s.waiting[m] == j {
      assert j in s.waiting;
    }
    forall m | 0 <= m < n ensures s.waiting[m] < s.waiting[n] && IsPending(s, s.waiting[m]) {
      assert s.waiting[m] in s.waiting;
    }
  }

  // A handover reaches the tickets up to the first one that is not aborted.
  lemma HandoverReaches(s: State, t: State, n: nat)
    requires WellFormed(s) && Increasing(s.waiting) && t == Handover(s) && n < |s.waiting|
    ensures var first, k := FirstLive(s.waiting, s.signals, s.aborted), s.waiting[n];
      k < |t.outcomes| &&
      t.outcomes[k] == if n < first then Rejected else if n == first then Granted else s.outcomes[k]
  {
    HandoverGrantsFirstLive(s);
    if n > FirstLive(s.waiting, s.signals, s.aborted) { HandoverSpares(s, n); }
  }

  lemma HandoverGives(s: State, t: State, k: Ticket)
    requires WellFormed(s) && QueueOk(s) && t == Handover(s) && k < |s.outcomes| && k < |t.outcomes|
    ensures if IsPending(s, k) && AllAheadAborted(s, k)
      then t.outcomes[k] == (if s.signals[k] in s.aborted then Rejected else Granted)
      else t.outcomes[k] == s.outcomes[k]
  {
    if k in s.waiting {
      var n :| 0 <= n < |s.waiting| && s.waiting[n] == k;
      AheadInQueue(s, n);
      HandoverReaches(s, t, n);
    } else {
      HandoverKeepsOthers(s, k);
    }
  }

  // The tickets behind the one that is granted stay as they are.
  lemma {:induction false} HandoverSpares(s: State, n: nat)
    requires WellFormed(s) && Increasing(s.waiting)
    requires FirstLive(s.waiting, s.signals, s.aborted) < n < |s.waiting|
    ensures Handover(s).outcomes[s.waiting[n]] == s.outcomes[s.waiting[n]]
    decreases |s.waiting|
  {
    assert s.waiting[0] < s.waiting[n];
    if !IsLive(s, s.waiting[0]) {
      var t := s.(waiting := s.waiting[1..], outcomes := s.outcomes[s.waiting[0] := Rejected]);
      HandoverSpares(t, n - 1);
    }
  }

  lemma ReleaseGives(limit: nat, s: State, t: Ticket, u: State, k: Ticket, o: Outcome)
    requires Inv(limit, s) && t < |s.outcomes| && s.outcomes[t].Granted? && u == Release(s, t) && !Has(s, k, o)
    ensures Has(u, k, o) <==> Gives(limit, s, ERelease(t), k, o)
  {
    var freed := s.(active := s.active - 1, outcomes := s.outcomes[t := Released]);
    assert forall j: Ticket :: IsPending(freed, j) <==> IsPending(s, j);
    if k < |s.outcomes| { HandoverGives(freed, u, k); }
  }

  lemma AcquireGives(limit: nat, s: State, signal: Signal, t: State, k: Ticket, o: Outcome)
    requires |s.signals| == |s.outcomes| && t == Acquire(limit, s, signal) && !Has(s, k, o)
    ensures Has(t, k, o) <==> Gives(limit, s, EAcquire(signal), k, o)
  {}

  lemma AbortGives(limit: nat, s: State, j: Ticket, t: State, k: Ticket, o: Outcome)
    requires WellFormed(s) && QueueOk(s) && j < |s.signals| && s.signals[j] in s.aborted
    requires t == OnAbort(s, j) && !Has(s, k, o)
    ensures Has(t, k, o) <==> Gives(limit, s, EOnAbort(j), k, o)
  {
    assert IsPending(s, j) <==> j in s.waiting;
  }

  /** Every outcome a ticket takes has its cause, and every cause its effect: it is granted on arrival exactly
      while a permit is free, and later exactly by a release that finds it the oldest one not aborted. */
  lemma OutcomesMoveExactly(limit: nat, s: State, e: Event, t: State, k: Ticket, o: Outcome)
    requires Inv(limit, s) && Enabled(s, e) && t == Apply(limit, s, e) && !Has(s, k, o)
    ensures Has(t, k, o) <==> Gives(limit, s, e, k, o)
    ensures t.signals == s.signals + if e.EAcquire? then [e.signal] else []
    ensures t.aborted == s.aborted + if e.EAbort? then {e.signal} else {}
  {
    assert s.signals + [] == s.signals;
    match e
    case EAcquire(signal) => AcquireGives(limit, s, signal, t, k, o);
    case EAbort(_) =>
    case EOnAbort(j) => AbortGives(limit, s, j, t, k, o);
    case ERelease(j) => if s.outcomes[j].Granted? { ReleaseGives(limit, s, j, t, k, o); }
  }
}
