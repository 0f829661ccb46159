/**
 AbortablePermitPool of apps/api/src/services/cbmService.ts.  Tickets number the calls of `acquire`
 that do not throw; a ticket's outcome is the history of its promise and release token.  A signal
 first becomes aborted and then calls its listeners one by one, so a release can fall in between.
 */
module Permits {
  type Ticket = nat
  type Signal = nat

  datatype Outcome = Pending | Granted | Released | Rejected

  datatype State = State(active: int, waiting: seq<Ticket>, signals: seq<Signal>, aborted: set<Signal>,
                         outcomes: seq<Outcome>)

  const EMPTY := State(0, [], [], {}, [])

  predicate IsLive(s: State, t: Ticket)
    requires t < |s.signals|
  {
    s.signals[t] !in s.aborted
  }

  predicate WellFormed(s: State) {
    |s.signals| == |s.outcomes| && forall k :: 0 <= k < |s.waiting| ==> s.waiting[k] < |s.outcomes|
  }

  // acquire with a signal that is not aborted; the new ticket is |s.outcomes|.
  function Acquire(limit: nat, s: State, signal: Signal): State {
    if s.active < limit then
      s.(active := s.active + 1, signals := s.signals + [signal], outcomes := s.outcomes + [Granted])
    else
      s.(waiting := s.waiting + [|s.outcomes|], signals := s.signals + [signal], outcomes := s.outcomes + [Pending])
  }

  function IndexOf(waiting: seq<Ticket>, t: Ticket): (k: nat)
    requires t in waiting
    ensures k < |waiting| && waiting[k] == t
  {
    if waiting[0] == t then 0 else 1 + IndexOf(waiting[1..], t)
  }

  function Without(waiting: seq<Ticket>, t: Ticket): seq<Ticket>
    requires t in waiting
  {
    var k := IndexOf(waiting, t);
    waiting[..k] + waiting[k + 1..]
  }

  // waiter.onAbort
  function OnAbort(s: State, t: Ticket): State
    requires t < |s.outcomes|
  {
    if t !in s.waiting then s else s.(waiting := Without(s.waiting, t), outcomes := s.outcomes[t := Rejected])
  }

  // The loop of `release`.
  function Handover(s: State): (t: State)
    requires WellFormed(s)
    ensures |t.outcomes| == |s.outcomes| && t.signals == s.signals && t.aborted == s.aborted
    decreases |s.waiting|
  {
    if s.waiting == [] then s else
    var t := s.waiting[0];
    if IsLive(s, t) then s.(active := s.active + 1, waiting := s.waiting[1..], outcomes := s.outcomes[t := Granted])
    else Handover(s.(waiting := s.waiting[1..], outcomes := s.outcomes[t := Rejected]))
  }

  // Calling the release token of ticket t.
  function Release(s: State, t: Ticket): State
    requires WellFormed(s) && t < |s.outcomes|
  {
    if !s.outcomes[t].Granted? then s else Handover(s.(active := s.active - 1, outcomes := s.outcomes[t := Released]))
  }

  datatype Event = EAcquire(signal: Signal) | EAbort(signal: Signal) | EOnAbort(ticket: Ticket)
    | ERelease(ticket: Ticket)

  predicate Enabled(s: State, e: Event) {
    match e
    case EAcquire(signal) => signal !in s.aborted
    case EAbort(_) => true
    case EOnAbort(t) => t < |s.signals| && s.signals[t] in s.aborted
    // only a granted promise hands out a token
    case ERelease(t) => t < |s.outcomes| && (s.outcomes[t].Granted? || s.outcomes[t].Released?)
  }

  function Apply(limit: nat, s: State, e: Event): State
    requires WellFormed(s) && Enabled(s, e)
  {
    match e
    case EAcquire(signal) => Acquire(limit, s, signal)
    case EAbort(signal) => s.(aborted := s.aborted + {signal})
    case EOnAbort(t) => OnAbort(s, t)
    case ERelease(t) => Release(s, t)
  }

  // t is the state after the events es from s.
  ghost predicate Runs(limit: nat, s: State, es: seq<Event>, t: State)
    decreases |es|
  {
    if es == [] then s == t
    else WellFormed(s) && Enabled(s, es[0]) && Runs(limit, Apply(limit, s, es[0]), es[1..], t)
  }

  // ---------- Invariant ----------

  function Held(outcomes: seq<Outcome>): nat {
    if outcomes == [] then 0 else Held(outcomes[..|outcomes| - 1]) + if outcomes[|outcomes| - 1].Granted? then 1 else 0
  }

  // Exactly the unsettled tickets wait, in arrival order.
  ghost predicate QueueOk(s: State) {
    && (forall t: nat :: t in s.waiting <==> t < |s.outcomes| && s.outcomes[t].Pending?)
    && Increasing(s.waiting)
  }

  ghost predicate Increasing(waiting: seq<Ticket>) {
    forall m, n :: 0 <= m < n < |waiting| ==> waiting[m] < waiting[n]
  }

  // A ticket is granted only when every earlier one is settled.
  ghost predicate Fifo(outcomes: seq<Outcome>) {
    forall a, b :: 0 <= a < b < |outcomes| && (outcomes[b].Granted? || outcomes[b].Released?) ==> !outcomes[a].Pending?
  }

  ghost predicate RejectedWereAborted(s: State)
    requires WellFormed(s)
  {
    forall t :: 0 <= t < |s.outcomes| && s.outcomes[t].Rejected? ==> s.signals[t] in s.aborted
  }

  ghost predicate Inv(limit: nat, s: State) {
    && WellFormed(s) && QueueOk(s) && Fifo(s.outcomes) && RejectedWereAborted(s)
    && s.active == Held(s.outcomes) <= limit
    && (s.waiting != [] ==> s.active == limit)
  }

  lemma {:induction false} HeldUpdate(outcomes: seq<Outcome>, t: Ticket, o: Outcome)
    requires t < |outcomes|
    ensures Held(outcomes[t := o]) ==
      Held(outcomes) + (if o.Granted? then 1 else 0) - (if outcomes[t].Granted? then 1 else 0)
  {
    var n := |outcomes| - 1;
    if t < n {
      assert outcomes[t := o][..n] == outcomes[..n][t := o];
      HeldUpdate(outcomes[..n], t, o);
    } else {
      assert outcomes[t := o][..n] == outcomes[..n];
    }
  }

  lemma HeldAppend(outcomes: seq<Outcome>, o: Outcome)
    ensures Held(outcomes + [o]) == Held(outcomes) + if o.Granted? then 1 else 0
  {
    assert (outcomes + [o])[..|outcomes|] == outcomes;
  }

  lemma WithoutIsQueue(waiting: seq<Ticket>, t: Ticket)
    requires Increasing(waiting) && t in waiting
    ensures Increasing(Without(waiting, t))
    ensures forall u :: u in Without(waiting, t) <==> u in waiting && u != t
  {
    var k := IndexOf(waiting, t);
    assert waiting == waiting[..k] + [t] + waiting[k + 1..];
    assert t !in waiting[..k] && t !in waiting[k + 1..];
  }

  // Between a release and its handover one permit may be free although tickets wait.
  ghost predicate Between(limit: nat, s: State) {
    && WellFormed(s) && QueueOk(s) && Fifo(s.outcomes) && RejectedWereAborted(s)
    && s.active == Held(s.outcomes) < limit
    && (s.waiting != [] ==> s.active == limit - 1)
  }

  lemma HeadSettles(s: State, o: Outcome, t: State)
    requires QueueOk(s) && s.waiting != [] && s.waiting[0] < |s.outcomes| && !o.Pending?
    requires t.waiting == s.waiting[1..] && t.outcomes == s.outcomes[s.waiting[0] := o]
    ensures QueueOk(t) && Held(t.outcomes) == Held(s.outcomes) + if o.Granted? then 1 else 0
  {
    var k := s.waiting[0];
    assert k in s.waiting && s.outcomes[k].Pending?;
    HeldUpdate(s.outcomes, k, o);
    assert s.waiting == [k] + s.waiting[1..];
    assert k !in s.waiting[1..];
    forall u: nat ensures u in t.waiting <==> u < |t.outcomes| && t.outcomes[u].Pending? {
      assert u in s.waiting <==> u == k || u in s.waiting[1..];
    }
  }

  lemma HeadIsOldest(s: State, o: Outcome, t: State)
    requires QueueOk(s) && Fifo(s.outcomes) && s.waiting != [] && s.waiting[0] < |s.outcomes| && !o.Pending?
    requires t.outcomes == s.outcomes[s.waiting[0] := o]
    ensures Fifo(t.outcomes)
  {
    var k := s.waiting[0];
    forall a: nat | a < k ensures !s.outcomes[a].Pending? {
      assert a !in s.waiting;
    }
  }

  /** Handing over a freed permit keeps the queue discipline and never leaves a permit free while a ticket waits. */
  lemma {:induction false} HandoverKeepsInv(limit: nat, s: State)
    requires Between(limit, s)
    ensures Inv(limit, Handover(s))
    decreases |s.waiting|
  {
    if s.waiting != [] {
      var k := s.waiting[0];
      if IsLive(s, k) {
        HeadSettles(s, Granted, Handover(s));
        HeadIsOldest(s, Granted, Handover(s));
        assert Handover(s).active == s.active + 1;
      } else {
        var t := s.(waiting := s.waiting[1..], outcomes := s.outcomes[k := Rejected]);
        HeadSettles(s, Rejected, t);
        HeadIsOldest(s, Rejected, t);
        HandoverKeepsInv(limit, t);
      }
    }
  }

  lemma AcquireKeepsInv(limit: nat, s: State, signal: Signal)
    requires Inv(limit, s)
    ensures Inv(limit, Acquire(limit, s, signal))
  {
    HeldAppend(s.outcomes, Granted);
    HeldAppend(s.outcomes, Pending);
    AppendKeepsFifo(s, Acquire(limit, s, signal).outcomes);
  }

  // A newcomer is granted at once only when nobody waits.
  lemma AppendKeepsFifo(s: State, outcomes: seq<Outcome>)
    requires QueueOk(s) && Fifo(s.outcomes)
    requires outcomes == s.outcomes + [Pending] || (outcomes == s.outcomes + [Granted] && s.waiting == [])
    ensures Fifo(outcomes)
  {
    forall a: nat | a < |s.outcomes| && s.waiting == [] ensures !s.outcomes[a].Pending? {
      assert a !in s.waiting;
    }
  }

  lemma OnAbortKeepsInv(limit: nat, s: State, t: Ticket)
    requires Inv(limit, s) && t < |s.signals| && s.signals[t] in s.aborted
    ensures Inv(limit, OnAbort(s, t))
  {
    if t in s.waiting {
      WithoutIsQueue(s.waiting, t);
      HeldUpdate(s.outcomes, t, Rejected);
    }
  }

  lemma ReleaseKeepsInv(limit: nat, s: State, t: Ticket)
    requires Inv(limit, s) && t < |s.outcomes|
    ensures Inv(limit, Release(s, t))
  {
    if s.outcomes[t].Granted? {
      HeldUpdate(s.outcomes, t, Released);
      HandoverKeepsInv(limit, s.(active := s.active - 1, outcomes := s.outcomes[t := Released]));
    }
  }

  lemma EventKeepsInv(limit: nat, s: State, e: Event)
    requires Inv(limit, s) && Enabled(s, e)
    ensures Inv(limit, Apply(limit, s, e))
  {
    match e
    case EAcquire(signal) => AcquireKeepsInv(limit, s, signal);
    case EAbort(_) =>
    case EOnAbort(t) => OnAbortKeepsInv(limit, s, t);
    case ERelease(t) => ReleaseKeepsInv(limit, s, t);
  }

  lemma {:induction false} RunKeepsInv(limit: nat, s: State, es: seq<Event>, t: State)
    requires Inv(limit, s) && Runs(limit, s, es, t)
    ensures Inv(limit, t)
    decreases |es|
  {
    if es != [] {
      EventKeepsInv(limit, s, es[0]);
      RunKeepsInv(limit, Apply(limit, s, es[0]), es[1..], t);
    }
  }

  // ---------- Main results ----------

  /** Over any interleaving of acquires, aborts and releases: the active count is the number of tokens
      granted and not yet released, never above the limit; tickets wait only while it is at the limit;
      the waiting tickets are the unsettled ones in arrival order; and a ticket that was granted finds
      every earlier ticket granted too, unless that one's signal was aborted. */
  lemma PoolSafety(limit: nat, es: seq<Event>, s: State)
    requires Runs(limit, EMPTY, es, s)
    ensures s.active == Held(s.outcomes) <= limit
    ensures s.waiting != [] ==> s.active == limit
    ensures QueueOk(s) && |s.signals| == |s.outcomes|
    ensures forall a, b :: 0 <= a < b < |s.outcomes| && (s.outcomes[b].Granted? || s.outcomes[b].Released?) ==>
      s.outcomes[a].Granted? || s.outcomes[a].Released? || (s.outcomes[a].Rejected? && s.signals[a] in s.aborted)
  {
    RunKeepsInv(limit, EMPTY, es, s);
    assert Fifo(s.outcomes);
  }

  // How a ticket's outcome may change: it is settled once, and a grant may be released.
  predicate Settles(o: Outcome, n: Outcome) {
    o == n || (o.Pending? && (n.Granted? || n.Rejected?)) || (o.Granted? && n.Released?)
  }

  ghost predicate AllSettle(s: State, t: State) {
    |s.outcomes| <= |t.outcomes| && forall k :: 0 <= k < |s.outcomes| ==> Settles(s.outcomes[k], t.outcomes[k])
  }

  lemma {:induction false} HandoverSettles(s: State)
    requires WellFormed(s) && QueueOk(s)
    ensures AllSettle(s, Handover(s))
    ensures forall k :: 0 <= k < |s.outcomes| && k !in s.waiting ==> Handover(s).outcomes[k] == s.outcomes[k]
    decreases |s.waiting|
  {
    if s.waiting != [] && !IsLive(s, s.waiting[0]) {
      var t := s.(waiting := s.waiting[1..], outcomes := s.outcomes[s.waiting[0] := Rejected]);
      HeadSettles(s, Rejected, t);
      assert s.waiting == [s.waiting[0]] + t.waiting;
      HandoverSettles(t);
      assert s.waiting[0] !in t.waiting;
      forall k | 0 <= k < |s.outcomes| ensures Settles(s.outcomes[k], Handover(s).outcomes[k]) {
        assert Settles(t.outcomes[k], Handover(t).outcomes[k]);
        assert k == s.waiting[0] ==> k in s.waiting;
      }
    } else if s.waiting != [] {
      assert s.waiting[0] in s.waiting;
    }
  }

  /** No event settles a ticket twice or takes back a grant; a token that was released stays released. */
  lemma EventSettles(limit: nat, s: State, e: Event)
    requires Inv(limit, s) && Enabled(s, e)
    ensures AllSettle(s, Apply(limit, s, e))
  {
    match e
    case ERelease(t) =>
      if s.outcomes[t].Granted? {
        var u := s.(active := s.active - 1, outcomes := s.outcomes[t := Released]);
        HandoverSettles(u);
        forall k | 0 <= k < |s.outcomes| ensures Settles(s.outcomes[k], Handover(u).outcomes[k]) {
          assert Settles(u.outcomes[k], Handover(u).outcomes[k]);
          assert t !in s.waiting;
        }
      }
    case _ =>
  }

  /** Releasing a token a second time changes nothing. */
  lemma ReleaseTwice(limit: nat, s: State, t: Ticket)
    requires Inv(limit, s) && t < |s.outcomes| && s.outcomes[t].Granted?
    ensures var u := Release(s, t); WellFormed(u) && t < |u.outcomes| && u.outcomes[t].Released? && Release(u, t) == u
  {
    var u := s.(active := s.active - 1, outcomes := s.outcomes[t := Released]);
    assert t !in s.waiting;
    HandoverSettles(u);
    ReleaseKeepsInv(limit, s, t);
  }

  // The position of the first waiting ticket whose signal is not aborted; |waiting| if there is none.
  function FirstLive(waiting: seq<Ticket>, signals: seq<Signal>, aborted: set<Signal>): (n: nat)
    requires forall k :: 0 <= k < |waiting| ==> waiting[k] < |signals|
    ensures n <= |waiting| && forall k :: 0 <= k < n ==> signals[waiting[k]] in aborted
    ensures n < |waiting| ==> signals[waiting[n]] !in aborted
  {
    if waiting == [] || signals[waiting[0]] !in aborted then 0 else 1 + FirstLive(waiting[1..], signals, aborted)
  }

  ghost predicate PassesOn(s: State, n: nat, t: State)
    requires n <= |s.waiting|
  {
    && (forall k :: 0 <= k < n ==> s.waiting[k] < |t.outcomes| && t.outcomes[s.waiting[k]].Rejected?)
    && (n == |s.waiting| ==> t.waiting == [] && t.active == s.active)
    && (n < |s.waiting| ==> s.waiting[n] < |t.outcomes| && t.outcomes[s.waiting[n]].Granted?)
    && (n < |s.waiting| ==> t.waiting == s.waiting[n + 1..] && t.active == s.active + 1)
  }

  lemma {:induction false} HandoverKeepsOthers(s: State, t: Ticket)
    requires WellFormed(s) && t < |s.outcomes| && t !in s.waiting
    ensures Handover(s).outcomes[t] == s.outcomes[t]
    decreases |s.waiting|
  {
    if s.waiting != [] && !IsLive(s, s.waiting[0]) {
      HandoverKeepsOthers(s.(waiting := s.waiting[1..], outcomes := s.outcomes[s.waiting[0] := Rejected]), t);
    }
  }

  /** A release passes the permit to the oldest waiting ticket that is not aborted, rejects the aborted
      ones before it and leaves the rest of the queue alone; with no such ticket the permit is freed. */
  lemma {:induction false} HandoverGrantsFirstLive(s: State)
    requires WellFormed(s) && Increasing(s.waiting)
    ensures PassesOn(s, FirstLive(s.waiting, s.signals, s.aborted), Handover(s))
    decreases |s.waiting|
  {
    if s.waiting != [] && !IsLive(s, s.waiting[0]) {
      var t := s.(waiting := s.waiting[1..], outcomes := s.outcomes[s.waiting[0] := Rejected]);
      HandoverGrantsFirstLive(t);
      HandoverKeepsOthers(t, s.waiting[0]);
      var n := FirstLive(t.waiting, s.signals, s.aborted);
      assert n < |t.waiting| ==> t.waiting[n + 1..] == s.waiting[n + 2..];
      forall k | 0 <= k < n + 1
        ensures s.waiting[k] < |Handover(s).outcomes| && Handover(s).outcomes[s.waiting[k]].Rejected?
      {
        assert k > 0 ==> s.waiting[k] == t.waiting[k - 1];
      }
    }
  }
}
