/** The AbortablePermitPool class of apps/api/src/services/cbmService.ts, over module Permits. */
module PermitPools {
  import opened Permits

  ghost predicate Flags(released: set<Ticket>, outcomes: seq<Outcome>) {
    forall t: nat :: t in released <==> t < |outcomes| && outcomes[t].Released?
  }

  lemma FlagsAfterAcquire(released: set<Ticket>, outcomes: seq<Outcome>, o: Outcome)
    requires Flags(released, outcomes) && !o.Released?
    ensures Flags(released, outcomes + [o])
  {
  }

  lemma FlagsAfterRelease(limit: nat, s: State, released: set<Ticket>, t: Ticket)
    requires Inv(limit, s) && Flags(released, s.outcomes) && t < |s.outcomes| && s.outcomes[t].Granted?
    ensures Flags(released + {t}, Release(s, t).outcomes)
  {
    var u := s.(active := s.active - 1, outcomes := s.outcomes[t := Released]);
    assert t !in s.waiting;
    HandoverSettles(u);
    forall k: nat | k < |s.outcomes|
      ensures Handover(u).outcomes[k].Released? <==> k in released + {t}
    {
      assert Settles(u.outcomes[k], Handover(u).outcomes[k]);
      assert k in u.waiting ==> u.outcomes[k].Pending?;
    }
  }

  class AbortablePermitPool {
    const limit: nat
    var active: int
    var waiting: seq<Ticket>
    // the signal of each call, and which signals are aborted
    var signals: seq<Signal>
    var aborted: set<Signal>
    // the `released` flags of the release tokens
    var released: set<Ticket>
    // how each promise was settled
    ghost var outcomes: seq<Outcome>

    ghost function View(): State
      reads this
    {
      State(active, waiting, signals, aborted, outcomes)
    }

    ghost predicate Valid()
      reads this
    {
      Inv(limit, View()) && Flags(released, outcomes)
    }

    constructor (limit: nat)
      ensures this.limit == limit && Valid() && View() == EMPTY
    {
      this.limit := limit;
      active, waiting, signals, aborted, released, outcomes := 0, [], [], {}, {}, [];
    }

    // None when `acquire` throws; otherwise the ticket and whether its promise is already resolved.
    method Acquire(signal: Signal) returns (thrown: bool, ticket: Ticket, granted: bool)
      requires Valid()
      modifies `active, `waiting, `signals, `outcomes
      ensures Valid() && (thrown <==> signal in aborted)
      ensures thrown ==> View() == old(View())
      ensures !thrown ==> View() == Permits.Acquire(limit, old(View()), signal) && ticket == old(|signals|)
      ensures !thrown ==> granted == (old(active) < limit)
    {
      if signal in aborted { return true, 0, false; }
      AcquireKeepsInv(limit, View(), signal);
      FlagsAfterAcquire(released, outcomes, if active < limit then Granted else Pending);
      thrown := false;
      ticket, granted := Enter(signal);
    }

    method Enter(signal: Signal) returns (ticket: Ticket, granted: bool)
      modifies `active, `waiting, `signals, `outcomes
      requires |signals| == |outcomes|
      ensures View() == Permits.Acquire(limit, old(View()), signal)
      ensures ticket == old(|signals|) && granted == (old(active) < limit)
    {
      ticket, granted := |signals|, active < limit;
      signals := signals + [signal];
      if granted {
        active := active + 1;
        outcomes := outcomes + [Granted];
      } else {
        waiting := waiting + [ticket];
        outcomes := outcomes + [Pending];
      }
    }

    // The abort listener of a waiter.
    method OnAbort(ticket: Ticket)
      requires Valid() && ticket < |signals| && signals[ticket] in aborted
      modifies `waiting, `outcomes
      ensures Valid() && View() == Permits.OnAbort(old(View()), ticket)
    {
      OnAbortKeepsInv(limit, View(), ticket);
      if ticket !in waiting { return; }
      assert outcomes[ticket].Pending?;
      var index := IndexOf(waiting, ticket);
      waiting := waiting[..index] + waiting[index + 1..];
      outcomes := outcomes[ticket := Rejected];
    }

    // The closure made by releaseToken.
    method ReleaseToken(ticket: Ticket)
      requires Valid() && ticket < |outcomes| && (outcomes[ticket].Granted? || outcomes[ticket].Released?)
      modifies `active, `waiting, `released, `outcomes
      ensures Valid() && View() == Release(old(View()), ticket)
    {
      ReleaseKeepsInv(limit, View(), ticket);
      if ticket in released { return; }
      FlagsAfterRelease(limit, View(), released, ticket);
      released := released + {ticket};
      outcomes := outcomes[ticket := Released];
      Handback();
    }

    method Handback()
      requires WellFormed(View())
      modifies `active, `waiting, `outcomes
      ensures View() == Handover(old(View()).(active := old(active) - 1))
    {
      active := active - 1;
      ghost var start := View();
      while waiting != []
        invariant signals == old(signals) && aborted == old(aborted)
        invariant WellFormed(View()) && Handover(View()) == Handover(start)
        decreases |waiting|
      {
        var waiter := waiting[0];
        waiting := waiting[1..];
        if signals[waiter] in aborted {
          outcomes := outcomes[waiter := Rejected];
          continue;
        }
        active := active + 1;
        outcomes := outcomes[waiter := Granted];
        return;
      }
    }
  }
}
