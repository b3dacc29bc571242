/** The lease object: permits handed to a worker thread, cancellable by whoever awaits it. */
module WorkerLease {
  import opened Wrappers
  import RateLimit
  import opened ProviderRequestLimiter
  import opened BrokerDispatch

  datatype Slot = Slot(key: PoolKey, limiter: ProviderRequestLimiter, id: nat)

  datatype StartOutcome = Cancelled | Free | Took(result: RateLimit.StartResult)

  class WorkerLease {
    const slots: seq<Slot>
    var closed: bool
    var cancelled: bool
    var protected: set<PoolKey>

    ghost const limiters: set<ProviderRequestLimiter>

    ghost predicate Ready()
      reads this, limiters
    {
      && (forall i | 0 <= i < |slots| :: slots[i].limiter in limiters)
      && (forall i, j | 0 <= i < j < |slots| :: slots[i].limiter != slots[j].limiter)
      && (forall l | l in limiters :: l.Ready())
    }

    constructor (slots: seq<Slot>, ghost limiters: set<ProviderRequestLimiter>)
      requires forall i | 0 <= i < |slots| :: slots[i].limiter in limiters
      requires forall i, j | 0 <= i < j < |slots| :: slots[i].limiter != slots[j].limiter
      requires forall l | l in limiters :: l.Ready()
      ensures Ready() && this.slots == slots && this.limiters == limiters
      ensures !closed && !cancelled && protected == {}
    {
      this.slots, this.limiters := slots, limiters;
      closed, cancelled, protected := false, false, {};
    }

    method Begin() returns (ok: bool)
      ensures ok <==> !closed && !cancelled
    {
      ok := !closed && !cancelled;
    }

    /** Under the lease lock: cancelled work starts nothing unless its pool is protected. */
    method Start(key: Option<PoolKey>, slot: Option<Slot>, now: int) returns (r: StartOutcome)
      requires Ready() && (slot.Some? ==> slot.value.limiter in limiters && slot.value.limiter.clock <= now)
      modifies limiters
      ensures Ready()
      ensures r.Cancelled? <==> cancelled && (key.None? || key.value !in protected)
      ensures !r.Cancelled? ==> (r.Took? <==> slot.Some?)
      ensures r.Took? ==>
                var l := slot.value.limiter;
                (l.View(), r.result) == RateLimit.Start(old(l.View()), l.policy, now, slot.value.id)
      ensures forall l | l in limiters && !(r.Took? && l == slot.value.limiter) :: l.View() == old(l.View())
    {
      if cancelled && (key.None? || key.value !in protected) {
        return Cancelled;
      }
      if slot.None? {
        return Free;
      }
      var result := slot.value.limiter.Start(slot.value.id, now);
      return Took(result);
    }

    method Protect(keys: set<PoolKey>) returns (ok: bool)
      modifies this`protected
      ensures ok <==> !cancelled
      ensures protected == if ok then old(protected) + keys else old(protected)
    {
      ok := !cancelled;
      if ok {
        protected := protected + keys;
      }
    }

    method Unprotect(keys: set<PoolKey>)
      modifies this`protected
      ensures protected == old(protected) - keys
    {
      protected := protected - keys;
    }

    method ReleaseSlot(k: nat, kept: set<PoolKey>)
      requires Ready() && k < |slots|
      modifies slots[k].limiter
      ensures Ready()
      ensures slots[k].limiter.View()
              == if slots[k].key in kept then old(slots[k].limiter.View())
                 else RateLimit.Release(old(slots[k].limiter.View()), slots[k].id)
    {
      if slots[k].key !in kept {
        slots[k].limiter.Release(slots[k].id);
      }
    }

    /** Give back the slots of the pools outside `kept`, touching no other permit. */
    method ReleaseOutside(kept: set<PoolKey>)
      requires Ready()
      modifies limiters
      ensures Ready()
      ensures forall i | 0 <= i < |slots| ::
                slots[i].limiter.View()
                == if slots[i].key in kept then old(slots[i].limiter.View())
                   else RateLimit.Release(old(slots[i].limiter.View()), slots[i].id)
      ensures forall l | l in limiters && (forall i | 0 <= i < |slots| :: slots[i].limiter != l) ::
                l.View() == old(l.View())
    {
      var i := 0;
      while i < |slots|
        invariant 0 <= i <= |slots| && Ready()
        invariant forall j | 0 <= j < i ::
                    slots[j].limiter.View()
                    == if slots[j].key in kept then old(slots[j].limiter.View())
                       else RateLimit.Release(old(slots[j].limiter.View()), slots[j].id)
        invariant forall l | l in limiters && (forall j | 0 <= j < i :: slots[j].limiter != l) ::
                    l.View() == old(l.View())
      {
        ReleaseSlot(i, kept);
        i := i + 1;
      }
    }

    method Finish()
      requires Ready()
      modifies this`closed, limiters
      ensures Ready() && closed
      ensures forall i | 0 <= i < |slots| ::
                slots[i].limiter.View() == RateLimit.Release(old(slots[i].limiter.View()), slots[i].id)
    {
      closed := true;
      ReleaseOutside({});
    }

    /** The awaiting caller gave up: everything unprotected goes back, the rest stays usable. */
    method CancelPending()
      requires Ready()
      modifies this`cancelled, limiters
      ensures Ready() && cancelled
      ensures forall i | 0 <= i < |slots| ::
                slots[i].limiter.View()
                == if slots[i].key in protected then old(slots[i].limiter.View())
                   else RateLimit.Release(old(slots[i].limiter.View()), slots[i].id)
    {
      cancelled := true;
      ReleaseOutside(protected);
    }
  }
}
