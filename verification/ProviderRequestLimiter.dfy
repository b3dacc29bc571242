/** The shared limiter as an object; each method refines the budget's value form. */
module ProviderRequestLimiter {
  import opened Wrappers
  import opened RateLimit
  import RateLimitHistory

  // ------------------------------------------------------------ permits by position

  lemma {:induction false} RemainingAt(pending: seq<Permit>, k: nat)
    requires DistinctPermits(pending) && k < |pending|
    ensures RemainingOf(pending, pending[k].id) == pending[k].remaining
  {
    if k > 0 {
      assert pending[0].id != pending[k].id;
      assert DistinctPermits(pending[1..]);
      RemainingAt(pending[1..], k - 1);
    }
  }

  lemma {:induction false} SpendAt(pending: seq<Permit>, k: nat)
    requires DistinctPermits(pending) && k < |pending|
    ensures Spend(pending, pending[k].id)
            == if pending[k].remaining == 1 then pending[..k] + pending[k + 1..]
               else pending[k := Permit(pending[k].id, pending[k].remaining - 1)]
  {
    if k > 0 {
      assert pending[0].id != pending[k].id;
      assert DistinctPermits(pending[1..]);
      SpendAt(pending[1..], k - 1);
      assert pending == [pending[0]] + pending[1..];
    }
  }

  lemma {:induction false} WithoutAt(pending: seq<Permit>, k: nat)
    requires DistinctPermits(pending) && k < |pending|
    ensures Without(pending, pending[k].id) == pending[..k] + pending[k + 1..]
  {
    if k > 0 {
      assert pending[0].id != pending[k].id;
      assert DistinctPermits(pending[1..]);
      WithoutAt(pending[1..], k - 1);
      assert pending == [pending[0]] + pending[1..];
    }
  }

  lemma {:induction false} RemoveLast(s: seq<nat>, x: nat)
    requires x !in s
    ensures RateLimitHistory.RemoveFirst(s + [x], x) == s
  {
    if s == [] {
      assert s + [x] == [x];
    } else {
      assert (s + [x])[1..] == s[1..] + [x];
      RemoveLast(s[1..], x);
    }
  }

  // ------------------------------------------------------------ the loops of the bucket

  method LeakLog(log: seq<int>, now: int, interval: nat) returns (kept: seq<int>)
    ensures kept == Leak(log, now, interval)
  {
    kept := log;
    while kept != [] && kept[0] < now - interval
      invariant Leak(kept, now, interval) == Leak(log, now, interval)
    {
      kept := kept[1..];
    }
  }

  method SumPending(pending: seq<Permit>) returns (total: nat)
    ensures total == TotalPending(pending)
  {
    total := 0;
    var i := |pending|;
    while i > 0
      invariant 0 <= i <= |pending|
      invariant total == TotalPending(pending[i..])
    {
      i := i - 1;
      assert pending[i..][1..] == pending[i + 1..];
      total := total + pending[i].remaining;
    }
    assert pending[0..] == pending;
  }

  /** Where a reservation waits, if it still does. */
  method Find(pending: seq<Permit>, id: nat) returns (k: Option<nat>)
    requires DistinctPermits(pending)
    ensures k.Some? ==> k.value < |pending| && pending[k.value].id == id
    ensures k.None? ==> forall i | 0 <= i < |pending| :: pending[i].id != id
    ensures k.Some? <==> RemainingOf(pending, id) >= 1
  {
    var i := 0;
    while i < |pending|
      invariant 0 <= i <= |pending|
      invariant forall j | 0 <= j < i :: pending[j].id != id
    {
      if pending[i].id == id {
        RemainingAt(pending, i);
        return Some(i);
      }
      i := i + 1;
    }
    RemainingBounds(pending, id);
    return None;
  }

  class ProviderRequestLimiter {
    const policy: Policy
    var log: seq<int>
    var spaced: seq<int>
    var pending: seq<Permit>
    var waiters: seq<nat>
    ghost var clock: int

    ghost predicate Ready()
      reads this
    {
      Valid(View(), policy, clock)
    }

    ghost function View(): Limiter
      reads this
    {
      Limiter(log, spaced, pending, waiters)
    }

    constructor (policy: Policy)
      requires ValidPolicy(policy)
      ensures Ready() && View() == EMPTY && this.policy == policy
    {
      this.policy := policy;
      log, spaced, pending, waiters, clock := [], [], [], [], 0;
    }

    method Prune(now: int)
      requires Ready() && clock <= now
      modifies this
      ensures Ready() && clock == now && View() == RateLimit.Prune(old(View()), policy, now)
    {
      PruneKeeps(View(), policy, clock, now);
      log := LeakLog(log, now, policy.interval);
      if policy.spacing.Some? {
        spaced := LeakLog(spaced, now, policy.spacing.value);
      }
      clock := now;
    }

    method TryReserve(now: int, weight: nat, ticket: Option<nat>, id: nat) returns (granted: Granted)
      requires Ready() && clock <= now && Fresh(View(), id)
      modifies this
      ensures Ready() && clock == if 1 <= weight <= policy.calls then now else old(clock)
      ensures (View(), granted) == RateLimit.TryReserve(old(View()), policy, now, weight, ticket, id)
    {
      ReserveKeeps(View(), policy, clock, now, weight, ticket, id);
      if weight < 1 || weight > policy.calls {
        return WeightError;
      }
      Prune(now);
      if waiters != [] && Some(waiters[0]) != ticket {
        return Wait;
      }
      if policy.spacing.Some? {
        if weight != 1 {
          return WeightError;
        }
        if pending != [] || spaced != [] {
          return Wait;
        }
      }
      var waiting := SumPending(pending);
      if |log| + waiting + weight <= policy.calls {
        pending := pending + [Permit(id, weight)];
        return Reserved(id);
      }
      return Wait;
    }

    /** A permit that is still held always starts; one already used or released never does. */
    method Start(id: nat, now: int) returns (r: StartResult)
      requires Ready() && clock <= now
      modifies this
      ensures Ready() && old(clock) <= clock <= now
      ensures (View(), r) == RateLimit.Start(old(View()), policy, now, id)
      ensures r == if RemainingOf(old(pending), id) >= 1 then Started else AlreadyUsed
    {
      var k := Find(pending, id);
      if k.None? {
        return AlreadyUsed;
      }
      GrantedPermitStarts(View(), policy, clock, now, id);
      SpendAt(pending, k.value);
      Prune(now);
      if !PutAccepts(log, now, policy.calls, policy.interval) {
        return CapacityMissing;
      }
      log := log + [now];
      if policy.spacing.Some? {
        if !PutAccepts(spaced, now, 1, policy.spacing.value) {
          return SpacingMissing;
        }
        spaced := spaced + [now];
      }
      var permit := pending[k.value];
      if permit.remaining == 1 {
        pending := pending[..k.value] + pending[k.value + 1..];
      } else {
        pending := pending[k.value := Permit(id, permit.remaining - 1)];
      }
      return Started;
    }

    method Release(id: nat)
      requires Ready()
      modifies this`pending
      ensures Ready() && View() == RateLimit.Release(old(View()), id)
      ensures RemainingOf(pending, id) == 0
    {
      ReleaseKeeps(View(), policy, clock, id);
      var k := Find(pending, id);
      if k.Some? {
        WithoutAt(pending, k.value);
        pending := pending[..k.value] + pending[k.value + 1..];
      } else {
        Untouched(pending, id);
      }
    }

    /**
     Wait in line for a permit, looking at each given time. The ticket always leaves the line,
     and a caller that gives up at its deadline holds nothing.
     */
    method Acquire(weight: nat, deadline: int, looks: seq<int>, ticket: nat, id: nat)
      returns (granted: bool)
      requires Ready() && ticket !in waiters && Fresh(View(), id)
      requires Sorted(looks) && (looks != [] ==> clock <= looks[0])
      modifies this
      ensures Ready() && waiters == old(waiters)
      ensures pending == if granted then old(pending) + [Permit(id, weight)] else old(pending)
      ensures granted <==>
                old(waiters) == [] && exists i | 0 <= i < |looks| ::
                  looks[i] <= deadline && Room(old(View()), policy, looks[i], weight)
    {
      ghost var line, first := waiters, View();
      waiters := waiters + [ticket];
      granted := false;
      var i := 0;
      var refused := false;
      while i < |looks| && looks[i] <= deadline && !granted && !refused
        invariant 0 <= i <= |looks|
        invariant Ready() && waiters == line + [ticket]
        invariant i < |looks| ==> clock <= looks[i]
        invariant pending == if granted then old(pending) + [Permit(id, weight)] else old(pending)
        invariant granted ==>
                    line == [] && i >= 1 && looks[i - 1] <= deadline && Room(first, policy, looks[i - 1], weight)
        invariant !granted && line == [] ==> forall j | 0 <= j < i :: !Room(first, policy, looks[j], weight)
        invariant !granted && !refused && line == [] ==> SameAhead(first, View(), policy, clock)
        invariant refused && line == [] ==> forall at :: !Room(first, policy, at, weight)
      {
        if line == [] {
          LookDecides(first, View(), policy, clock, looks[i], weight, Some(ticket), id);
        }
        var answer := TryReserve(looks[i], weight, Some(ticket), id);
        granted, refused := answer.Reserved?, answer.WeightError?;
        i := i + 1;
      }
      RemoveLast(line, ticket);
      waiters := RateLimitHistory.RemoveFirst(waiters, ticket);
    }
  }
}
