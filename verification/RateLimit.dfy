/**
 Provider-operation budgets. Pending permits do not age; only a start enters the
 rolling window. Time is in milliseconds, as the underlying bucket keeps it.
 */
module RateLimit {
  import opened Wrappers

  /** One operation's budget: `calls` starts per closed window, optionally paced. */
  datatype Policy = Policy(calls: nat, interval: nat, spacing: Option<nat>)

  datatype Permit = Permit(id: nat, remaining: nat)

  datatype Limiter = Limiter(
    log: seq<int>,
    spaced: seq<int>,
    pending: seq<Permit>,
    waiters: seq<nat>)

  datatype Granted = Reserved(id: nat) | Wait | WeightError

  const EMPTY := Limiter([], [], [], [])

  // ------------------------------------------------------------ the rolling bucket

  /** Drop what is older than the window: stamps at `now - interval` are still inside. */
  function Leak(log: seq<int>, now: int, interval: nat): seq<int> {
    if log != [] && log[0] < now - interval then Leak(log[1..], now, interval) else log
  }

  function InWindow(log: seq<int>, from: int): nat {
    if log == [] then 0 else (if log[0] >= from then 1 else 0) + InWindow(log[1..], from)
  }

  /** The bucket accepts a stamp unless its closed window is already full. */
  predicate PutAccepts(log: seq<int>, now: int, limit: nat, interval: nat) {
    |log| + 1 <= limit || InWindow(log, now - interval) + 1 <= limit
  }

  function TotalPending(pending: seq<Permit>): nat {
    if pending == [] then 0 else pending[0].remaining + TotalPending(pending[1..])
  }

  function RemainingOf(pending: seq<Permit>, id: nat): nat {
    if pending == [] then 0
    else if pending[0].id == id then pending[0].remaining
    else RemainingOf(pending[1..], id)
  }

  /** The permits without the one named `id`. */
  function Without(pending: seq<Permit>, id: nat): seq<Permit> {
    if pending == [] then []
    else if pending[0].id == id then pending[1..]
    else [pending[0]] + Without(pending[1..], id)
  }

  /** One use of a permit; a used-up permit leaves the pending list. */
  function Spend(pending: seq<Permit>, id: nat): seq<Permit> {
    if pending == [] then []
    else if pending[0].id == id then
      (if pending[0].remaining <= 1 then pending[1..]
       else [Permit(id, pending[0].remaining - 1)] + pending[1..])
    else [pending[0]] + Spend(pending[1..], id)
  }

  // ------------------------------------------------------------ operations as values

  function Prune(l: Limiter, p: Policy, now: int): Limiter {
    l.(log := Leak(l.log, now, p.interval),
       spaced := if p.spacing.Some? then Leak(l.spaced, now, p.spacing.value) else l.spaced)
  }

  /** Whether the (pruned) budget can grant `weight` to the holder of `ticket`. */
  function TryReserve(l: Limiter, p: Policy, now: int, weight: nat, ticket: Option<nat>, id: nat): (Limiter, Granted) {
    if weight < 1 || weight > p.calls then (l, WeightError)
    else
      var m := Prune(l, p, now);
      if m.waiters != [] && Some(m.waiters[0]) != ticket then (m, Wait)
      else if p.spacing.Some? && weight != 1 then (m, WeightError)
      else if p.spacing.Some? && (m.pending != [] || m.spaced != []) then (m, Wait)
      else if |m.log| + TotalPending(m.pending) + weight <= p.calls
      then (m.(pending := m.pending + [Permit(id, weight)]), Reserved(id))
      else (m, Wait)
  }

  datatype StartResult = Started | AlreadyUsed | CapacityMissing | SpacingMissing

  /** Commit one permit immediately before the SDK call. */
  function Start(l: Limiter, p: Policy, now: int, id: nat): (Limiter, StartResult) {
    if RemainingOf(l.pending, id) == 0 then (l, AlreadyUsed)
    else
      var m := Prune(l, p, now);
      if !PutAccepts(m.log, now, p.calls, p.interval) then (m, CapacityMissing)
      else
        var n := m.(log := m.log + [now]);
        if p.spacing.Some? && !PutAccepts(m.spaced, now, 1, p.spacing.value) then (n, SpacingMissing)
        else (n.(spaced := if p.spacing.Some? then m.spaced + [now] else m.spaced,
                 pending := Spend(m.pending, id)), Started)
  }

  function Release(l: Limiter, id: nat): Limiter {
    l.(pending := Without(l.pending, id))
  }

  // ------------------------------------------------------------ the invariant

  predicate Sorted(log: seq<int>) {
    forall i, j | 0 <= i < j < |log| :: log[i] <= log[j]
  }

  predicate DistinctPermits(pending: seq<Permit>) {
    && (forall i | 0 <= i < |pending| :: pending[i].remaining >= 1)
    && (forall i, j | 0 <= i < j < |pending| :: pending[i].id != pending[j].id)
  }

  predicate BoundedBy(log: seq<int>, now: int) {
    forall i | 0 <= i < |log| :: log[i] <= now
  }

  predicate ValidPolicy(p: Policy) { p.calls >= 1 }

  /** A paced pool lets at most one permit wait, and only when nothing started recently. */
  predicate PacedOne(l: Limiter, p: Policy) {
    p.spacing.Some? ==>
      && |l.pending| <= 1
      && (|l.pending| == 1 ==> l.pending[0].remaining == 1 && l.spaced == [])
      && |l.spaced| <= 1
  }

  /** Capacity: starts still in the log plus pending weight never exceed the budget. */
  predicate Valid(l: Limiter, p: Policy, now: int) {
    && ValidPolicy(p) && Sorted(l.log) && BoundedBy(l.log, now) && BoundedBy(l.spaced, now)
    && DistinctPermits(l.pending)
    && |l.log| + TotalPending(l.pending) <= p.calls
    && PacedOne(l, p)
  }

  predicate Fresh(l: Limiter, id: nat) {
    forall i | 0 <= i < |l.pending| :: l.pending[i].id != id
  }

  lemma {:induction false} LeakSuffix(log: seq<int>, now: int, interval: nat) returns (k: nat)
    ensures k <= |log| && Leak(log, now, interval) == log[k..]
    ensures forall i | 0 <= i < k :: log[i] < now - interval
    ensures k < |log| ==> log[k] >= now - interval
  {
    if log != [] && log[0] < now - interval {
      var m := LeakSuffix(log[1..], now, interval);
      k := m + 1;
      forall i | 0 <= i < k
        ensures log[i] < now - interval
      {
        assert i > 0 ==> log[i] == log[1..][i - 1];
      }
    } else {
      k := 0;
    }
  }

  lemma {:induction false} LeakKeepsCount(log: seq<int>, now: int, interval: nat, from: int)
    requires from >= now - interval
    ensures InWindow(Leak(log, now, interval), from) == InWindow(log, from)
  {
    if log != [] && log[0] < now - interval {
      LeakKeepsCount(log[1..], now, interval, from);
    }
  }

  lemma {:induction false} LeakCounts(log: seq<int>, now: int, interval: nat)
    requires Sorted(log)
    ensures |Leak(log, now, interval)| == InWindow(log, now - interval)
  {
    if log != [] {
      if log[0] < now - interval {
        LeakCounts(log[1..], now, interval);
      } else {
        AllInWindow(log, now - interval);
      }
    }
  }

  lemma {:induction false} AllInWindow(log: seq<int>, from: int)
    requires forall i | 0 <= i < |log| :: log[i] >= from
    ensures InWindow(log, from) == |log|
  {
    if log != [] {
      AllInWindow(log[1..], from);
    }
  }

  /** The window that ends now has room for `weight` more starts, counted without pruning anything. */
  predicate Room(l: Limiter, p: Policy, now: int, weight: nat) {
    && 1 <= weight <= p.calls
    && InWindow(l.log, now - p.interval) + TotalPending(l.pending) + weight <= p.calls
    && (p.spacing.Some? ==>
          weight == 1 && l.pending == [] && InWindow(l.spaced, now - p.spacing.value) == 0)
  }

  /** At the head of the line, a reservation is granted exactly when there is room. */
  lemma GrantedWithRoom(l: Limiter, p: Policy, before: int, now: int, weight: nat, ticket: Option<nat>, id: nat)
    requires Valid(l, p, before) && before <= now && (l.waiters == [] || Some(l.waiters[0]) == ticket)
    ensures TryReserve(l, p, now, weight, ticket, id).1.Reserved? <==> Room(l, p, now, weight)
    ensures TryReserve(l, p, now, weight, ticket, id).1.WeightError? ==> forall at :: !Room(l, p, at, weight)
  {
    LeakCounts(l.log, now, p.interval);
    if p.spacing.Some? {
      LeakCounts(l.spaced, now, p.spacing.value);
    }
  }

  /** Nothing a refused look forgets could count at a later one. */
  ghost predicate SameAhead(l: Limiter, m: Limiter, p: Policy, now: int) {
    && m.pending == l.pending
    && (forall from | from >= now - p.interval :: InWindow(m.log, from) == InWindow(l.log, from))
    && (p.spacing.Some? ==>
          forall from | from >= now - p.spacing.value :: InWindow(m.spaced, from) == InWindow(l.spaced, from))
  }

  lemma PruneForgetsNothing(first: Limiter, l: Limiter, p: Policy, before: int, now: int)
    requires SameAhead(first, l, p, before) && before <= now
    ensures SameAhead(first, Prune(l, p, now), p, now)
  {
    forall from | from >= now - p.interval
      ensures InWindow(Leak(l.log, now, p.interval), from) == InWindow(first.log, from)
    {
      LeakKeepsCount(l.log, now, p.interval, from);
    }
    if p.spacing.Some? {
      forall from | from >= now - p.spacing.value
        ensures InWindow(Leak(l.spaced, now, p.spacing.value), from) == InWindow(first.spaced, from)
      {
        LeakKeepsCount(l.spaced, now, p.spacing.value, from);
      }
    }
  }

  /** One look of a caller that is first in line, judged by what the limiter held at its first look. */
  lemma LookDecides(first: Limiter, l: Limiter, p: Policy, before: int, now: int, weight: nat,
                    ticket: Option<nat>, id: nat)
    requires Valid(l, p, before) && before <= now && SameAhead(first, l, p, before)
    requires l.waiters == [] || Some(l.waiters[0]) == ticket
    ensures var (m, r) := TryReserve(l, p, now, weight, ticket, id);
            && (r.Reserved? <==> Room(first, p, now, weight))
            && (r.WeightError? ==> forall at :: !Room(first, p, at, weight))
            && (r.Wait? ==> SameAhead(first, m, p, now))
  {
    GrantedWithRoom(l, p, before, now, weight, ticket, id);
    PruneForgetsNothing(first, l, p, before, now);
  }

  lemma PruneKeeps(l: Limiter, p: Policy, before: int, now: int)
    requires Valid(l, p, before) && before <= now
    ensures Valid(Prune(l, p, now), p, now)
  {
    var k := LeakSuffix(l.log, now, p.interval);
    if p.spacing.Some? {
      var m := LeakSuffix(l.spaced, now, p.spacing.value);
    }
  }

  lemma {:induction false} TotalAppend(pending: seq<Permit>, last: Permit)
    ensures TotalPending(pending + [last]) == TotalPending(pending) + last.remaining
  {
    if pending != [] {
      assert (pending + [last])[1..] == pending[1..] + [last];
      TotalAppend(pending[1..], last);
    } else {
      assert pending + [last] == [last];
    }
  }

  lemma {:induction false} RemainingBounds(pending: seq<Permit>, id: nat)
    ensures RemainingOf(pending, id) <= TotalPending(pending)
    ensures (forall i | 0 <= i < |pending| :: pending[i].id != id) ==> RemainingOf(pending, id) == 0
  {
    if pending != [] {
      RemainingBounds(pending[1..], id);
    }
  }

  lemma {:induction false} SpendEffect(pending: seq<Permit>, id: nat, other: nat)
    requires DistinctPermits(pending) && RemainingOf(pending, id) >= 1
    ensures TotalPending(Spend(pending, id)) == TotalPending(pending) - 1
    ensures DistinctPermits(Spend(pending, id))
    ensures |Spend(pending, id)| <= |pending|
    ensures RemainingOf(Spend(pending, id), other)
            == RemainingOf(pending, other) - (if other == id then 1 else 0)
    ensures forall k | 0 <= k < |Spend(pending, id)| ::
              exists m | 0 <= m < |pending| :: pending[m].id == Spend(pending, id)[k].id
    ensures |pending| == 1 && pending[0].remaining == 1 ==> Spend(pending, id) == []
  {
    var head, tail := pending[0], pending[1..];
    if head.id == id {
      RemainingBounds(tail, id);
    } else {
      assert DistinctPermits(tail);
      SpendEffect(tail, id, other);
      var rest := Spend(tail, id);
      forall k | 0 <= k < |rest|
        ensures rest[k].id != head.id
      {
        var m :| 0 <= m < |tail| && tail[m].id == rest[k].id;
        assert pending[m + 1] == tail[m];
      }
      forall k | 0 <= k < |Spend(pending, id)|
        ensures exists m | 0 <= m < |pending| :: pending[m].id == Spend(pending, id)[k].id
      {
        if k > 0 {
          var m :| 0 <= m < |tail| && tail[m].id == rest[k - 1].id;
          assert pending[m + 1].id == Spend(pending, id)[k].id;
        } else {
          assert pending[0].id == Spend(pending, id)[0].id;
        }
      }
    }
  }

  lemma {:induction false} WithoutEffect(pending: seq<Permit>, id: nat, other: nat)
    requires DistinctPermits(pending)
    ensures TotalPending(Without(pending, id)) == TotalPending(pending) - RemainingOf(pending, id)
    ensures DistinctPermits(Without(pending, id)) && |Without(pending, id)| <= |pending|
    ensures RemainingOf(Without(pending, id), other) == if other == id then 0 else RemainingOf(pending, other)
    ensures forall k | 0 <= k < |Without(pending, id)| ::
              exists m | 0 <= m < |pending| :: pending[m] == Without(pending, id)[k]
  {
    if pending != [] {
      var head, tail := pending[0], pending[1..];
      if head.id == id {
        RemainingBounds(tail, id);
      } else {
        assert DistinctPermits(tail);
        WithoutEffect(tail, id, other);
        var rest := Without(tail, id);
        forall k | 0 <= k < |Without(pending, id)|
          ensures exists m | 0 <= m < |pending| :: pending[m] == Without(pending, id)[k]
        {
          if k > 0 {
            var m :| 0 <= m < |tail| && tail[m] == rest[k - 1];
            assert pending[m + 1] == Without(pending, id)[k];
          } else {
            assert pending[0] == Without(pending, id)[0];
          }
        }
      }
    }
  }

  lemma ReserveKeeps(l: Limiter, p: Policy, before: int, now: int, weight: nat, ticket: Option<nat>, id: nat)
    requires Valid(l, p, before) && before <= now && Fresh(l, id)
    ensures Valid(TryReserve(l, p, now, weight, ticket, id).0, p, now)
  {
    PruneKeeps(l, p, before, now);
    var m := Prune(l, p, now);
    TotalAppend(m.pending, Permit(id, weight));
  }

  /** A granted permit starts, whenever it is used and whatever happened in between. */
  lemma GrantedPermitStarts(l: Limiter, p: Policy, before: int, now: int, id: nat)
    requires Valid(l, p, before) && before <= now && RemainingOf(l.pending, id) >= 1
    ensures Start(l, p, now, id).1 == Started
    ensures Valid(Start(l, p, now, id).0, p, now)
    ensures forall other {:trigger RemainingOf(l.pending, other)} ::
              RemainingOf(Start(l, p, now, id).0.pending, other)
              == RemainingOf(l.pending, other) - (if other == id then 1 else 0)
  {
    PruneKeeps(l, p, before, now);
    var m := Prune(l, p, now);
    RemainingBounds(m.pending, id);
    SpendEffect(m.pending, id, id);
    forall other
      ensures RemainingOf(Spend(m.pending, id), other)
              == RemainingOf(m.pending, other) - (if other == id then 1 else 0)
    {
      SpendEffect(m.pending, id, other);
    }
  }

  lemma ReleaseKeeps(l: Limiter, p: Policy, now: int, id: nat)
    requires Valid(l, p, now)
    ensures Valid(Release(l, id), p, now)
    ensures Release(Release(l, id), id) == Release(l, id)
    ensures RemainingOf(Release(l, id).pending, id) == 0
    ensures TotalPending(Release(l, id).pending) == TotalPending(l.pending) - RemainingOf(l.pending, id)
  {
    WithoutEffect(l.pending, id, id);
    ReleaseTwice(l.pending, id);
  }

  lemma {:induction false} ReleaseTwice(pending: seq<Permit>, id: nat)
    requires DistinctPermits(pending)
    ensures Without(Without(pending, id), id) == Without(pending, id)
  {
    if pending != [] {
      var head, tail := pending[0], pending[1..];
      if head.id == id {
        Untouched(tail, id);
      } else {
        assert DistinctPermits(tail);
        ReleaseTwice(tail, id);
        assert Without(pending, id)[1..] == Without(tail, id);
      }
    }
  }

  lemma {:induction false} Untouched(pending: seq<Permit>, id: nat)
    requires forall i | 0 <= i < |pending| :: pending[i].id != id
    ensures Without(pending, id) == pending
  {
    if pending != [] {
      Untouched(pending[1..], id);
    }
  }
}
