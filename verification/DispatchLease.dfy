/**
 One protected mutation under a dispatch lease, interleaved with every other caller
 of the same pools and with a caller that cancels the lease at any moment.
 */
module DispatchLease {
  import opened Wrappers
  import opened RateLimit
  import RateLimitHistory
  import ProviderRequestLimiter
  import opened BrokerDispatch

  type Pools = map<PoolKey, Limiter>

  /** Permits handed to a worker; cancellation takes back those not protected. */
  datatype Lease = Lease(slots: map<PoolKey, nat>, closed: bool, cancelled: bool, protected: set<PoolKey>)

  datatype Refusal = Cancelled | Quota | NotAvailable

  function Pool(pools: Pools, key: PoolKey): Limiter {
    if key in pools then pools[key] else EMPTY
  }

  function Left(pools: Pools, key: PoolKey, id: nat): nat {
    RemainingOf(Pool(pools, key).pending, id)
  }

  // ------------------------------------------------------------ any caller of a pool

  datatype PoolOp =
    | Reserves(weight: nat, ticket: Option<nat>)
    | Starts(id: nat)
    | Releases(id: nat)
    | Waits(waiters: seq<nat>)

  function Applied(l: Limiter, p: Policy, at: int, next: nat, op: PoolOp): Limiter {
    match op
    case Reserves(weight, ticket) => TryReserve(l, p, at, weight, ticket, next).0
    case Starts(id) => RateLimit.Start(l, p, at, id).0
    case Releases(id) => RateLimit.Release(l, id)
    case Waits(waiters) => l.(waiters := waiters)
  }

  predicate Foreign(op: PoolOp, mine: set<nat>) {
    (op.Starts? || op.Releases?) ==> op.id !in mine
  }

  /** Every permit was numbered before `next`. */
  predicate Numbered(l: Limiter, next: nat) {
    forall i | 0 <= i < |l.pending| :: l.pending[i].id < next
  }

  lemma ReservesKeeps(l: Limiter, p: Policy, before: int, at: int, next: nat, weight: nat, ticket: Option<nat>)
    requires Valid(l, p, before) && before <= at && Numbered(l, next)
    ensures var m := TryReserve(l, p, at, weight, ticket, next).0;
            Valid(m, p, at) && Numbered(m, next + 1)
    ensures forall id: nat {:trigger RemainingOf(l.pending, id)} | id < next ::
              RemainingOf(TryReserve(l, p, at, weight, ticket, next).0.pending, id) == RemainingOf(l.pending, id)
    ensures TryReserve(l, p, at, weight, ticket, next).1.Reserved? ==>
              RemainingOf(TryReserve(l, p, at, weight, ticket, next).0.pending, next) == weight
  {
    ReserveKeeps(l, p, before, at, weight, ticket, next);
    forall id: nat
      ensures RemainingOf(l.pending + [Permit(next, weight)], id)
              == if id == next then weight else RemainingOf(l.pending, id)
    {
      RateLimitHistory.RemainingAppend(l.pending, Permit(next, weight), id);
    }
  }

  lemma StartsKeeps(l: Limiter, p: Policy, before: int, at: int, next: nat, id: nat)
    requires Valid(l, p, before) && before <= at && Numbered(l, next)
    ensures var m := RateLimit.Start(l, p, at, id).0;
            Valid(m, p, at) && Numbered(m, next)
    ensures forall other {:trigger RemainingOf(l.pending, other)} | other != id ::
              RemainingOf(RateLimit.Start(l, p, at, id).0.pending, other) == RemainingOf(l.pending, other)
    ensures RemainingOf(l.pending, id) >= 1 ==>
              && RateLimit.Start(l, p, at, id).1 == Started
              && RemainingOf(RateLimit.Start(l, p, at, id).0.pending, id) == RemainingOf(l.pending, id) - 1
  {
    if RemainingOf(l.pending, id) >= 1 {
      GrantedPermitStarts(l, p, before, at, id);
      SpendEffect(l.pending, id, id);
    } else {
      RateLimitHistory.ValidLater(l, p, before, at);
    }
  }

  lemma ReleasesKeeps(l: Limiter, p: Policy, before: int, at: int, next: nat, id: nat)
    requires Valid(l, p, before) && before <= at && Numbered(l, next)
    ensures Valid(RateLimit.Release(l, id), p, at) && Numbered(RateLimit.Release(l, id), next)
    ensures forall other {:trigger RemainingOf(l.pending, other)} ::
              RemainingOf(RateLimit.Release(l, id).pending, other)
              == if other == id then 0 else RemainingOf(l.pending, other)
  {
    RateLimitHistory.ValidLater(l, p, before, at);
    ReleaseKeeps(l, p, at, id);
    WithoutEffect(l.pending, id, id);
    forall other
      ensures RemainingOf(Without(l.pending, id), other) == if other == id then 0 else RemainingOf(l.pending, other)
    {
      WithoutEffect(l.pending, id, other);
    }
  }

  /** Whatever another caller does, a permit that is not its own keeps its weight. */
  lemma ForeignOpKeeps(l: Limiter, p: Policy, before: int, at: int, next: nat, op: PoolOp, mine: set<nat>)
    requires Valid(l, p, before) && before <= at && Numbered(l, next) && Foreign(op, mine)
    ensures Valid(Applied(l, p, at, next, op), p, at) && Numbered(Applied(l, p, at, next, op), next + 1)
    ensures forall id | id in mine && id < next ::
              RemainingOf(Applied(l, p, at, next, op).pending, id) == RemainingOf(l.pending, id)
  {
    match op
    case Reserves(weight, ticket) => ReservesKeeps(l, p, before, at, next, weight, ticket);
    case Starts(id) => StartsKeeps(l, p, before, at, next, id);
    case Releases(id) => ReleasesKeeps(l, p, before, at, next, id);
    case Waits(_) => RateLimitHistory.ValidLater(l, p, before, at);
  }

  // ------------------------------------------------------------ the mutation and its lease

  /** A bundle of permits, and the calls it has to last for. */
  datatype Job = Job(bundle: map<PoolKey, nat>, order: seq<PoolKey>, calls: seq<PoolKey>)

  function Count(calls: seq<PoolKey>, key: PoolKey): nat {
    if calls == [] then 0
    else Count(calls[..|calls| - 1], key) + (if calls[|calls| - 1] == key then 1 else 0)
  }

  predicate Enough(job: Job) {
    && (forall key | key in job.bundle :: key in job.order)
    && (forall i | 0 <= i < |job.order| :: job.order[i] in job.bundle)
    && (forall i | 0 <= i < |job.calls| :: job.calls[i] in job.bundle)
    && (forall key | key in job.bundle :: Count(job.calls, key) <= job.bundle[key])
  }

  datatype Stage = Reserving(done: nat) | Protected(used: nat) | Refused(why: Refusal) | Finished

  datatype World = World(
    pools: Pools,
    now: int,
    next: nat,
    lease: Option<Lease>,
    slots: map<PoolKey, nat>,
    owned: map<PoolKey, nat>,
    mine: set<nat>,
    stage: Stage)

  datatype Act =
    | Other(key: PoolKey, at: int, op: PoolOp)
    | ReserveNext(at: int)
    | Protect
    | CallNext(at: int)
    | CancelLease
    | Finish
    | CloseLease

  predicate Enabled(w: World, job: Job, a: Act) {
    match a
    case Other(_, at, op) => w.now <= at && Foreign(op, w.mine)
    case ReserveNext(at) => w.now <= at && w.stage.Reserving? && w.stage.done < |job.order|
    case Protect => w.stage.Reserving? && w.stage.done == |job.order|
    case CallNext(at) => w.now <= at && w.stage.Protected? && w.stage.used < |job.calls|
    case CancelLease => w.lease.Some?
    case Finish => w.stage.Protected? || w.stage.Refused?
    case CloseLease => w.stage.Finished? && w.lease.Some?
  }

  /** Borrow the permit already held, or reserve another one. */
  function Borrow(w: World, at: int, key: PoolKey, weight: nat): (World, bool) {
    if key in w.slots && Left(w.pools, key, w.slots[key]) >= weight then (w.(now := at), true)
    else
      var (l, r) := TryReserve(Pool(w.pools, key), Budget(key), at, weight, None, w.next);
      var v := w.(pools := w.pools[key := l], now := at, next := w.next + 1);
      if r.Reserved?
      then (v.(slots := w.slots[key := w.next], owned := w.owned[key := w.next], mine := w.mine + {w.next}), true)
      else (v, false)
  }

  predicate LeaseRefuses(lease: Option<Lease>, key: PoolKey) {
    lease.Some? && lease.value.cancelled && key !in lease.value.protected
  }

  /** One SDK call: its permit starts under the lease immediately before the request. */
  function Call(w: World, at: int, key: PoolKey): (World, Option<Refusal>) {
    var (v, ok) := Borrow(w, at, key, 1);
    if !ok then (v, Some(Quota))
    else if LeaseRefuses(v.lease, key) then (v, Some(Cancelled))
    else
      var (l, r) := RateLimit.Start(Pool(v.pools, key), Budget(key), at, v.slots[key]);
      (v.(pools := v.pools[key := l]), if r.Started? then None else Some(NotAvailable))
  }

  /** Cancelling takes back every permit that is not protected. */
  function Reclaimed(pools: Pools, lease: Lease): Pools {
    Released(pools, lease.slots - lease.protected)
  }

  function Released(pools: Pools, slots: map<PoolKey, nat>): Pools {
    map key | key in pools ::
      if key in slots then RateLimit.Release(pools[key], slots[key]) else pools[key]
  }

  function After(w: World, job: Job, a: Act): World
    requires Enabled(w, job, a)
  {
    match a
    case Other(key, at, op) =>
      w.(pools := w.pools[key := Applied(Pool(w.pools, key), Budget(key), at, w.next, op)],
         now := at, next := w.next + 1)
    case ReserveNext(at) =>
      var key := job.order[w.stage.done];
      if key !in job.bundle then w
      else
        var (v, ok) := Borrow(w, at, key, job.bundle[key]);
        v.(stage := if ok then Reserving(w.stage.done + 1) else Refused(Quota))
    case Protect =>
      if w.lease.Some? && w.lease.value.cancelled then w.(stage := Refused(Cancelled))
      else
        w.(lease := if w.lease.Some?
                    then Some(w.lease.value.(protected := w.lease.value.protected + job.bundle.Keys))
                    else None,
           stage := Protected(0))
    case CallNext(at) =>
      var (v, refusal) := Call(w, at, job.calls[w.stage.used]);
      v.(stage := if refusal.None? then Protected(w.stage.used + 1) else Refused(refusal.value))
    case CancelLease =>
      var cancelled := w.lease.value.(cancelled := true);
      w.(pools := Reclaimed(w.pools, cancelled), lease := Some(cancelled))
    case Finish =>
      w.(pools := Released(w.pools, w.owned),
         lease := if w.lease.Some?
                  then Some(w.lease.value.(protected := w.lease.value.protected - job.bundle.Keys))
                  else None,
         stage := Finished)
    case CloseLease =>
      w.(pools := Released(w.pools, w.lease.value.slots), lease := Some(w.lease.value.(closed := true)))
  }

  // ------------------------------------------------------------ the invariant

  predicate PoolsValid(pools: Pools, now: int, next: nat) {
    forall key | key in pools :: Valid(pools[key], Budget(key), now) && Numbered(pools[key], next)
  }

  predicate OwnIds(w: World) {
    && (forall id | id in w.mine :: id < w.next)
    && (forall key | key in w.slots :: w.slots[key] in w.mine)
    && (forall key | key in w.owned :: w.owned[key] in w.mine)
    && (w.lease.Some? ==> forall key | key in w.lease.value.slots :: w.lease.value.slots[key] in w.mine)
  }

  predicate Live(lease: Option<Lease>) {
    lease.Some? ==> !lease.value.cancelled
  }

  predicate Holds(w: World, key: PoolKey, weight: int) {
    key in w.slots && Left(w.pools, key, w.slots[key]) >= weight
  }

  predicate Stocked(w: World, job: Job)
    requires Enough(job)
  {
    match w.stage
    case Reserving(done) =>
      && done <= |job.order|
      && (Live(w.lease) ==>
            forall i | 0 <= i < done :: Holds(w, job.order[i], job.bundle[job.order[i]]))
    case Protected(used) =>
      && used <= |job.calls|
      && (w.lease.Some? ==> job.bundle.Keys <= w.lease.value.protected)
      && (forall key | key in job.bundle :: Holds(w, key, job.bundle[key] - Count(job.calls[..used], key)))
    case _ => true
  }

  predicate Inv(w: World, job: Job)
    requires Enough(job)
  {
    PoolsValid(w.pools, w.now, w.next) && OwnIds(w) && Stocked(w, job)
  }

  predicate Begins(w: World) {
    PoolsValid(w.pools, w.now, w.next) && OwnIds(w) && w.stage == Reserving(0)
  }

  lemma PoolValid(pools: Pools, now: int, next: nat, key: PoolKey)
    requires PoolsValid(pools, now, next)
    ensures Valid(Pool(pools, key), Budget(key), now) && Numbered(Pool(pools, key), next)
  {
  }

  lemma PoolUpdated(pools: Pools, now: int, at: int, next: nat, later: nat, key: PoolKey, l: Limiter)
    requires PoolsValid(pools, now, next) && now <= at && next <= later
    requires Valid(l, Budget(key), at) && Numbered(l, later)
    ensures PoolsValid(pools[key := l], at, later)
  {
    forall other | other in pools && other != key
      ensures Valid(pools[other], Budget(other), at)
    {
      RateLimitHistory.ValidLater(pools[other], Budget(other), now, at);
    }
  }

  lemma PoolsLater(pools: Pools, now: int, at: int, next: nat)
    requires PoolsValid(pools, now, next) && now <= at
    ensures PoolsValid(pools, at, next)
  {
    forall key | key in pools
      ensures Valid(pools[key], Budget(key), at)
    {
      RateLimitHistory.ValidLater(pools[key], Budget(key), now, at);
    }
  }

  /** The mutation's own permits weigh the same before and after. */
  ghost predicate SameOwn(before: Pools, after: Pools, mine: set<nat>) {
    forall key, id {:trigger Left(after, key, id)} | id in mine :: Left(after, key, id) == Left(before, key, id)
  }

  lemma OtherStep(w: World, job: Job, a: Act)
    requires Enough(job) && Inv(w, job) && Enabled(w, job, a) && a.Other?
    ensures Inv(After(w, job, a), job) && SameOwn(w.pools, After(w, job, a).pools, w.mine)
  {
    var l := Pool(w.pools, a.key);
    PoolValid(w.pools, w.now, w.next, a.key);
    ForeignOpKeeps(l, Budget(a.key), w.now, a.at, w.next, a.op, w.mine);
    var m := Applied(l, Budget(a.key), a.at, w.next, a.op);
    PoolUpdated(w.pools, w.now, a.at, w.next, w.next + 1, a.key, m);
    assert SameOwn(w.pools, After(w, job, a).pools, w.mine);
  }

  /** Borrowing a permit touches none of the mutation's other permits. */
  lemma BorrowKeeps(w: World, at: int, key: PoolKey, weight: nat)
    requires PoolsValid(w.pools, w.now, w.next) && OwnIds(w) && w.now <= at
    ensures var (v, ok) := Borrow(w, at, key, weight);
            && PoolsValid(v.pools, v.now, v.next) && OwnIds(v) && v.now == at
            && v.lease == w.lease && v.stage == w.stage
            && SameOwn(w.pools, v.pools, w.mine)
            && (forall other | other in w.slots && other != key :: other in v.slots && v.slots[other] == w.slots[other])
            && (ok ==> Holds(v, key, weight))
  {
    if Holds(w, key, weight) {
      PoolsLater(w.pools, w.now, at, w.next);
    } else {
      NewPermit(w.pools, w.now, at, w.next, w.mine, key, weight);
    }
  }

  lemma NewPermit(pools: Pools, now: int, at: int, next: nat, mine: set<nat>, key: PoolKey, weight: nat)
    requires PoolsValid(pools, now, next) && now <= at && (forall id | id in mine :: id < next)
    ensures var (m, r) := TryReserve(Pool(pools, key), Budget(key), at, weight, None, next);
            && PoolsValid(pools[key := m], at, next + 1)
            && SameOwn(pools, pools[key := m], mine)
            && (r.Reserved? ==> Left(pools[key := m], key, next) == weight)
  {
    PoolValid(pools, now, next, key);
    var l := Pool(pools, key);
    ReservesKeeps(l, Budget(key), now, at, next, weight, None);
    var m := TryReserve(l, Budget(key), at, weight, None, next).0;
    PoolUpdated(pools, now, at, next, next + 1, key, m);
    forall other, id | id in mine
      ensures Left(pools[key := m], other, id) == Left(pools, other, id)
    {
      if other == key {
        assert RemainingOf(l.pending, id) == Left(pools, other, id);
      }
    }
  }

  lemma ReserveStep(w: World, job: Job, a: Act)
    requires Enough(job) && Inv(w, job) && Enabled(w, job, a) && a.ReserveNext?
    ensures Inv(After(w, job, a), job)
  {
    var key := job.order[w.stage.done];
    var v := Borrow(w, a.at, key, job.bundle[key]).0;
    BorrowKeeps(w, a.at, key, job.bundle[key]);
    if After(w, job, a).stage.Reserving? && Live(w.lease) {
      forall i | 0 <= i < w.stage.done + 1
        ensures Holds(v, job.order[i], job.bundle[job.order[i]])
      {
        if job.order[i] != key {
          assert Holds(w, job.order[i], job.bundle[job.order[i]]);
        }
      }
    }
  }

  lemma ProtectStep(w: World, job: Job)
    requires Enough(job) && Inv(w, job) && Enabled(w, job, Protect)
    ensures Inv(After(w, job, Protect), job)
  {
    if Live(w.lease) {
      forall key | key in job.bundle
        ensures Holds(w, key, job.bundle[key])
      {
        var i :| 0 <= i < |job.order| && job.order[i] == key;
      }
      assert job.calls[..0] == [];
    }
  }

  lemma {:induction false} CountPrefix(calls: seq<PoolKey>, k: nat, key: PoolKey)
    requires k <= |calls|
    ensures Count(calls[..k], key) <= Count(calls, key)
    decreases |calls| - k
  {
    if k < |calls| {
      CountPrefix(calls, k + 1, key);
      assert calls[..k + 1][..k] == calls[..k];
    } else {
      assert calls[..k] == calls;
    }
  }

  lemma CountNext(calls: seq<PoolKey>, k: nat, key: PoolKey)
    requires k < |calls|
    ensures Count(calls[..k + 1], key) == Count(calls[..k], key) + (if calls[k] == key then 1 else 0)
  {
    assert calls[..k + 1][..k] == calls[..k];
  }

  /** Under protection the next call always starts, on a permit the mutation already holds. */
  lemma ProtectedCallStarts(w: World, job: Job, at: int)
    requires Enough(job) && Inv(w, job) && w.now <= at
    requires w.stage.Protected? && w.stage.used < |job.calls|
    ensures var key := job.calls[w.stage.used];
            && Holds(w, key, 1)
            && Call(w, at, key).1 == None
            && Call(w, at, key).0.next == w.next && Call(w, at, key).0.slots == w.slots
  {
    var key := job.calls[w.stage.used];
    CountNext(job.calls, w.stage.used, key);
    CountPrefix(job.calls, w.stage.used + 1, key);
    PoolValid(w.pools, w.now, w.next, key);
    StartsKeeps(Pool(w.pools, key), Budget(key), w.now, at, w.next, w.slots[key]);
  }

  lemma CallStep(w: World, job: Job, a: Act)
    requires Enough(job) && Inv(w, job) && Enabled(w, job, a) && a.CallNext?
    ensures Inv(After(w, job, a), job)
  {
    var key := job.calls[w.stage.used];
    ProtectedCallStarts(w, job, a.at);
    StartedPermit(w.pools, w.now, a.at, w.next, key, w.slots[key]);
    var v := After(w, job, a);
    forall other | other in job.bundle
      ensures Holds(v, other, job.bundle[other] - Count(job.calls[..w.stage.used + 1], other))
    {
      CountNext(job.calls, w.stage.used, other);
      assert Holds(w, other, job.bundle[other] - Count(job.calls[..w.stage.used], other));
    }
  }

  lemma StartedPermit(pools: Pools, now: int, at: int, next: nat, key: PoolKey, id: nat)
    requires PoolsValid(pools, now, next) && now <= at && Left(pools, key, id) >= 1
    ensures var m := RateLimit.Start(Pool(pools, key), Budget(key), at, id).0;
            && PoolsValid(pools[key := m], at, next)
            && Left(pools[key := m], key, id) == Left(pools, key, id) - 1
            && forall k, i {:trigger Left(pools[key := m], k, i)} :: Left(pools[key := m], k, i) <= Left(pools, k, i)
  {
    PoolValid(pools, now, next, key);
    StartsKeeps(Pool(pools, key), Budget(key), now, at, next, id);
    var m := RateLimit.Start(Pool(pools, key), Budget(key), at, id).0;
    PoolUpdated(pools, now, at, next, next, key, m);
    forall k, i: nat
      ensures Left(pools[key := m], k, i) <= Left(pools, k, i)
    {
      if k == key {
        assert RemainingOf(Pool(pools, key).pending, i) == Left(pools, k, i);
      }
    }
  }

  lemma ReleasedKeeps(pools: Pools, now: int, next: nat, slots: map<PoolKey, nat>)
    requires PoolsValid(pools, now, next)
    ensures PoolsValid(Released(pools, slots), now, next)
    ensures forall key, id {:trigger Left(Released(pools, slots), key, id)} ::
              Left(Released(pools, slots), key, id)
              == if key in slots && slots[key] == id then 0 else Left(pools, key, id)
  {
    var after := Released(pools, slots);
    forall key | key in pools && key in slots
      ensures Valid(after[key], Budget(key), now) && Numbered(after[key], next)
    {
      ReleasesKeeps(pools[key], Budget(key), now, now, next, slots[key]);
    }
    forall key, id: nat
      ensures Left(after, key, id) == if key in slots && slots[key] == id then 0 else Left(pools, key, id)
    {
      if key in pools && key in slots {
        ReleasesKeeps(pools[key], Budget(key), now, now, next, slots[key]);
        assert RemainingOf(pools[key].pending, id) == Left(pools, key, id);
      }
    }
  }

  lemma CancelStep(w: World, job: Job)
    requires Enough(job) && Inv(w, job) && Enabled(w, job, CancelLease)
    ensures Inv(After(w, job, CancelLease), job)
  {
    var lease := w.lease.value;
    ReleasedKeeps(w.pools, w.now, w.next, lease.slots - lease.protected);
    assert forall key | key in lease.protected :: Pool(Reclaimed(w.pools, lease), key) == Pool(w.pools, key);
  }

  lemma FinishStep(w: World, job: Job)
    requires Enough(job) && Inv(w, job)
    ensures Enabled(w, job, Finish) ==> Inv(After(w, job, Finish), job)
    ensures Enabled(w, job, CloseLease) ==> Inv(After(w, job, CloseLease), job)
  {
    ReleasedKeeps(w.pools, w.now, w.next, w.owned);
    if w.lease.Some? {
      ReleasedKeeps(w.pools, w.now, w.next, w.lease.value.slots);
    }
  }

  lemma StepKeeps(w: World, job: Job, a: Act)
    requires Enough(job) && Inv(w, job) && Enabled(w, job, a)
    ensures Inv(After(w, job, a), job)
  {
    match a
    case Other(_, _, _) => OtherStep(w, job, a);
    case ReserveNext(_) => ReserveStep(w, job, a);
    case Protect => ProtectStep(w, job);
    case CallNext(_) => CallStep(w, job, a);
    case CancelLease => CancelStep(w, job);
    case Finish => FinishStep(w, job);
    case CloseLease => FinishStep(w, job);
  }

  predicate Runs(w: World, job: Job, acts: seq<Act>)
    decreases |acts|, 0
  {
    acts == [] ||
    (var n := |acts| - 1; Runs(w, job, acts[..n]) && Enabled(Exec(w, job, acts[..n]), job, acts[n]))
  }

  function Exec(w: World, job: Job, acts: seq<Act>): World
    requires Runs(w, job, acts)
    decreases |acts|, 1
  {
    if acts == [] then w
    else var n := |acts| - 1; After(Exec(w, job, acts[..n]), job, acts[n])
  }

  lemma {:induction false} RunKeeps(w: World, job: Job, acts: seq<Act>)
    requires Enough(job) && Begins(w) && Runs(w, job, acts)
    ensures Inv(Exec(w, job, acts), job)
  {
    if acts != [] {
      RunKeeps(w, job, acts[..|acts| - 1]);
      StepKeeps(Exec(w, job, acts[..|acts| - 1]), job, acts[|acts| - 1]);
    }
  }

  // ------------------------------------------------------------ what a protected mutation can rely on

  /**
   From the moment protection is granted, whatever other callers reserve and whenever the lease
   is cancelled, no call of the mutation is refused for quota, for cancellation or otherwise.
   */
  lemma {:induction false} ProtectedNeverRefused(w: World, job: Job, before: seq<Act>, rest: seq<Act>)
    requires Enough(job) && Begins(w) && Runs(w, job, before + rest) && Runs(w, job, before)
    requires Exec(w, job, before).stage.Protected?
    ensures !Exec(w, job, before + rest).stage.Refused?
    ensures !Exec(w, job, before + rest).stage.Reserving?
    decreases |rest|
  {
    if rest == [] {
      assert before + rest == before;
    } else {
      var n := |rest| - 1;
      assert (before + rest)[..|before| + n] == before + rest[..n];
      ProtectedNeverRefused(w, job, before, rest[..n]);
      RunKeeps(w, job, before + rest[..n]);
      var v := Exec(w, job, before + rest[..n]);
      var a := rest[n];
      assert a == (before + rest)[|before| + n];
      if a.CallNext? {
        ProtectedCallStarts(v, job, a.at);
      }
    }
  }

  /** The mutation is past its reservations, or already holds all of its bundle under a live lease. */
  predicate Provided(w: World, job: Job) {
    && !w.stage.Refused?
    && (w.stage.Reserving? ==>
          Live(w.lease) && forall key | key in job.bundle :: Holds(w, key, job.bundle[key]))
  }

  lemma ProvidedStep(w: World, job: Job, a: Act)
    requires Enough(job) && Inv(w, job) && Enabled(w, job, a) && Provided(w, job)
    requires a.CancelLease? ==> !w.stage.Reserving?
    ensures Provided(After(w, job, a), job)
  {
    match a
    case Other(_, _, _) =>
      OtherStep(w, job, a);
      forall key | key in job.bundle && Holds(w, key, job.bundle[key])
        ensures Holds(After(w, job, a), key, job.bundle[key])
      {
        assert Left(After(w, job, a).pools, key, w.slots[key]) == Left(w.pools, key, w.slots[key]);
      }
    case ReserveNext(_) => assert Holds(w, job.order[w.stage.done], job.bundle[job.order[w.stage.done]]);
    case CallNext(at) => ProtectedCallStarts(w, job, at);
    case _ =>
  }

  /** The lease is cancelled, if at all, only after the mutation is protected. */
  predicate NotCancelledEarly(w: World, job: Job, acts: seq<Act>)
    requires Runs(w, job, acts)
  {
    acts == [] ||
    (var n := |acts| - 1;
     && NotCancelledEarly(w, job, acts[..n])
     && (acts[n].CancelLease? ==> !Exec(w, job, acts[..n]).stage.Reserving?))
  }

  /**
   A mutation that was admitted with its whole bundle is never refused, from its first
   reservation to its last call, unless it is cancelled before it is protected: it reserves
   nothing anew, so no competition for the pools can matter to it.
   */
  lemma {:induction false} AdmittedNeverRefused(w: World, job: Job, acts: seq<Act>)
    requires Enough(job) && Begins(w) && Provided(w, job) && Runs(w, job, acts) && NotCancelledEarly(w, job, acts)
    ensures !Exec(w, job, acts).stage.Refused?
    ensures Provided(Exec(w, job, acts), job)
  {
    if acts != [] {
      var n := |acts| - 1;
      AdmittedNeverRefused(w, job, acts[..n]);
      RunKeeps(w, job, acts[..n]);
      ProvidedStep(Exec(w, job, acts[..n]), job, acts[n]);
    }
  }

  /** The just-in-time bundle: one write, and the two uses of the unlock operation around it. */
  function JitJob(write: PoolKey, unlock: PoolKey): Job {
    Job(map[write := 1, unlock := 2], [write, unlock], [unlock, write, unlock])
  }

  lemma JitJobEnough(write: PoolKey, unlock: PoolKey)
    requires write != unlock
    ensures Enough(JitJob(write, unlock))
  {
    var calls := [unlock, write, unlock];
    assert calls[..2] == [unlock, write] && calls[..2][..1] == [unlock] && [unlock][..0] == [];
    assert [unlock, write][..1] == [unlock];
    forall key
      ensures Count(calls, key) == (if key == unlock then 2 else 0) + (if key == write then 1 else 0)
    {
      assert Count([unlock], key) == if key == unlock then 1 else 0;
      assert Count([unlock, write], key) == Count([unlock], key) + (if key == write then 1 else 0);
    }
  }

  /** After the unlock went out, the write and then the relock go out too. */
  lemma RelockAlwaysHasItsPermit(w: World, write: PoolKey, unlock: PoolKey, acts: seq<Act>, at: int)
    requires write != unlock && Begins(w) && Runs(w, JitJob(write, unlock), acts)
    requires var v := Exec(w, JitJob(write, unlock), acts);
             v.now <= at && v.stage in {Protected(1), Protected(2)}
    ensures var v := Exec(w, JitJob(write, unlock), acts);
            Call(v, at, if v.stage == Protected(1) then write else unlock).1 == None
  {
    JitJobEnough(write, unlock);
    RunKeeps(w, JitJob(write, unlock), acts);
    ProtectedCallStarts(Exec(w, JitJob(write, unlock), acts), JitJob(write, unlock), at);
  }

  /** Without protection a cancelled lease lets nothing more out: no start is logged anywhere. */
  lemma CancelledCallNeverStarts(w: World, at: int, key: PoolKey, other: PoolKey)
    requires LeaseRefuses(w.lease, key)
    ensures Call(w, at, key).1 in {Some(Cancelled), Some(Quota)}
    ensures |Pool(Call(w, at, key).0.pools, other).log| <= |Pool(w.pools, other).log|
  {
    var k := LeakSuffix(Pool(w.pools, key).log, at, Budget(key).interval);
  }

  /** Cancelling gives back every unprotected permit of the lease and leaves the protected ones. */
  lemma CancelReturnsPermits(w: World, job: Job, key: PoolKey)
    requires Enough(job) && Inv(w, job) && w.lease.Some? && key in w.lease.value.slots
    ensures Left(After(w, job, CancelLease).pools, key, w.lease.value.slots[key])
            == if key in w.lease.value.protected then Left(w.pools, key, w.lease.value.slots[key]) else 0
  {
    ReleasedKeeps(w.pools, w.now, w.next, w.lease.value.slots - w.lease.value.protected);
  }

  // ------------------------------------------------------------ nothing is kept

  /** Every permit the mutation still has is either its own reservation or part of the lease. */
  ghost predicate Traced(w: World, job: Job)
    requires Enough(job)
  {
    && (w.stage.Reserving? ==>
          && w.stage.done <= |job.order|
          && forall key | key in w.owned :: key in job.order[..w.stage.done])
    && (forall key, id {:trigger Left(w.pools, key, id)} | id in w.mine && Left(w.pools, key, id) >= 1 ::
          || (w.lease.Some? && !w.lease.value.closed && key in w.lease.value.slots && w.lease.value.slots[key] == id)
          || (!w.stage.Finished? && key in w.owned && w.owned[key] == id))
  }

  predicate NoRepeats(order: seq<PoolKey>) {
    forall i, j | 0 <= i < j < |order| :: order[i] != order[j]
  }

  /** A permit taken by number `next` is in its own pool and nowhere else. */
  lemma FreshPermit(pools: Pools, now: int, next: nat, key: PoolKey)
    requires PoolsValid(pools, now, next)
    ensures Left(pools, key, next) == 0
  {
    RemainingBounds(Pool(pools, key).pending, next);
  }

  lemma BorrowTraced(w: World, job: Job, at: int, key: PoolKey, weight: nat)
    requires Enough(job) && Inv(w, job) && Traced(w, job) && w.now <= at
    requires !w.stage.Finished? && key !in w.owned
    ensures var v := Borrow(w, at, key, weight).0;
            forall k, id {:trigger Left(v.pools, k, id)} | id in v.mine && Left(v.pools, k, id) >= 1 ::
              || (v.lease.Some? && !v.lease.value.closed && k in v.lease.value.slots && v.lease.value.slots[k] == id)
              || (k in v.owned && v.owned[k] == id)
    ensures forall k | k in Borrow(w, at, key, weight).0.owned :: k in w.owned || k == key
  {
    if !Holds(w, key, weight) {
      NewPermit(w.pools, w.now, at, w.next, w.mine, key, weight);
      var v := Borrow(w, at, key, weight).0;
      forall k, id | id in v.mine && Left(v.pools, k, id) >= 1
        ensures || (v.lease.Some? && !v.lease.value.closed && k in v.lease.value.slots && v.lease.value.slots[k] == id)
                || (k in v.owned && v.owned[k] == id)
      {
        if id in w.mine {
          assert Left(v.pools, k, id) == Left(w.pools, k, id);
        } else {
          FreshPermit(w.pools, w.now, w.next, k);
        }
      }
    }
  }

  lemma CallTraced(w: World, job: Job, a: Act)
    requires Enough(job) && Inv(w, job) && Traced(w, job) && Enabled(w, job, a) && a.CallNext?
    ensures Traced(After(w, job, a), job)
  {
    var key := job.calls[w.stage.used];
    ProtectedCallStarts(w, job, a.at);
    StartedPermit(w.pools, w.now, a.at, w.next, key, w.slots[key]);
    var v := After(w, job, a);
    forall k, id | id in v.mine && Left(v.pools, k, id) >= 1
      ensures Left(w.pools, k, id) >= 1
    {
    }
  }

  lemma ReleaseTraced(w: World, job: Job, a: Act)
    requires Enough(job) && Inv(w, job) && Traced(w, job) && Enabled(w, job, a)
    requires a.CancelLease? || a.Finish? || a.CloseLease?
    ensures Traced(After(w, job, a), job)
  {
    var slots := if a.CancelLease? then w.lease.value.slots - w.lease.value.protected
                 else if a.Finish? then w.owned
                 else w.lease.value.slots;
    ReleasedKeeps(w.pools, w.now, w.next, slots);
    var v := After(w, job, a);
    assert v.pools == Released(w.pools, slots);
    forall k, id | id in v.mine && Left(v.pools, k, id) >= 1
      ensures Left(w.pools, k, id) >= 1 && !(k in slots && slots[k] == id)
    {
    }
  }

  lemma StepTraced(w: World, job: Job, a: Act)
    requires Enough(job) && NoRepeats(job.order) && Inv(w, job) && Traced(w, job) && Enabled(w, job, a)
    ensures Traced(After(w, job, a), job)
  {
    match a
    case Other(_, _, _) => OtherStep(w, job, a);
    case ReserveNext(at) =>
      var d := w.stage.done;
      BorrowTraced(w, job, at, job.order[d], job.bundle[job.order[d]]);
      assert job.order[..d + 1] == job.order[..d] + [job.order[d]];
    case Protect =>
    case CallNext(_) => CallTraced(w, job, a);
    case _ => ReleaseTraced(w, job, a);
  }

  lemma {:induction false} RunTraced(w: World, job: Job, acts: seq<Act>)
    requires Enough(job) && NoRepeats(job.order) && Begins(w) && Traced(w, job) && Runs(w, job, acts)
    ensures Traced(Exec(w, job, acts), job)
  {
    if acts != [] {
      RunTraced(w, job, acts[..|acts| - 1]);
      RunKeeps(w, job, acts[..|acts| - 1]);
      StepTraced(Exec(w, job, acts[..|acts| - 1]), job, acts[|acts| - 1]);
    }
  }

  /** However the mutation ended, once it has left and its lease is closed it keeps no permit. */
  lemma NothingKept(w: World, job: Job, acts: seq<Act>, key: PoolKey, id: nat)
    requires Enough(job) && NoRepeats(job.order) && Begins(w) && Traced(w, job) && Runs(w, job, acts)
    requires var v := Exec(w, job, acts);
             v.stage.Finished? && (v.lease.Some? ==> v.lease.value.closed) && id in v.mine
    ensures Left(Exec(w, job, acts).pools, key, id) == 0
  {
    RunTraced(w, job, acts);
  }
}
