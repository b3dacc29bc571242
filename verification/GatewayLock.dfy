/**
 Just-in-time unlock, relock and the execution halt. Writers, lock requests and
 reconnects interleave over one mutex; the model follows every gateway unlock this
 service issued until a later lock succeeds.
 */
module GatewayLock {
  import opened Wrappers

  type Tid = nat

  /** A queued order write: whether it is REAL, adds exposure, and manages the lock. */
  datatype Write = Write(isReal: bool, adding: bool, jit: bool)
  {
    predicate Guarded() { isReal && adding }
    /** Only a REAL write with a stored credential unlocks around itself. */
    predicate WellFormed(managed: bool) { jit <==> isReal && managed }
  }

  datatype Pc =
    | Idle
    | WriteQueued(w: Write)
    | HaltCheck(w: Write)
    | Admitting(w: Write)
    | Unlocked(w: Write)
    | Calling(w: Write)
    | Relocking(w: Write)
    | LockQueued
    | Locking
    | ReconnectLocking

  datatype State = State(
    /** A trade credential is stored, so the service manages the lock itself. */
    managed: bool,
    threads: map<Tid, Pc>,
    holder: Option<Tid>,
    halted: bool,
    /** An unlock returned OK and no lock has succeeded since. */
    unlocked: bool)

  datatype Step =
    | Submit(t: Tid, w: Write)
    | TakeMutex(t: Tid)
    | PassHaltCheck(t: Tid)
    | RefuseWrite(t: Tid)
    | Unlock(t: Tid, ok: bool)
    | NoUnlock(t: Tid)
    | RefuseInside(t: Tid)
    | CallBroker(t: Tid)
    | CallEnds(t: Tid)
    | Relock(t: Tid, ok: bool)
    | AskLock(t: Tid)
    | LockTrade(t: Tid, ok: bool)
    | Reconnect(t: Tid)
    | ReconnectLock(t: Tid, ok: bool)
    | ManualUnlock(t: Tid, ok: bool)

  function PcOf(s: State, t: Tid): Pc {
    if t in s.threads then s.threads[t] else Idle
  }

  function Move(s: State, t: Tid, pc: Pc): State {
    s.(threads := s.threads[t := pc])
  }

  function Leave(s: State, t: Tid): State {
    s.(threads := s.threads[t := Idle], holder := None)
  }

  predicate Holds(s: State, t: Tid) { s.holder == Some(t) }

  predicate Enabled(s: State, step: Step) {
    var pc := PcOf(s, step.t);
    match step
    case Submit(_, w) => pc.Idle? && w.WellFormed(s.managed)
    case TakeMutex(_) => (pc.WriteQueued? || pc.LockQueued?) && s.holder.None?
    case PassHaltCheck(t) => Holds(s, t) && pc.HaltCheck? && !(pc.w.Guarded() && s.halted)
    case RefuseWrite(t) => Holds(s, t) && (pc.HaltCheck? || pc.Admitting?)
    case Unlock(t, _) => Holds(s, t) && pc.Admitting? && pc.w.jit
    case NoUnlock(t) => Holds(s, t) && pc.Admitting? && !pc.w.jit
    case RefuseInside(t) => Holds(s, t) && pc.Unlocked?
    case CallBroker(t) => Holds(s, t) && pc.Unlocked?
    case CallEnds(t) => Holds(s, t) && pc.Calling?
    case Relock(t, _) => Holds(s, t) && pc.Relocking?
    case AskLock(_) => pc.Idle?
    case LockTrade(t, _) => Holds(s, t) && pc.Locking?
    case Reconnect(_) => pc.Idle? && s.holder.None?
    case ReconnectLock(t, _) => Holds(s, t) && pc.ReconnectLocking?
    case ManualUnlock(_, _) => pc.Idle? && !s.managed
  }

  function After(s: State, step: Step): State
    requires Enabled(s, step)
  {
    var pc := PcOf(s, step.t);
    match step
    case Submit(t, w) => Move(s, t, WriteQueued(w))
    case TakeMutex(t) =>
      Move(s, t, if pc.WriteQueued? then HaltCheck(pc.w) else Locking).(holder := Some(t))
    case PassHaltCheck(t) => Move(s, t, Admitting(pc.w))
    case RefuseWrite(t) => Leave(s, t)
    case Unlock(t, ok) => if ok then Move(s, t, Unlocked(pc.w)).(unlocked := true) else Leave(s, t)
    case NoUnlock(t) => Move(s, t, Unlocked(pc.w))
    case RefuseInside(t) => Move(s, t, Relocking(pc.w))
    case CallBroker(t) => Move(s, t, Calling(pc.w))
    case CallEnds(t) => Move(s, t, Relocking(pc.w))
    case Relock(t, ok) =>
      if !pc.w.jit then Leave(s, t)
      else if ok then Leave(s, t).(unlocked := false)
      else Leave(s, t).(halted := true)
    case AskLock(t) => Move(s, t, LockQueued)
    case LockTrade(t, ok) =>
      if ok then Leave(s, t).(unlocked := false, halted := false) else Leave(s, t)
    case Reconnect(t) => Move(s, t, ReconnectLocking).(holder := Some(t))
    case ReconnectLock(t, ok) => if ok then Leave(s, t).(unlocked := false) else Leave(s, t)
    case ManualUnlock(_, ok) => if ok then s.(unlocked := true) else s
  }

  function Initial(managed: bool): State { State(managed, map[], None, false, false) }

  predicate Inside(pc: Pc) {
    pc.HaltCheck? || pc.Admitting? || pc.Unlocked? || pc.Calling? || pc.Relocking?
    || pc.Locking? || pc.ReconnectLocking?
  }

  /** Where a write that manages the lock may have left the gateway unlocked. */
  predicate WillRelock(pc: Pc) {
    (pc.Unlocked? || pc.Calling? || pc.Relocking?) && pc.w.jit
  }

  predicate PastHaltCheck(pc: Pc) {
    (pc.Admitting? || pc.Unlocked? || pc.Calling? || pc.Relocking?) && pc.w.Guarded()
  }

  ghost predicate Inv(s: State) {
    && (forall t :: Inside(PcOf(s, t)) <==> Holds(s, t))
    && (s.managed && s.unlocked ==> s.halted || (s.holder.Some? && WillRelock(PcOf(s, s.holder.value))))
    && (s.halted ==> forall t :: !PastHaltCheck(PcOf(s, t)))
  }

  lemma StepKeeps(s: State, step: Step)
    requires Inv(s) && Enabled(s, step)
    ensures Inv(After(s, step))
  {
    var n := After(s, step);
    forall t
      ensures Inside(PcOf(n, t)) <==> Holds(n, t)
      ensures n.halted ==> !PastHaltCheck(PcOf(n, t))
    {
      assert Inside(PcOf(s, t)) <==> Holds(s, t);
      assert Inside(PcOf(s, step.t)) <==> Holds(s, step.t);
      if t != step.t {
        assert PcOf(n, t) == PcOf(s, t);
      }
    }
  }

  predicate Runs(s: State, steps: seq<Step>)
    decreases |steps|, 0
  {
    steps == [] ||
    (var n := |steps| - 1; Runs(s, steps[..n]) && Enabled(Exec(s, steps[..n]), steps[n]))
  }

  function Exec(s: State, steps: seq<Step>): State
    requires Runs(s, steps)
    decreases |steps|, 1
  {
    if steps == [] then s
    else var n := |steps| - 1; After(Exec(s, steps[..n]), steps[n])
  }

  lemma {:induction false} RunKeeps(s: State, steps: seq<Step>)
    requires Inv(s) && Runs(s, steps)
    ensures Inv(Exec(s, steps))
  {
    if steps != [] {
      RunKeeps(s, steps[..|steps| - 1]);
      StepKeeps(Exec(s, steps[..|steps| - 1]), steps[|steps| - 1]);
    }
  }

  /** The gateway accepted a request of this service to unlock. */
  predicate Unlocks(step: Step) { (step.Unlock? || step.ManualUnlock?) && step.ok }

  /** The gateway accepted a request of this service to lock. */
  predicate Locks(s: State, step: Step) {
    || (step.Relock? && step.ok && PcOf(s, step.t).Relocking? && PcOf(s, step.t).w.jit)
    || (step.LockTrade? && step.ok)
    || (step.ReconnectLock? && step.ok)
  }

  /** Step `m` of the run locked the gateway. */
  predicate LockedAt(s: State, steps: seq<Step>, m: nat)
    requires Runs(s, steps)
  {
    m < |steps| && Runs(s, steps[..m]) && Locks(Exec(s, steps[..m]), steps[m])
  }

  /** `unlocked` is what its name says: the last decisive gateway answer was an unlock. */
  lemma UnlockedMeansLastWasUnlock(s: State, step: Step)
    requires Enabled(s, step)
    ensures After(s, step).unlocked == if Unlocks(step) then true else if Locks(s, step) then false else s.unlocked
  {
  }

  /** An accepted unlock leaves its mark until some later request locks. */
  lemma {:induction false} UnlockedUntilLocked(s: State, steps: seq<Step>, k: nat)
    requires Runs(s, steps) && k < |steps| && Unlocks(steps[k])
    ensures Exec(s, steps).unlocked || exists m :: k < m && LockedAt(s, steps, m)
  {
    var n := |steps| - 1;
    UnlockedMeansLastWasUnlock(Exec(s, steps[..n]), steps[n]);
    if k < n {
      UnlockedUntilLocked(s, steps[..n], k);
      if m :| k < m && LockedAt(s, steps[..n], m) {
        assert steps[..n][..m] == steps[..m];
        assert LockedAt(s, steps, m);
      } else if Locks(Exec(s, steps[..n]), steps[n]) {
        assert LockedAt(s, steps, n);
      }
    }
  }

  /**
   With a stored credential, whenever the mutex is free every unlock the gateway accepted from
   this service, just in time or by hand, is followed in the run by a lock it accepted, or the
   service is halted.
   */
  lemma RelockedOrHalted(steps: seq<Step>, k: nat)
    requires Runs(Initial(true), steps) && k < |steps| && Unlocks(steps[k])
    requires Exec(Initial(true), steps).holder.None?
    ensures Exec(Initial(true), steps).halted || exists m :: k < m && LockedAt(Initial(true), steps, m)
  {
    RunKeeps(Initial(true), steps);
    ManagedStays(Initial(true), steps);
    UnlockedUntilLocked(Initial(true), steps, k);
  }

  lemma {:induction false} ManagedStays(s: State, steps: seq<Step>)
    requires Runs(s, steps)
    ensures Exec(s, steps).managed == s.managed
  {
    if steps != [] {
      ManagedStays(s, steps[..|steps| - 1]);
    }
  }

  /** Without one the service never unlocks by itself: every accepted unlock was asked for by hand. */
  lemma {:induction false} UnmanagedUnlocksByHand(steps: seq<Step>, k: nat)
    requires Runs(Initial(false), steps) && k < |steps| && Unlocks(steps[k])
    ensures steps[k].ManualUnlock?
  {
    var n := |steps| - 1;
    ManagedStays(Initial(false), steps[..n]);
    NoManagedWrites(steps[..n], steps[n].t);
    if k < n {
      UnmanagedUnlocksByHand(steps[..n], k);
    }
  }

  /** A write in progress, wherever it is. */
  predicate Writing(pc: Pc) {
    pc.WriteQueued? || pc.HaltCheck? || pc.Admitting? || pc.Unlocked? || pc.Calling? || pc.Relocking?
  }

  lemma {:induction false} NoManagedWrites(steps: seq<Step>, t: Tid)
    requires Runs(Initial(false), steps)
    ensures var pc := PcOf(Exec(Initial(false), steps), t); Writing(pc) ==> !pc.w.jit
  {
    if steps != [] {
      var n := |steps| - 1;
      ManagedStays(Initial(false), steps[..n]);
      NoManagedWrites(steps[..n], t);
      UnmanagedStep(Exec(Initial(false), steps[..n]), steps[n], t);
    }
  }

  lemma UnmanagedStep(s: State, step: Step, t: Tid)
    requires !s.managed && Enabled(s, step) && (Writing(PcOf(s, t)) ==> !PcOf(s, t).w.jit)
    ensures Writing(PcOf(After(s, step), t)) ==> !PcOf(After(s, step), t).w.jit
  {
  }

  predicate ClearsHalt(step: Step) { step.LockTrade? && step.ok }

  lemma HaltStays(s: State, step: Step)
    requires Enabled(s, step) && s.halted && !ClearsHalt(step)
    ensures After(s, step).halted
  {
  }

  /** The write whose call a step starts, in the state it starts from. */
  predicate StartsGuardedCall(s: State, step: Step) {
    step.CallBroker? && PcOf(s, step.t).Unlocked? && PcOf(s, step.t).w.Guarded()
  }

  lemma HaltedCallsNothing(s: State, step: Step)
    requires Inv(s) && s.halted
    ensures !StartsGuardedCall(s, step)
  {
  }

  /**
   From the halt until a lock request succeeds, no REAL exposure-adding call starts:
   not one queued before the halt, and not after cancellations or reconnect locks.
   */
  lemma {:induction false} HaltHolds(s: State, steps: seq<Step>)
    requires Inv(s) && Runs(s, steps) && s.halted
    requires forall k | 0 <= k < |steps| :: !ClearsHalt(steps[k])
    ensures Exec(s, steps).halted
    ensures forall k | 0 <= k < |steps| ::
              Runs(s, steps[..k]) && !StartsGuardedCall(Exec(s, steps[..k]), steps[k])
  {
    if steps != [] {
      var n := |steps| - 1;
      var prefix := steps[..n];
      forall k | 0 <= k < n
        ensures !ClearsHalt(prefix[k])
      {
        assert prefix[k] == steps[k];
      }
      HaltHolds(s, prefix);
      RunKeeps(s, prefix);
      HaltStays(Exec(s, prefix), steps[n]);
      HaltedCallsNothing(Exec(s, prefix), steps[n]);
      forall k | 0 <= k < |steps|
        ensures Runs(s, steps[..k]) && !StartsGuardedCall(Exec(s, steps[..k]), steps[k])
      {
        if k < n {
          assert prefix[..k] == steps[..k] && prefix[k] == steps[k];
        }
      }
    }
  }

  // ------------------------------------------------------------ what halts, and for how long

  /** Step `k` is a relock after a managed write that the gateway refused. */
  predicate RefusedRelockAt(s: State, steps: seq<Step>, k: nat)
    requires Runs(s, steps)
  {
    && k < |steps| && Runs(s, steps[..k]) && steps[k].Relock? && !steps[k].ok
    && var pc := PcOf(Exec(s, steps[..k]), steps[k].t); pc.Relocking? && pc.w.jit
  }

  /** Step `k` is such a refusal, and no lock request has succeeded since. */
  predicate HaltedBy(s: State, steps: seq<Step>, k: nat)
    requires Runs(s, steps)
  {
    RefusedRelockAt(s, steps, k) && forall m | k < m < |steps| :: !ClearsHalt(steps[m])
  }

  lemma HaltedByInPrefix(s: State, steps: seq<Step>, n: nat, k: nat)
    requires Runs(s, steps) && k < n <= |steps| && Runs(s, steps[..n])
    requires forall m | n <= m < |steps| :: !ClearsHalt(steps[m])
    ensures HaltedBy(s, steps[..n], k) <==> HaltedBy(s, steps, k)
  {
    assert steps[..n][..k] == steps[..k] && steps[..n][k] == steps[k];
    forall m | k < m < n
      ensures steps[..n][m] == steps[m]
    {
    }
    if HaltedBy(s, steps[..n], k) {
      forall m | k < m < |steps|
        ensures !ClearsHalt(steps[m])
      {
        assert m < n ==> steps[..n][m] == steps[m];
      }
    }
  }

  /** A step halts the service or clears the halt in one way each. */
  lemma HaltStep(s: State, step: Step)
    requires Enabled(s, step)
    ensures After(s, step).halted ==
            if ClearsHalt(step) then false
            else s.halted || (step.Relock? && !step.ok && PcOf(s, step.t).w.jit)
  {
  }

  /** The service is halted exactly when some relock was refused and no lock request succeeded since. */
  lemma {:induction false} HaltedExactly(managed: bool, steps: seq<Step>)
    requires Runs(Initial(managed), steps)
    ensures Exec(Initial(managed), steps).halted <==> exists k :: HaltedBy(Initial(managed), steps, k)
  {
    if steps != [] {
      var s := Initial(managed);
      var n := |steps| - 1;
      HaltedExactly(managed, steps[..n]);
      HaltStep(Exec(s, steps[..n]), steps[n]);
      if RefusedRelockAt(s, steps, n) {
        assert HaltedBy(s, steps, n);
      } else if !ClearsHalt(steps[n]) {
        forall k: nat | k < n
          ensures HaltedBy(s, steps[..n], k) <==> HaltedBy(s, steps, k)
        {
          HaltedByInPrefix(s, steps, n, k);
        }
      }
    }
  }

  /**
   After a refused relock, until a lock request succeeds, no REAL exposure-adding call
   starts for anybody: not one queued or admitted before, and not after any number of
   cancellations, reconnects and locks made by a reconnect.
   */
  lemma RefusedRelockStopsExposure(managed: bool, steps: seq<Step>, k: nat, m: nat)
    requires Runs(Initial(managed), steps) && HaltedBy(Initial(managed), steps, k)
    requires k < m < |steps|
    ensures Runs(Initial(managed), steps[..m])
    ensures !StartsGuardedCall(Exec(Initial(managed), steps[..m]), steps[m])
  {
    var s := Initial(managed);
    PrefixRuns(s, steps, m);
    var before := steps[..m];
    assert HaltedBy(s, before, k) by {
      assert before[..k] == steps[..k] && before[k] == steps[k];
    }
    HaltedExactly(managed, before);
    RunKeeps(s, before);
    HaltedCallsNothing(Exec(s, before), steps[m]);
  }

  lemma {:induction false} PrefixRuns(s: State, steps: seq<Step>, m: nat)
    requires Runs(s, steps) && m <= |steps|
    ensures Runs(s, steps[..m])
  {
    if m < |steps| {
      PrefixRuns(s, steps[..|steps| - 1], m);
      assert steps[..|steps| - 1][..m] == steps[..m];
    } else {
      assert steps[..m] == steps;
    }
  }

  lemma Extend(s: State, steps: seq<Step>, step: Step)
    requires Runs(s, steps) && Enabled(Exec(s, steps), step)
    ensures Runs(s, steps + [step])
    ensures Exec(s, steps + [step]) == After(Exec(s, steps), step)
  {
    assert (steps + [step])[..|steps|] == steps;
  }

  /** What one thread does to get its write from the queue to the halt check. */
  function PathToCheck(t: Tid, w: Write): seq<Step> { [Submit(t, w)] + [TakeMutex(t)] }

  /** From there to its broker call. */
  function PathToCall(t: Tid, w: Write): seq<Step> {
    PathToCheck(t, w) + [PassHaltCheck(t)]
    + [if w.jit then Unlock(t, true) else NoUnlock(t)] + [CallBroker(t)]
  }

  lemma ReachesCheck(s: State, t: Tid, w: Write)
    requires s.holder.None? && PcOf(s, t).Idle? && w.WellFormed(s.managed)
    ensures Runs(s, PathToCheck(t, w))
    ensures Exec(s, PathToCheck(t, w)) == Move(s, t, HaltCheck(w)).(holder := Some(t))
  {
    Extend(s, [], Submit(t, w));
    assert [] + [Submit(t, w)] == [Submit(t, w)];
    Extend(s, [Submit(t, w)], TakeMutex(t));
    assert s.threads[t := WriteQueued(w)][t := HaltCheck(w)] == s.threads[t := HaltCheck(w)];
  }

  /**
   The halt refuses exactly the REAL exposure-adding writes: any other write, a
   cancellation above all, still gets to its call, halted or not.
   */
  lemma HaltRefusesExactly(s: State, t: Tid, w: Write)
    requires s.holder.None? && PcOf(s, t).Idle? && w.WellFormed(s.managed)
    ensures Runs(s, PathToCall(t, w)) <==> !(w.Guarded() && s.halted)
  {
    ReachesCheck(s, t, w);
    var a := PathToCheck(t, w);
    var b := a + [PassHaltCheck(t)];
    var unlock := if w.jit then Unlock(t, true) else NoUnlock(t);
    if w.Guarded() && s.halted {
      var path := PathToCall(t, w);
      assert path[..3] == b && b[..2] == a;
      if Runs(s, path) {
        PrefixRuns(s, path, 3);
      }
    } else {
      Extend(s, a, PassHaltCheck(t));
      Extend(s, b, unlock);
      Extend(s, b + [unlock], CallBroker(t));
    }
  }
}
