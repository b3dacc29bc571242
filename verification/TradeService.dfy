/**
 The trade service's lock-managing operations, run to completion by one thread: each
 is a run of the lock protocol, and the write's own outcome never depends on the relock.
 */
module TradeService {
  import opened Wrappers
  import opened GatewayLock

  datatype Reply = Accepted | Refused(error: string)

  /** How the SDK write ended once it had started. */
  datatype CallEnd = Raised | Interrupted | NonOk | OkPayload(convertible: bool)

  datatype Outcome =
    | OrderNotSent
    | OutcomeUnknown
    | ReceiptUnreadable
    | ProcessInterrupted
    | ReceiptReturned

  /** What the parts this region depends on decide. */
  datatype World = World(
    durable: bool,
    newRisk: bool,
    permits: bool,
    controls: bool,
    unlock: Reply,
    marker: bool,
    end: CallEnd,
    relock: Reply,
    clock: string)

  function EndOutcome(end: CallEnd): Outcome {
    match end
    case Raised => OutcomeUnknown
    case NonOk => OutcomeUnknown
    case Interrupted => ProcessInterrupted
    case OkPayload(convertible) => if convertible then ReceiptReturned else ReceiptUnreadable
  }

  predicate NoBrokerCall(steps: seq<Step>) {
    forall k | 0 <= k < |steps| :: !steps[k].CallBroker?
  }

  /** No unlock in these steps was accepted. */
  predicate NothingUnlocked(steps: seq<Step>) {
    forall k | 0 <= k < |steps| :: !Unlocks(steps[k])
  }

  class TradeService {
    const storedCredential: bool
    const locksAtRest: bool
    var haltedSince: Option<string>
    var lastLockError: Option<string>
    var lockObservation: string
    ghost var threads: map<Tid, Pc>
    ghost var holder: Option<Tid>
    ghost var unlocked: bool

    ghost function View(): State
      reads this
    {
      State(storedCredential, threads, holder, haltedSince.Some?, unlocked)
    }

    constructor (storedCredential: bool, locksAtRest: bool)
      ensures this.storedCredential == storedCredential && this.locksAtRest == locksAtRest
      ensures View() == Initial(storedCredential)
    {
      this.storedCredential, this.locksAtRest := storedCredential, locksAtRest;
      haltedSince, lastLockError, lockObservation := None, None, "not attempted";
      threads, holder, unlocked := map[], None, false;
    }

    /** A failed relock halts, keeping the start of any halt already in effect. */
    method RecordRelockFailure(error: string, now: string)
      modifies this`haltedSince, this`lastLockError
      ensures haltedSince == if old(haltedSince).Some? then old(haltedSince) else Some(now)
      ensures lastLockError == Some(error)
    {
      if haltedSince.None? {
        haltedSince := Some(now);
      }
      lastLockError := Some(error);
    }

    /** An explicit lock's outcome; a refused lock must never look like a recovery. */
    method RecordLockResult(error: Option<string>) returns (cleared: bool)
      modifies this`haltedSince, this`lastLockError
      ensures error.Some? ==> haltedSince == old(haltedSince) && lastLockError == error && !cleared
      ensures error.None? ==> haltedSince.None? && lastLockError.None? && (cleared <==> old(haltedSince).Some?)
    {
      if error.Some? {
        lastLockError := error;
        return false;
      }
      cleared := haltedSince.Some?;
      haltedSince, lastLockError := None, None;
    }

    method RelockAfterWrite(t: Tid, w: Write, world: World) returns (relockError: Option<string>)
      requires Holds(View(), t) && PcOf(View(), t) == Relocking(w)
      modifies this
      ensures View() == After(old(View()), Relock(t, world.relock.Accepted?))
      ensures relockError.Some? <==> w.jit && world.relock.Refused?
      ensures relockError.Some? ==> haltedSince.Some? && lastLockError == relockError
      ensures relockError.None? ==> haltedSince == old(haltedSince) && lastLockError == old(lastLockError)
    {
      threads, holder := threads[t := Idle], None;
      if !w.jit {
        return None;
      }
      match world.relock {
        case Accepted =>
          unlocked := false;
          return None;
        case Refused(error) =>
          RecordRelockFailure(error, world.clock);
          return Some(error);
      }
    }

    /** Queue for the mutex and take it. */
    method TakeTurn(ghost s: State, t: Tid, w: Write) returns (ghost steps: seq<Step>)
      requires s == View() && holder.None? && PcOf(s, t).Idle? && w.WellFormed(storedCredential)
      modifies this`threads, this`holder
      ensures steps == [Submit(t, w), TakeMutex(t)]
      ensures Runs(s, steps) && Exec(s, steps) == View()
      ensures Holds(View(), t) && PcOf(View(), t) == HaltCheck(w)
    {
      threads := threads[t := WriteQueued(w)];
      Extend(s, [], Submit(t, w));
      threads, holder := threads[t := HaltCheck(w)], Some(t);
      Extend(s, [] + [Submit(t, w)], TakeMutex(t));
      steps := [Submit(t, w), TakeMutex(t)];
      assert steps == [] + [Submit(t, w)] + [TakeMutex(t)];
    }

    /** Take the mutex and pass every refusal up to and including the unlock. */
    method OpenWindow(ghost s: State, t: Tid, w: Write, world: World)
      returns (ok: bool, ghost steps: seq<Step>)
      requires s == View() && holder.None? && PcOf(s, t).Idle? && w.WellFormed(storedCredential)
      modifies this
      ensures Runs(s, steps) && Exec(s, steps) == View() && NoBrokerCall(steps)
      ensures ok ==> Holds(View(), t) && PcOf(View(), t) == Unlocked(w)
      ensures !ok ==> holder.None? && NothingUnlocked(steps)
      ensures haltedSince == old(haltedSince) && lastLockError == old(lastLockError)
      ensures ok <==>
                && !(w.isReal && w.adding && old(haltedSince).Some?)
                && (w.adding ==> world.newRisk) && world.permits && world.controls
                && (w.jit ==> world.unlock.Accepted?)
    {
      steps := TakeTurn(s, t, w);
      if w.adding && ((w.isReal && haltedSince.Some?) || !world.newRisk) {
        threads, holder := threads[t := Idle], None;
        Extend(s, steps, RefuseWrite(t));
        steps := steps + [RefuseWrite(t)];
        return false, steps;
      }
      threads := threads[t := Admitting(w)];
      Extend(s, steps, PassHaltCheck(t));
      steps := steps + [PassHaltCheck(t)];
      ok, steps := Unlock(s, steps, t, w, world);
    }

    method Unlock(ghost s: State, ghost before: seq<Step>, t: Tid, w: Write, world: World)
      returns (ok: bool, ghost steps: seq<Step>)
      requires Runs(s, before) && Exec(s, before) == View() && NoBrokerCall(before) && NothingUnlocked(before)
      requires Holds(View(), t) && PcOf(View(), t) == Admitting(w)
      modifies this
      ensures Runs(s, steps) && Exec(s, steps) == View() && NoBrokerCall(steps)
      ensures ok ==> Holds(View(), t) && PcOf(View(), t) == Unlocked(w)
      ensures !ok ==> holder.None? && NothingUnlocked(steps)
      ensures haltedSince == old(haltedSince) && lastLockError == old(lastLockError)
      ensures ok <==> world.permits && world.controls && (w.jit ==> world.unlock.Accepted?)
    {
      if !world.permits || !world.controls {
        threads, holder := threads[t := Idle], None;
        Extend(s, before, RefuseWrite(t));
        return false, before + [RefuseWrite(t)];
      }
      if !w.jit {
        threads := threads[t := Unlocked(w)];
        Extend(s, before, NoUnlock(t));
        return true, before + [NoUnlock(t)];
      }
      ok := world.unlock.Accepted?;
      if ok {
        threads, unlocked := threads[t := Unlocked(w)], true;
      } else {
        threads, holder := threads[t := Idle], None;
      }
      Extend(s, before, Step.Unlock(t, ok));
      steps := before + [Step.Unlock(t, ok)];
    }

    /** The marker and the one call; every way on leads to the relock. */
    method MarkAndCall(ghost s: State, ghost before: seq<Step>, t: Tid, w: Write, world: World)
      returns (outcome: Outcome, ghost steps: seq<Step>)
      requires Runs(s, before) && Exec(s, before) == View() && NoBrokerCall(before)
      requires Holds(View(), t) && PcOf(View(), t) == Unlocked(w)
      modifies this`threads
      ensures Runs(s, steps) && Exec(s, steps) == View() && |steps| > |before|
      ensures Holds(View(), t) && PcOf(View(), t) == Relocking(w)
      ensures NoBrokerCall(steps) <==> w.isReal && !world.marker
      ensures outcome == if w.isReal && !world.marker then OrderNotSent else EndOutcome(world.end)
    {
      if w.isReal && !world.marker {
        threads := threads[t := Relocking(w)];
        Extend(s, before, RefuseInside(t));
        return OrderNotSent, before + [RefuseInside(t)];
      }
      threads := threads[t := Calling(w)];
      Extend(s, before, CallBroker(t));
      threads := threads[t := Relocking(w)];
      Extend(s, before + [CallBroker(t)], CallEnds(t));
      assert (before + [CallBroker(t)] + [CallEnds(t)])[|before|].CallBroker?;
      return EndOutcome(world.end), before + [CallBroker(t)] + [CallEnds(t)];
    }

    /** Mark and call inside the window, then relock on every path out. */
    method RunWindow(ghost s: State, ghost before: seq<Step>, t: Tid, w: Write, world: World)
      returns (outcome: Outcome, relockError: Option<string>, ghost steps: seq<Step>)
      requires Runs(s, before) && Exec(s, before) == View() && NoBrokerCall(before)
      requires Holds(View(), t) && PcOf(View(), t) == Unlocked(w)
      modifies this
      ensures Runs(s, steps) && Exec(s, steps) == View() && holder.None?
      ensures |steps| > |before| && steps[|steps| - 1] == Relock(t, world.relock.Accepted?)
      ensures NoBrokerCall(steps) <==> w.isReal && !world.marker
      ensures outcome == if w.isReal && !world.marker then OrderNotSent else EndOutcome(world.end)
      ensures relockError.Some? <==> w.jit && world.relock.Refused?
      ensures relockError.Some? ==> haltedSince.Some? && lastLockError == relockError
      ensures relockError.None? ==> haltedSince == old(haltedSince)
    {
      outcome, steps := MarkAndCall(s, before, t, w, world);
      relockError := RelockAfterWrite(t, w, world);
      Extend(s, steps, Relock(t, world.relock.Accepted?));
      ghost var called := steps;
      steps := steps + [Relock(t, world.relock.Accepted?)];
      assert forall k | 0 <= k < |called| :: called[k] == steps[k];
    }

    /**
     One order write. It reaches its one broker call exactly when nothing refuses it, and
     the outcome is then decided by how that call ended alone; a failed relock is reported
     beside it and halts.
     */
    method DispatchWrite(t: Tid, isReal: bool, adding: bool, world: World)
      returns (outcome: Outcome, relockError: Option<string>, ghost steps: seq<Step>)
      requires holder.None? && PcOf(View(), t).Idle?
      modifies this
      ensures Runs(old(View()), steps) && Exec(old(View()), steps) == View() && holder.None?
      ensures NoBrokerCall(steps) ==> outcome == OrderNotSent
      ensures !NoBrokerCall(steps) ==>
                && (outcome == OutcomeUnknown <==> world.end in {Raised, NonOk})
                && (outcome == ReceiptUnreadable <==> world.end == OkPayload(false))
                && (outcome == ReceiptReturned <==> world.end == OkPayload(true))
                && (outcome == ProcessInterrupted <==> world.end == Interrupted)
      ensures !NoBrokerCall(steps) <==>
                && (isReal ==> world.durable)
                && !(isReal && adding && old(haltedSince).Some?)
                && (adding ==> world.newRisk) && world.permits && world.controls
                && (isReal && storedCredential ==> world.unlock.Accepted?)
                && (isReal ==> world.marker)
      ensures relockError.Some? ==> haltedSince.Some? && isReal && storedCredential
      ensures old(haltedSince).Some? ==> haltedSince.Some?
      ensures forall k | 0 <= k < |steps| && Unlocks(steps[k]) ::
                k < |steps| - 1 && steps[|steps| - 1] == Relock(t, world.relock.Accepted?)
    {
      ghost var s := View();
      var w := Write(isReal, adding, isReal && storedCredential);
      if isReal && !world.durable {
        return OrderNotSent, None, [];
      }
      var ok;
      ok, steps := OpenWindow(s, t, w, world);
      if !ok {
        return OrderNotSent, None, steps;
      }
      outcome, relockError, steps := RunWindow(s, steps, t, w, world);
    }

    /** The manual unlock, for deployments that store no credential; otherwise it is refused. */
    method UnlockTrade(t: Tid, permitted: bool, supplied: bool, connected: bool, reply: Reply)
      returns (ok: bool, ghost steps: seq<Step>)
      requires PcOf(View(), t).Idle?
      modifies this`unlocked
      ensures Runs(old(View()), steps) && Exec(old(View()), steps) == View()
      ensures ok <==> permitted && !storedCredential && supplied && connected && reply.Accepted?
      ensures storedCredential ==> steps == []
      ensures unlocked == (ok || old(unlocked))
    {
      ghost var s := View();
      steps := [];
      if !permitted || storedCredential || !supplied || !connected {
        return false, steps;
      }
      ok := reply.Accepted?;
      unlocked := ok || unlocked;
      Extend(s, [], ManualUnlock(t, ok));
      steps := [] + [ManualUnlock(t, ok)];
    }

    /** The lock-only request: the one way out of a halt. */
    method LockNow(t: Tid, reply: Reply) returns (cleared: Result<bool, string>, ghost steps: seq<Step>)
      requires holder.None? && PcOf(View(), t).Idle?
      modifies this
      ensures Runs(old(View()), steps) && Exec(old(View()), steps) == View() && holder.None?
      ensures reply.Accepted? ==> cleared == Ok(old(haltedSince).Some?) && haltedSince.None? && !unlocked
      ensures reply.Refused? ==> cleared == Err(reply.error) && haltedSince == old(haltedSince)
      ensures NoBrokerCall(steps)
    {
      ghost var s := View();
      threads := threads[t := LockQueued];
      Extend(s, [], AskLock(t));
      threads, holder := threads[t := Locking], Some(t);
      Extend(s, [] + [AskLock(t)], TakeMutex(t));
      steps := [] + [AskLock(t)] + [TakeMutex(t)];
      threads, holder := threads[t := Idle], None;
      match reply {
        case Accepted =>
          unlocked := false;
          var was := RecordLockResult(None);
          cleared := Ok(was);
        case Refused(error) =>
          var was := RecordLockResult(Some(error));
          cleared := Err(error);
      }
      Extend(s, steps, LockTrade(t, reply.Accepted?));
      steps := steps + [LockTrade(t, reply.Accepted?)];
    }

    /** The lock at rest after a (re)connect: never waits, never raises, never clears a halt. */
    method EnforceGatewayLock(t: Tid, free: bool, reply: Reply) returns (ghost steps: seq<Step>)
      requires PcOf(View(), t).Idle? && (free <==> holder.None?)
      modifies this
      ensures Runs(old(View()), steps) && Exec(old(View()), steps) == View()
      ensures haltedSince == old(haltedSince) && lastLockError == old(lastLockError)
      ensures holder == old(holder) && NoBrokerCall(steps)
      ensures locksAtRest && free && reply.Accepted? ==> !unlocked && lockObservation == "succeeded"
      ensures locksAtRest && free && reply.Refused? ==> lockObservation == "failed"
      ensures !locksAtRest || !free ==> steps == [] && lockObservation == old(lockObservation)
    {
      ghost var s := View();
      steps := [];
      if !locksAtRest || !free {
        // A write holding the mutex will relock when it finishes.
        return;
      }
      threads, holder := threads[t := ReconnectLocking], Some(t);
      Extend(s, [], Reconnect(t));
      threads, holder := threads[t := Idle], None;
      if reply.Accepted? {
        unlocked, lockObservation := false, "succeeded";
      } else {
        lockObservation := "failed";
      }
      Extend(s, [] + [Reconnect(t)], ReconnectLock(t, reply.Accepted?));
      steps := [] + [Reconnect(t)] + [ReconnectLock(t, reply.Accepted?)];
    }
  }
}
