/**
 The REAL-account executor. The write itself runs inside the just-in-time unlock
 region, which calls back to commit the durable marker; how the invocation is
 classified afterwards depends only on whether that marker was committed.
 */
module RealExecution {
  import opened Wrappers
  import opened Journal
  import opened ExecutionStore
  import opened Lifecycle
  import opened LifecycleSafety
  import opened Executor

  /** How the write callback left the unlock region. */
  datatype CallbackEnd =
    | ReturnedReceipt(readable: bool)
    | RaisedNotSent
    | RaisedUnreadable
    | RaisedOther

  /** How everything outside one invocation behaves, `bounded` being whether the callback marks at all. */
  datatype World = World(
    valid: bool,
    lookup: bool,
    secondLookup: bool,
    discovered: bool,
    admit: Commit,
    prepared: bool,
    order: BrokerOrder,
    unlocked: bool,
    bounded: bool,
    routed: bool,
    mark: Commit,
    sdk: SdkReply,
    outcome: Commit,
    readBack: ReadBack)

  class RealExecution {
    const core: Executor
    /** The operation the current thread is dispatching, and whether it is marked. */
    var active: Option<OpId>
    var marked: bool
    var evidence: Option<Receipt>
    var observed: set<OpId>

    constructor (core: Executor)
      ensures this.core == core && active.None?
    {
      this.core := core;
      active, marked, evidence, observed := None, false, None, {};
    }

    /** Nothing keeps this name from being admitted now. */
    ghost predicate Admissible(id: OpId, row: Row, w: World)
      reads core, core.store
    {
      && w.secondLookup && w.discovered && w.admit == Commits
      && GateOpen(core.View()) && id !in core.store.db.rows && row.epoch == core.store.epoch
    }

    /** Preflight and admission. `r` is None when the operation is newly admitted. */
    method AdmitNew(id: OpId, row: Row, w: World) returns (r: Option<Executed>, ghost steps: seq<Step>)
      requires NewAdmission(row)
      modifies core, core.store
      ensures Runs(old(core.View()), steps) && Exec(old(core.View()), steps) == core.View()
      ensures NoCall(steps) && core.activity == old(core.activity)
      ensures r.Some? ==> !r.value.Finished?
      ensures r.None? <==> old(Admissible(id, row, w))
      ensures r.None? ==> core.View() == Admitted(old(core.View()), id, row)
      ensures core.late == old(core.late)
      ensures old(core.BoundTo(id, w.secondLookup)).None? ==> r !in {Some(Existing), Some(IdentityConflict)}
    {
      ghost var s := core.View();
      if id in core.late {
        return Some(Retry(core.late[id], row.canonical)), [];
      }
      var found, ok, looked := core.FindName(id, w.secondLookup);
      steps := looked;
      if !ok {
        return Some(IdentityUnreadable), steps;
      }
      if found.Some? {
        return Some(Retry(found.value.canonical, row.canonical)), steps;
      }
      var ready := core.Ready();
      if row.epoch != core.store.epoch || !ready || !w.discovered {
        return Some(NotSent(false)), steps;
      }
      var admitted := core.Admit(id, row.epoch, row, w.admit);
      ghost var step := AdmitCaller(id, row.epoch, row, w.admit);
      Extend(s, steps, step);
      steps := steps + [step];
      if admitted == Done(true) {
        return None, steps;
      }
      assert admitted != Done(false);
      return Some(NotSent(false)), steps;
    }

    /** The callback's guard: one marker per active operation, behind an open gate. */
    method BeforeDispatch(ghost s: System, ghost before: seq<Step>, id: OpId, w: World, merged: Request)
      returns (ok: bool, ghost steps: seq<Step>)
      requires Runs(s, before) && Exec(s, before) == core.View() && NoCall(before)
      requires Enabled(core.View(), MarkRow(merged, w.mark)) && core.activity.id == id
      requires active == Some(id) && !marked
      modifies this`marked, core, core.store
      ensures Runs(s, steps) && Exec(s, steps) == core.View() && NoCall(steps)
      ensures marked == ok
      ensures core.activity.Executing? && core.activity.id == id
      ensures core.activity.observed == old(core.activity).observed
      ensures if ok then core.activity.stage == Marked else core.activity.stage in {Cleared, Refusing}
      ensures id in core.store.db.rows && (ok ==> core.store.View().Usable())
      ensures ok <==>
                && old(GateOpen(core.View())) && w.routed && w.mark == Commits
                && old(core.store.db.rows[id]).state == ADMITTED
    {
      steps := before;
      var ready := core.Ready();
      if marked || !ready || !w.routed {
        return false, steps;
      }
      ok := core.MarkDispatch(id, merged, w.mark);
      Extend(s, steps, MarkRow(merged, w.mark));
      steps := steps + [MarkRow(merged, w.mark)];
      marked := ok;
    }

    /** Read the target of a modification and respect its guards. */
    method ReadTarget(ghost s: System, ghost before: seq<Step>, id: OpId, w: World)
      returns (ok: bool, ghost steps: seq<Step>)
      requires Runs(s, before) && Exec(s, before) == core.View() && NoCall(before)
      requires core.activity == Executing(id, Entered, NO_ORDER, {}) && id in core.store.db.rows
      requires GateOpen(core.View())
      modifies this`observed, core
      ensures Runs(s, steps) && Exec(s, steps) == core.View() && NoCall(steps)
      ensures ok <==> w.prepared && old(core.GuardsShown(id, w.order))
      ensures core.late == old(core.late)
      ensures !ok ==> core.activity == old(core.activity)
      ensures ok ==> core.activity == Executing(id, Cleared, w.order, observed)
    {
      steps := before;
      var agreed, guards := core.CheckGuards(id, w.order);
      observed := guards;
      if !agreed || !w.prepared {
        return false, steps;
      }
      core.PrepareDispatch(w.order, guards);
      Extend(s, steps, Prepare(w.order));
      return true, steps + [Prepare(w.order)];
    }

    /**
     The write callback: read and check the target, unlock, mark, call, convert.
     The ghost answer is what the broker was really observed to do.
     */
    method RunCallback(ghost s: System, ghost before: seq<Step>, id: OpId, w: World)
      returns (end: CallbackEnd, ghost steps: seq<Step>, ghost answer: Answer)
      requires Runs(s, before) && Exec(s, before) == core.View() && NoCall(before)
      requires core.activity == Executing(id, Entered, NO_ORDER, {}) && id in core.store.db.rows
      requires core.store.environment == REAL
      requires active == Some(id) && !marked && evidence.None? && observed == {} && GateOpen(core.View())
      modifies this`marked, this`evidence, this`observed, core, core.store
      ensures Runs(s, steps) && Exec(s, steps) == core.View()
      ensures core.activity.Executing? && core.activity.id == id
      ensures !marked ==> NoCall(steps) && core.activity.stage in {Entered, Cleared, Refusing}
      ensures !marked ==> !end.RaisedUnreadable?
      ensures marked ==>
                && core.activity.stage == Answered(answer) && core.activity.observed == observed
                && CallCount(steps, id) == 1
                && !end.RaisedNotSent?
                && answer == Classified(end, evidence, w)
                && (!answer.NoAck? <==> w.sdk.OkPayload?)
                && Kept(answer) == ReceiptOf(w.sdk) && core.store.View().Usable()
      ensures id in core.store.db.rows
      ensures marked <==>
                && w.prepared && w.unlocked && w.bounded && w.routed && w.mark == Commits
                && old(core.store.db.rows[id]).state == ADMITTED
                && old(core.GuardsShown(id, w.order))
    {
      var clear;
      answer := NoAck(None);
      clear, steps := ReadTarget(s, before, id, w);
      if !clear || !w.unlocked {
        return RaisedNotSent, steps, answer;
      }
      if !w.bounded {
        return ReturnedReceipt(true), steps, answer;
      }
      var ok;
      var merged := MergedRequest(core.store.environment, core.store.db.rows[id], w.order);
      ok, steps := BeforeDispatch(s, steps, id, w, merged);
      if !ok {
        return RaisedNotSent, steps, answer;
      }
      end, steps, answer := CallAndConvert(s, steps, id, w);
    }

    /** What the SDK answered, with the acknowledged identity kept before anything is converted. */
    method ReadReply(w: World) returns (end: CallbackEnd)
      requires evidence.None?
      modifies this`evidence
      ensures !end.RaisedNotSent?
      ensures var answer := Classified(end, evidence, w);
              (!answer.NoAck? <==> w.sdk.OkPayload?) && Kept(answer) == ReceiptOf(w.sdk)
    {
      if w.sdk.OkPayload? {
        evidence := w.sdk.evidence;
      }
      end := match w.sdk
             case Raises => RaisedOther
             case NonOk => RaisedOther
             case OkPayload(_, None, _) => RaisedUnreadable
             case OkPayload(_, Some(_), serializable) => ReturnedReceipt(serializable);
    }

    /** The one SDK mutation call; acknowledged identity is kept before conversion. */
    method CallAndConvert(ghost s: System, ghost before: seq<Step>, id: OpId, w: World)
      returns (end: CallbackEnd, ghost steps: seq<Step>, ghost answer: Answer)
      requires Runs(s, before) && Exec(s, before) == core.View() && NoCall(before)
      requires InStage(core.View(), {Marked}) && core.activity.id == id && evidence.None?
      modifies this`evidence, core
      ensures Runs(s, steps) && Exec(s, steps) == core.View() && CallCount(steps, id) == 1
      ensures core.activity == old(core.activity).(stage := Answered(answer))
      ensures !end.RaisedNotSent? && answer == Classified(end, evidence, w)
      ensures !answer.NoAck? <==> w.sdk.OkPayload?
      ensures Kept(answer) == ReceiptOf(w.sdk)
    {
      end := ReadReply(w);
      answer := Classified(end, evidence, w);
      core.CallBroker(id, answer);
      CallRun(s, before, id, answer);
      steps := before + [Call(id)] + [Step.Answer(answer)];
    }

    /** What `execute` concludes from the callback's end once the marker is committed. */
    static function Classified(end: CallbackEnd, seen: Option<Receipt>, w: World): Answer {
      match end
      case ReturnedReceipt(true) =>
        if w.sdk.OkPayload? && w.sdk.receipt.Some? then AckReadable(w.sdk.receipt.value) else NoAck(seen)
      case ReturnedReceipt(false) => AckUnreadable(seen)
      case RaisedUnreadable => AckUnreadable(seen)
      case _ => NoAck(seen)
    }

    /** Refuse without a marker, even a receipt; otherwise store what the call was observed to do. */
    method Conclude(ghost s: System, ghost before: seq<Step>, ghost answer: Answer, id: OpId,
                    identity: string, end: CallbackEnd, w: World)
      returns (r: Executed, ghost steps: seq<Step>)
      requires Runs(s, before) && Exec(s, before) == core.View()
      requires core.activity.Executing? && core.activity.id == id
      requires !marked ==> NoCall(before) && core.activity.stage in {Entered, Cleared, Refusing}
      requires marked ==>
                 && core.activity.stage == Answered(answer) && core.activity.observed == observed
                 && CallCount(before, id) == 1 && answer == Classified(end, evidence, w)
                 && id in core.store.db.rows && core.store.View().Usable()
      modifies core, core.store
      ensures Runs(s, steps) && Exec(s, steps) == core.View() && core.activity.Free?
      ensures !marked ==> r == NotSent(true) && NoCall(steps)
      ensures marked ==>
                && r.Finished? && CallCount(steps, id) == 1
                && r.state == (if answer.NoAck? then UNKNOWN_OUTCOME else ACKNOWLEDGED)
                && (r.durable <==> w.outcome == Commits)
                && (r.durable ==> core.Records(id, r.state, Kept(answer)))
    {
      if !marked {
        core.RefuseAdmitted(id, identity, w.outcome, w.readBack);
        Extend(s, before, Refuse(w.outcome, w.readBack));
        return NotSent(true), before + [Refuse(w.outcome, w.readBack)];
      }
      r, steps := core.Conclude(s, before, id, identity, observed, Classified(end, evidence, w), w.outcome,
                                w.readBack);
    }

    /** The locked half: enter, run the callback, classify, store. */
    method Dispatch(id: OpId, identity: string, w: World) returns (r: Executed, ghost steps: seq<Step>)
      requires core.store.environment == REAL && active.None?
      requires core.activity.Free? && id in core.queued && id in core.store.db.rows
      modifies this, core, core.store
      ensures Runs(old(core.View()), steps) && Exec(old(core.View()), steps) == core.View()
      ensures core.activity.Free? && active.None?
      ensures r.NotSent? || r.Finished?
      ensures r.NotSent? ==> r.admitted && NoCall(steps)
      ensures r.Finished? ==> CallCount(steps, id) == 1
      ensures r.Finished? ==> (r.state == ACKNOWLEDGED <==> w.sdk.OkPayload?)
      ensures r.Finished? ==> (r.durable <==> w.outcome == Commits)
      ensures r.Finished? && r.durable ==> core.Records(id, r.state, ReceiptOf(w.sdk))
      ensures r.Finished? <==>
                && old(GateOpen(core.View()))
                && w.prepared && w.unlocked && w.bounded && w.routed && w.mark == Commits
                && old(core.store.db.rows[id]).state == ADMITTED
                && old(core.GuardsShown(id, w.order))
    {
      ghost var s := core.View();
      core.EnterMutex(id);
      Extend(s, [], Enter(id));
      steps := [] + [Enter(id)];
      active, marked, evidence, observed := Some(id), false, None, {};
      r, steps := Perform(s, steps, id, identity, w);
      active := None;
    }

    /** Inside the mutex: the gate, the callback, and what is stored about it. */
    method Perform(ghost s: System, ghost before: seq<Step>, id: OpId, identity: string, w: World)
      returns (r: Executed, ghost steps: seq<Step>)
      requires Runs(s, before) && Exec(s, before) == core.View() && NoCall(before)
      requires core.activity == Executing(id, Entered, NO_ORDER, {}) && id in core.store.db.rows
      requires core.store.environment == REAL
      requires active == Some(id) && !marked && evidence.None? && observed == {}
      modifies this`marked, this`evidence, this`observed, core, core.store
      ensures Runs(s, steps) && Exec(s, steps) == core.View() && core.activity.Free?
      ensures r.NotSent? || r.Finished?
      ensures r.NotSent? ==> r.admitted && NoCall(steps)
      ensures r.Finished? ==> CallCount(steps, id) == 1
      ensures r.Finished? ==> (r.state == ACKNOWLEDGED <==> w.sdk.OkPayload?)
      ensures r.Finished? ==> (r.durable <==> w.outcome == Commits)
      ensures r.Finished? && r.durable ==> core.Records(id, r.state, ReceiptOf(w.sdk))
      ensures r.Finished? <==>
                && old(GateOpen(core.View()))
                && w.prepared && w.unlocked && w.bounded && w.routed && w.mark == Commits
                && old(core.store.db.rows[id]).state == ADMITTED
                && old(core.GuardsShown(id, w.order))
    {
      var end := RaisedNotSent;
      ghost var answer := NoAck(None);
      steps := before;
      var ready := core.Ready();
      if ready {
        end, steps, answer := RunCallback(s, steps, id, w);
      }
      r, steps := Conclude(s, steps, answer, id, identity, end, w);
    }

    /** Nothing stands between this invocation and its one mutation call. */
    ghost predicate Unhindered(id: OpId, row: Row, w: World)
      reads core, core.store
    {
      && Admissible(id, row, w)
      && w.prepared && w.unlocked && w.bounded && w.routed && w.mark == Commits
      && (Exposing(REAL, row) ==> GuardsAgree(core.View(), row, w.order))
    }

    /** A name that looked new: admit it and dispatch it. */
    method ExecuteNew(id: OpId, row: Row, w: World) returns (r: Executed, ghost steps: seq<Step>)
      requires core.store.environment == REAL && core.activity.Free? && active.None? && NewAdmission(row)
      modifies this, core, core.store
      ensures Runs(old(core.View()), steps) && Exec(old(core.View()), steps) == core.View()
      ensures core.activity.Free? && active.None?
      ensures !r.Finished? ==> NoCall(steps)
      ensures r.Finished? ==> CallCount(steps, id) == 1
      ensures r.Finished? ==> (r.state == ACKNOWLEDGED <==> w.sdk.OkPayload?)
      ensures r.Finished? ==> (r.durable <==> w.outcome == Commits)
      ensures r.Finished? && r.durable ==> core.Records(id, r.state, ReceiptOf(w.sdk))
      ensures old(core.BoundTo(id, w.secondLookup)).None? ==> r !in {Existing, IdentityConflict}
      ensures r.Finished? <==> old(Unhindered(id, row, w))
    {
      ghost var s := core.View();
      var early, admission := AdmitNew(id, row, w);
      if early.Some? {
        return early.value, admission;
      }
      AdmissionGuardsNothing(s, id, row, row, w.order);
      ghost var rest;
      r, rest := Dispatch(id, row.canonical, w);
      RunsJoin(s, admission, rest);
      NoCallCount(admission, id);
      CallCountAdds(admission, rest, id);
      steps := admission + rest;
    }

    /**
     One REAL invocation: "not sent" means it made no mutation call; a finished one
     made exactly one, and is reported acknowledged exactly when the SDK said OK. A name
     that is already bound answers for its own request and conflicts with any other; a
     new one is dispatched exactly when nothing hinders it.
     */
    method Execute(id: OpId, row: Row, w: World) returns (r: Executed, ghost steps: seq<Step>)
      requires core.store.environment == REAL && core.activity.Free? && active.None? && NewAdmission(row)
      modifies this, core, core.store
      ensures Runs(old(core.View()), steps) && Exec(old(core.View()), steps) == core.View()
      ensures core.activity.Free? && active.None?
      ensures !r.Finished? ==> NoCall(steps)
      ensures r.Finished? ==> CallCount(steps, id) == 1
      ensures r.Finished? ==> (r.state == ACKNOWLEDGED <==> w.sdk.OkPayload?)
      ensures r.Finished? ==> (r.durable <==> w.outcome == Commits)
      ensures r.Finished? && r.durable ==> core.Records(id, r.state, ReceiptOf(w.sdk))
      ensures !w.valid ==> r == NotSent(false) && steps == []
      ensures r == Existing <==> w.valid && old(core.BoundTo(id, w.lookup)) == Some(row.canonical)
      ensures r == IdentityConflict <==>
                w.valid && old(core.BoundTo(id, w.lookup)).Some?
                && old(core.BoundTo(id, w.lookup)).value != row.canonical
      ensures r.Finished? <==> w.valid && w.lookup && old(Unhindered(id, row, w))
    {
      if !w.valid {
        return NotSent(false), [];
      }
      if id in core.late {
        return Retry(core.late[id], row.canonical), [];
      }
      var found, ok, looked := core.FindName(id, w.lookup);
      if !ok {
        return IdentityUnreadable, looked;
      }
      if found.Some? {
        return Retry(found.value.canonical, row.canonical), looked;
      }
      r, steps := ExecuteNew(id, row, w);
    }
  }
}
