/** The simulated-account executor: one named mutation from its caller to the journal. */
module PaperExecution {
  import opened Wrappers
  import opened Journal
  import opened ExecutionStore
  import opened Lifecycle
  import opened LifecycleSafety
  import opened Executor

  /** Everything one invocation cannot decide for itself. */
  datatype World = World(
    valid: bool,
    lookup: bool,
    secondLookup: bool,
    discovered: bool,
    admit: Commit,
    prepared: bool,
    order: BrokerOrder,
    controls: bool,
    mark: Commit,
    sdk: SdkReply,
    outcome: Commit,
    readBack: ReadBack)

  class PaperExecution {
    const core: Executor

    constructor (core: Executor)
      ensures this.core == core
    {
      this.core := core;
    }

    /** Nothing keeps this name from being admitted now. */
    ghost predicate Admissible(id: OpId, row: Row, w: World)
      reads core, core.store
    {
      && w.secondLookup && w.discovered && w.admit == Commits
      && GateOpen(core.View()) && id !in core.store.db.rows && row.epoch == core.store.epoch
    }

    /** The admission half, under the admission lock only. `r` is None when newly admitted. */
    method AdmitNew(id: OpId, row: Row, w: World) returns (r: Option<Executed>, ghost steps: seq<Step>)
      requires NewAdmission(row)
      modifies core, core.store
      ensures Runs(old(core.View()), steps) && Exec(old(core.View()), steps) == core.View()
      ensures NoCall(steps) && core.activity == old(core.activity)
      ensures r.Some? ==> !r.value.Finished?
      ensures r.None? <==> old(Admissible(id, row, w))
      ensures r.None? ==> core.View() == Admitted(old(core.View()), id, row)
      ensures core.late == old(core.late)
      ensures old(core.BoundTo(id, w.secondLookup)).None? ==> r !in {Some(Existing), Some(IdentityConflict)}
    {
      ghost var s := core.View();
      var found, ok, looked := core.FindName(id, w.secondLookup);
      steps := looked;
      if !ok {
        return Some(IdentityUnreadable), steps;
      }
      if found.Some? {
        return Some(Retry(found.value.canonical, row.canonical)), steps;
      }
      if row.epoch != core.store.epoch {
        return Some(NotSent(false)), steps;
      }
      if core.late != map[] {
        return Some(IdentityUnreadable), steps;
      }
      var ready := core.Ready();
      if !ready || !w.discovered {
        return Some(NotSent(false)), steps;
      }
      var admitted := core.Admit(id, row.epoch, row, w.admit);
      ghost var step := AdmitCaller(id, row.epoch, row, w.admit);
      Extend(s, steps, step);
      steps := steps + [step];
      if admitted == Done(true) {
        return None, steps;
      }
      assert admitted != Done(false);
      r := Some(if admitted.Conflicted? then NotSent(false) else IdentityUnreadable);
    }

    /** Everything between taking the mutex and the durable marker. */
    method ClearAndMark(ghost s: System, ghost before: seq<Step>, id: OpId, w: World)
      returns (ok: bool, observed: set<OpId>, ghost steps: seq<Step>)
      requires Runs(s, before) && Exec(s, before) == core.View() && NoCall(before)
      requires core.activity == Executing(id, Entered, NO_ORDER, {}) && id in core.store.db.rows
      modifies core, core.store
      ensures Runs(s, steps) && Exec(s, steps) == core.View() && NoCall(steps)
      ensures core.activity.Executing? && core.activity.id == id && id in core.store.db.rows
      ensures ok ==> core.activity.stage == Marked && core.activity.observed == observed && core.store.View().Usable()
      ensures !ok ==> core.activity.stage in {Entered, Cleared, Refusing}
      ensures ok <==>
                && old(GateOpen(core.View())) && w.prepared && w.controls && w.mark == Commits
                && old(core.store.db.rows[id]).state == ADMITTED
                && old(core.GuardsShown(id, w.order))
    {
      steps := before;
      var ready := core.Ready();
      var agreed;
      agreed, observed := core.CheckGuards(id, w.order);
      if !ready || !agreed || !w.prepared {
        return false, observed, steps;
      }
      core.PrepareDispatch(w.order, observed);
      Extend(s, steps, Prepare(w.order));
      steps := steps + [Prepare(w.order)];
      if !w.controls {
        return false, observed, steps;
      }
      ok, steps := MarkCleared(s, steps, id, w);
    }

    /** The marker of a cleared operation, with the request it is dispatched as. */
    method MarkCleared(ghost s: System, ghost before: seq<Step>, id: OpId, w: World)
      returns (ok: bool, ghost steps: seq<Step>)
      requires Runs(s, before) && Exec(s, before) == core.View() && NoCall(before)
      requires InStage(core.View(), {Cleared}) && core.activity.id == id && core.activity.order == w.order
      requires id in core.store.db.rows && core.store.View().Usable()
      modifies core, core.store
      ensures Runs(s, steps) && Exec(s, steps) == core.View() && NoCall(steps)
      ensures core.activity == old(core.activity).(stage := if ok then Marked else Refusing)
      ensures id in core.store.db.rows && (ok ==> core.store.View().Usable())
      ensures ok <==> w.mark == Commits && old(core.store.db.rows[id]).state == ADMITTED
    {
      var merged := MergedRequest(core.store.environment, core.store.db.rows[id], w.order);
      ok := core.MarkDispatch(id, merged, w.mark);
      Extend(s, before, MarkRow(merged, w.mark));
      steps := before + [MarkRow(merged, w.mark)];
    }

    /** The dispatch half, holding the mutex from the first check to the stored outcome. */
    method Dispatch(id: OpId, identity: string, w: World) returns (r: Executed, ghost steps: seq<Step>)
      requires core.store.environment == SIMULATE
      requires core.activity.Free? && id in core.queued && id in core.store.db.rows
      modifies core, core.store
      ensures Runs(old(core.View()), steps) && Exec(old(core.View()), steps) == core.View()
      ensures core.activity.Free?
      ensures r.NotSent? || r.Finished?
      ensures r.NotSent? ==> r.admitted && NoCall(steps)
      ensures r.Finished? ==> CallCount(steps, id) == 1
      ensures r.Finished? ==> (r.state == ACKNOWLEDGED <==> w.sdk.OkPayload?)
      ensures r.Finished? ==> (r.durable <==> w.outcome == Commits)
      ensures r.Finished? && r.durable ==> core.Records(id, r.state, ReceiptOf(w.sdk))
      ensures r.Finished? <==>
                && old(GateOpen(core.View())) && w.prepared && w.controls && w.mark == Commits
                && old(core.store.db.rows[id]).state == ADMITTED
                && old(core.GuardsShown(id, w.order))
    {
      ghost var s := core.View();
      core.EnterMutex(id);
      Extend(s, [], Enter(id));
      steps := [] + [Enter(id)];
      var cleared, observed, prefix := ClearAndMark(s, steps, id, w);
      if cleared {
        r, steps := CallAndStore(s, prefix, id, identity, observed, w);
      } else {
        core.RefuseAdmitted(id, identity, w.outcome, w.readBack);
        Extend(s, prefix, Refuse(w.outcome, w.readBack));
        steps := prefix + [Refuse(w.outcome, w.readBack)];
        r := NotSent(true);
      }
    }

    method CallAndStore(ghost s: System, ghost before: seq<Step>, id: OpId, identity: string, observed: set<OpId>,
                        w: World)
      returns (r: Executed, ghost steps: seq<Step>)
      requires Runs(s, before) && Exec(s, before) == core.View() && NoCall(before)
      requires InStage(core.View(), {Marked}) && core.activity.id == id && core.activity.observed == observed
      requires id in core.store.db.rows && core.store.View().Usable()
      modifies core, core.store
      ensures Runs(s, steps) && Exec(s, steps) == core.View()
      ensures core.activity.Free? && r.Finished?
      ensures CallCount(steps, id) == 1
      ensures r.state == ACKNOWLEDGED <==> w.sdk.OkPayload?
      ensures r.durable <==> w.outcome == Commits
      ensures r.durable ==> core.Records(id, r.state, ReceiptOf(w.sdk))
    {
      var answer := Classify(w.sdk);
      core.CallBroker(id, answer);
      CallRun(s, before, id, answer);
      r, steps := core.Conclude(s, before + [Call(id)] + [Step.Answer(answer)], id, identity, observed, answer,
                                w.outcome, w.readBack);
    }

    /**
     How the one call is classified. An acknowledgement stays one when its receipt
     cannot be converted; only the identifier read before the conversion is then kept.
     */
    method Classify(sdk: SdkReply) returns (answer: Answer)
      ensures !answer.NoAck? <==> sdk.OkPayload?
      ensures answer.NoAck? ==> answer.evidence == None
      ensures answer.AckReadable? <==> sdk.OkPayload? && sdk.receipt.Some? && sdk.serializable
      ensures answer.AckReadable? ==> sdk.receipt == Some(answer.receipt)
      ensures answer.AckUnreadable? ==> answer.evidence == sdk.evidence
    {
      if sdk.Raises? {
        return NoAck(None);
      }
      if sdk.NonOk? {
        return NoAck(None);
      }
      if sdk.receipt.None? || !sdk.serializable {
        return AckUnreadable(sdk.evidence);
      }
      return AckReadable(sdk.receipt.value);
    }

    /** Nothing stands between this invocation and its one mutation call. */
    ghost predicate Unhindered(id: OpId, row: Row, w: World)
      reads core, core.store
    {
      && Admissible(id, row, w)
      && w.prepared && w.controls && w.mark == Commits
      && (Exposing(SIMULATE, row) ==> GuardsAgree(core.View(), row, w.order))
    }

    /** A name that looked new: admit it and dispatch it. */
    method ExecuteNew(id: OpId, row: Row, w: World) returns (r: Executed, ghost steps: seq<Step>)
      requires core.store.environment == SIMULATE && core.activity.Free? && NewAdmission(row)
      modifies core, core.store
      ensures Runs(old(core.View()), steps) && Exec(old(core.View()), steps) == core.View()
      ensures core.activity.Free?
      ensures !r.Finished? ==> NoCall(steps)
      ensures r.Finished? ==> CallCount(steps, id) == 1
      ensures r.Finished? ==> (r.state == ACKNOWLEDGED <==> w.sdk.OkPayload?)
      ensures r.Finished? ==> (r.durable <==> w.outcome == Commits)
      ensures r.Finished? && r.durable ==> core.Records(id, r.state, ReceiptOf(w.sdk))
      ensures old(core.BoundTo(id, w.secondLookup)).None? ==> r !in {Existing, IdentityConflict}
      ensures r.Finished? <==> old(Unhindered(id, row, w))
    {
      ghost var s := core.View();
      var early, admission := AdmitNew(id, row, w);
      if early.Some? {
        return early.value, admission;
      }
      AdmissionGuardsNothing(s, id, row, row, w.order);
      ghost var rest;
      r, rest := Dispatch(id, row.canonical, w);
      RunsJoin(s, admission, rest);
      NoCallCount(admission, id);
      CallCountAdds(admission, rest, id);
      steps := admission + rest;
    }

    /**
     One invocation. Whatever the broker, the storage and the caller do, what it
     reports is true: "not sent" means it made no mutation call, a finished invocation
     made exactly one, and it is acknowledged exactly when the SDK said OK. A name that
     is already bound answers for its own request and conflicts with any other; a new
     one is dispatched exactly when nothing hinders it.
     */
    method Execute(id: OpId, row: Row, w: World) returns (r: Executed, ghost steps: seq<Step>)
      requires core.store.environment == SIMULATE && core.activity.Free? && NewAdmission(row)
      modifies core, core.store
      ensures Runs(old(core.View()), steps) && Exec(old(core.View()), steps) == core.View()
      ensures core.activity.Free?
      ensures !r.Finished? ==> NoCall(steps)
      ensures r.Finished? ==> CallCount(steps, id) == 1
      ensures r.Finished? ==> (r.state == ACKNOWLEDGED <==> w.sdk.OkPayload?)
      ensures r.Finished? ==> (r.durable <==> w.outcome == Commits)
      ensures r.Finished? && r.durable ==> core.Records(id, r.state, ReceiptOf(w.sdk))
      ensures !w.valid ==> r == NotSent(false) && steps == []
      ensures r == Existing <==> w.valid && old(core.BoundTo(id, w.lookup)) == Some(row.canonical)
      ensures r == IdentityConflict <==>
                w.valid && old(core.BoundTo(id, w.lookup)).Some?
                && old(core.BoundTo(id, w.lookup)).value != row.canonical
      ensures r.Finished? <==> w.valid && w.lookup && old(Unhindered(id, row, w))
    {
      if !w.valid {
        return NotSent(false), [];
      }
      // An unstored outcome still answers for its name, with no new read.
      if id in core.late {
        return Retry(core.late[id], row.canonical), [];
      }
      var found, ok, looked := core.FindName(id, w.lookup);
      if !ok {
        return IdentityUnreadable, looked;
      }
      if found.Some? {
        return Retry(found.value.canonical, row.canonical), looked;
      }
      r, steps := ExecuteNew(id, row, w);
    }
  }
}
