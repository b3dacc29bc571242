/**
 The process-local half both executors share: the open store, the outcomes that
 could not be stored, and the dispatch mutex. Each method is one step of the
 protocol, so an executor's run through its branches is a run of the step system.
 */
module Executor {
  import opened Wrappers
  import opened Journal
  import opened ExecutionStore
  import opened RecoveryCheck
  import opened Lifecycle
  import opened LifecycleSafety

  /** How one invocation ended for its caller. */
  datatype Executed =
    | NotSent(admitted: bool)
    | IdentityUnreadable
    | IdentityConflict
    | Existing
    | Finished(state: RowState, durable: bool)

  /** What the one mutation call does, and whether its payload converts. */
  datatype SdkReply =
    | Raises
    | NonOk
    | OkPayload(evidence: Option<Receipt>, receipt: Option<Receipt>, serializable: bool)

  lemma {:induction false} NoCallCount(steps: seq<Step>, id: OpId)
    requires NoCall(steps)
    ensures CallCount(steps, id) == 0
  {
    if steps != [] {
      NoCallCount(steps[..|steps| - 1], id);
    }
  }

  lemma {:induction false} CallCountAdds(a: seq<Step>, b: seq<Step>, id: OpId)
    ensures CallCount(a + b, id) == CallCount(a, id) + CallCount(b, id)
    decreases |b|
  {
    if b == [] {
      assert a + b == a;
    } else {
      assert (a + b)[..|a + b| - 1] == a + b[..|b| - 1];
      CallCountAdds(a, b[..|b| - 1], id);
    }
  }

  lemma CallCountNext(before: seq<Step>, id: OpId, a: Step)
    ensures CallCount(before + [a], id) == CallCount(before, id) + (if Calls(a, id) then 1 else 0)
  {
    assert (before + [a])[..|before|] == before;
  }

  lemma OneCallAnswered(before: seq<Step>, id: OpId, a: Step)
    requires NoCall(before) && !Calls(a, id)
    ensures CallCount(before + [Call(id)] + [a], id) == 1
  {
    NoCallCount(before, id);
    CallCountNext(before, id, Call(id));
    CallCountNext(before + [Call(id)], id, a);
  }

  /** The call and its answer extend a run by exactly one call. */
  lemma CallRun(s: System, before: seq<Step>, id: OpId, answer: Answer)
    requires Runs(s, before) && NoCall(before) && Enabled(Exec(s, before), Call(id))
    requires Enabled(After(Exec(s, before), Call(id)), Step.Answer(answer))
    ensures var steps := before + [Call(id)] + [Step.Answer(answer)];
            && Runs(s, steps) && CallCount(steps, id) == 1
            && Exec(s, steps) == After(After(Exec(s, before), Call(id)), Step.Answer(answer))
  {
    Extend(s, before, Call(id));
    Extend(s, before + [Call(id)], Step.Answer(answer));
    OneCallAnswered(before, id, Step.Answer(answer));
  }

  lemma StillOneCall(before: seq<Step>, id: OpId, a: Step)
    requires !Calls(a, id)
    ensures CallCount(before + [a], id) == CallCount(before, id)
  {
    CallCountNext(before, id, a);
  }

  /** A later invocation of an admitted name must repeat its request exactly. */
  function Retry(stored: string, proposed: string): Executed {
    if stored == proposed then Existing else IdentityConflict
  }

  /** The name is admitted and waits for the mutex; nothing else changed. */
  function Admitted(s: System, id: OpId, row: Row): System {
    s.(store := s.store.(db := s.store.db.(rows := s.store.db.rows[id := row])), queued := s.queued + {id})
  }

  /** What of the broker's receipt is kept: all of it when it converts, else what was read before. */
  function ReceiptOf(sdk: SdkReply): Option<Receipt> {
    match sdk
    case OkPayload(evidence, receipt, serializable) =>
      if receipt.Some? && serializable then receipt else evidence
    case _ => None
  }

  /** An admission adds no guard to any order. */
  lemma AdmissionGuardsNothing(s: System, id: OpId, row: Row, target: Row, order: BrokerOrder)
    requires NewAdmission(row) && id !in s.store.db.rows
    ensures GuardsAgree(Admitted(s, id, row), target, order) <==> GuardsAgree(s, target, order)
  {
    assert Guards(Admitted(s, id, row), target) == Guards(s, target);
  }

  /** What an answer leaves for the row: the receipt, or what was read before it failed to convert. */
  function Kept(answer: Answer): Option<Receipt> {
    if answer.AckReadable? then Some(answer.receipt) else answer.evidence
  }

  class Executor {
    const store: ExecutionStore
    /** Identities of operations whose outcome was observed but could not be stored. */
    var late: map<OpId, string>
    ghost var queued: set<OpId>
    ghost var activity: Activity
    ghost var calls: multiset<OpId>
    ghost var now: real
    ghost var orphans: set<OpId>

    ghost function View(): System
      reads this, store
    {
      System(store.View(), true, queued, late.Keys, activity, calls, now, orphans)
    }

    /** The identity a name is already bound to, as far as one lookup can tell. */
    ghost function BoundTo(id: OpId, readable: bool): Option<string>
      reads this, store
    {
      if id in late then Some(late[id])
      else if store.View().Usable() && readable && id in store.db.rows then Some(store.db.rows[id].canonical)
      else None
    }

    constructor (store: ExecutionStore)
      requires !store.closed
      ensures this.store == store && fresh(this)
      ensures late == map[] && queued == {} && activity == Free && calls == multiset{} && now == 0.0 && orphans == {}
    {
      this.store := store;
      late, queued, activity, calls, now, orphans := map[], {}, Free, multiset{}, 0.0, {};
    }

    /** Whether new work may be dispatched at all. */
    method Ready() returns (r: bool)
      ensures r == GateOpen(View())
    {
      r := late == map[] && !store.failed && !store.closed && store.reviewed && store.db.requirements == {};
    }

    /** Read the journal for a name; a read that raises also poisons the store. */
    method FindName(id: OpId, readable: bool) returns (found: Option<Row>, ok: bool, ghost steps: seq<Step>)
      modifies store
      ensures Runs(old(View()), steps) && Exec(old(View()), steps) == View()
      ensures NoCall(steps) && store.db == old(store.db) && steps in {[], [ReadFails]}
      ensures ok <==> old(store.View()).Usable() && readable
      ensures ok ==> steps == [] && store.View() == old(store.View())
      ensures ok ==> found == if id in store.db.rows then Some(store.db.rows[id]) else None
    {
      ghost var s := View();
      var r := store.Lookup(id, readable);
      steps := if s.store.Usable() && !readable then [ReadFails] else [];
      if s.store.Usable() && !readable {
        Extend(s, [], ReadFails);
        assert [] + [ReadFails] == steps;
      }
      ok := r.Done?;
      found := if r.Done? then r.value else None;
    }

    method Admit(id: OpId, claimed: Epoch, row: Row, commit: Commit) returns (r: Status<bool>)
      requires row.epoch == claimed && NewAdmission(row)
      modifies this, store
      ensures Enabled(old(View()), AdmitCaller(id, claimed, row, commit))
      ensures View() == After(old(View()), AdmitCaller(id, claimed, row, commit))
      ensures r == WithAdmission(old(store.View()), id, claimed, row, commit).1
      ensures r == Done(true) ==> View() == Admitted(old(View()), id, row)
    {
      r := store.AdmitOperation(id, claimed, row, commit);
      if r == Done(true) {
        queued := queued + {id};
      }
    }

    /** Take the mutex for an admitted operation. */
    method EnterMutex(id: OpId)
      requires activity.Free? && id in queued
      modifies this
      ensures View() == After(old(View()), Enter(id))
      ensures activity == Executing(id, Entered, NO_ORDER, {})
    {
      queued := queued - {id};
      activity := Executing(id, Entered, NO_ORDER, {});
    }

    /**
     Collect the guards a modification must respect; refuse unless the broker's
     current order already shows every one of them.
     */
    method CheckGuards(id: OpId, order: BrokerOrder) returns (ok: bool, observed: set<OpId>)
      requires id in store.db.rows
      ensures var row := store.db.rows[id];
              && (ok <==> (Exposing(store.environment, row) ==> GuardsAgree(View(), row, order)))
              && (ok ==> observed == if Exposing(store.environment, row) then Guards(View(), row) else {})
    {
      var row := store.db.rows[id];
      observed := {};
      if !Exposing(store.environment, row) {
        return true, observed;
      }
      var pending := Unobserved(store.db, row.account, row.request.orderId);
      while pending != {}
        invariant pending + observed == Guards(View(), row)
        invariant forall g | g in observed ::
                    var merged := store.db.rows[g].merged;
                    merged.Some? && Agrees(store.environment, merged.value, order)
        decreases |pending|
      {
        var g :| g in pending;
        var merged := store.db.rows[g].merged;
        if merged.None? || !Agrees(store.environment, merged.value, order) {
          return false, observed;
        }
        observed := observed + {g};
        pending := pending - {g};
      }
      ok := true;
    }

    /** The broker shows what every earlier modification of this order asked for, where that matters. */
    ghost predicate GuardsShown(id: OpId, order: BrokerOrder)
      requires id in store.db.rows
      reads this, store
    {
      var row := store.db.rows[id];
      Exposing(store.environment, row) ==> GuardsAgree(View(), row, order)
    }

    method PrepareDispatch(order: BrokerOrder, ghost observed: set<OpId>)
      requires Enabled(View(), Prepare(order))
      requires observed == AfterPrepare(View(), order).activity.observed
      modifies this
      ensures View() == After(old(View()), Prepare(order))
      ensures activity == old(activity).(stage := Cleared, order := order, observed := observed)
    {
      activity := activity.(stage := Cleared, order := order, observed := observed);
    }

    /** The durable marker, committed before the one broker call. */
    method MarkDispatch(id: OpId, merged: Request, commit: Commit) returns (ok: bool)
      requires Enabled(View(), MarkRow(merged, commit)) && activity.id == id
      modifies this, store
      ensures View() == After(old(View()), MarkRow(merged, commit))
      ensures activity == old(activity).(stage := if ok then Marked else Refusing)
      ensures old(store.View()).Usable() ==>
                (ok <==> commit == Commits && old(store.db.rows[id]).state == ADMITTED)
      ensures id in store.db.rows && (ok ==> store.View().Usable())
    {
      var r := store.Mark(id, merged, commit);
      ok := r.Done?;
      activity := activity.(stage := if ok then Marked else Refusing);
    }

    /** The single SDK mutation call, and whatever it answers. */
    method CallBroker(ghost id: OpId, ghost answer: Answer)
      requires InStage(View(), {Marked}) && activity.id == id
      modifies this
      ensures Enabled(After(old(View()), Call(id)), Step.Answer(answer))
      ensures View() == After(After(old(View()), Call(id)), Step.Answer(answer))
      ensures activity == old(activity).(stage := Answered(answer))
    {
      calls := calls + multiset{id};
      activity := activity.(stage := Answered(answer));
    }

    /** The row tells how the one call ended, with what was kept of the broker's receipt. */
    ghost predicate Records(id: OpId, state: RowState, receipt: Option<Receipt>)
      reads store
    {
      id in store.db.rows && store.db.rows[id].state == state && store.db.rows[id].receipt == receipt
    }

    /** Remember an outcome that was not stored, or cannot be read back; it blocks until restart. */
    method Remember(id: OpId, identity: string, stored: Status<()>, back: ReadBack)
      modifies this`late, store`failed
      ensures store.View() == Reread(old(store.View()), stored, back)
      ensures late.Keys == old(late.Keys) + (if stored.Done? && back.Readable? then {} else {id})
    {
      if !stored.Done? || !back.Readable? {
        if stored.Done? && back.StorageRaises? {
          store.failed := true;
        }
        late := late[id := identity];
      }
    }

    /** Store an outcome observed after the marker. */
    method StoreOutcome(id: OpId, identity: string, observed: set<OpId>, answer: Answer, commit: Commit,
                        back: ReadBack)
      returns (r: Executed)
      requires activity.Executing? && activity.id == id && activity.observed == observed
      requires activity.stage == Answered(answer)
      modifies this, store
      ensures View() == After(old(View()), StoreAnswer(commit, back))
      ensures activity.Free?
      ensures r.Finished? && r.state == (if answer.NoAck? then UNKNOWN_OUTCOME else ACKNOWLEDGED)
      ensures old(store.View()).Usable() ==> (r.durable <==> commit == Commits)
      ensures r.durable && old(id in store.db.rows) ==>
                Records(id, r.state, Kept(answer))
    {
      var stored := store.StoreOutcome(id, AnswerState(answer), AnswerDisposition(answer),
                                       AnswerReceipt(answer), AnswerReason(answer), observed, commit);
      activity := Free;
      Remember(id, identity, stored, back);
      r := Finished(AnswerState(answer), stored.Done?);
    }

    /** The same as the last step of a run. */
    method Conclude(ghost s: System, ghost before: seq<Step>, id: OpId, identity: string, observed: set<OpId>,
                    answer: Answer, commit: Commit, back: ReadBack)
      returns (r: Executed, ghost steps: seq<Step>)
      requires Runs(s, before) && Exec(s, before) == View()
      requires activity.Executing? && activity.id == id && activity.observed == observed
      requires activity.stage == Answered(answer)
      modifies this, store
      ensures Runs(s, steps) && Exec(s, steps) == View() && activity.Free?
      ensures CallCount(steps, id) == CallCount(before, id)
      ensures r.Finished? && r.state == (if answer.NoAck? then UNKNOWN_OUTCOME else ACKNOWLEDGED)
      ensures old(store.View()).Usable() ==> (r.durable <==> commit == Commits)
      ensures r.durable && old(id in store.db.rows) ==>
                Records(id, r.state, Kept(answer))
    {
      r := StoreOutcome(id, identity, observed, answer, commit, back);
      Extend(s, before, StoreAnswer(commit, back));
      StillOneCall(before, id, StoreAnswer(commit, back));
      steps := before + [StoreAnswer(commit, back)];
    }

    /** Give up before the marker. Only the REAL executor remembers a lost refusal. */
    method RefuseAdmitted(id: OpId, identity: string, commit: Commit, back: ReadBack)
      requires InStage(View(), {Entered, Cleared, Refusing}) && activity.id == id
      modifies this, store
      ensures View() == After(old(View()), Refuse(commit, back))
      ensures activity.Free?
    {
      var stored := store.StoreOutcome(id, REFUSED, NOT_SENT, None, None, {}, commit);
      activity := Free;
      if store.environment == REAL {
        Remember(id, identity, stored, back);
      }
    }
  }
}
