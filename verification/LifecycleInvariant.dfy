/**
 The inductive invariant of the mutation protocol, proved step by step. It is one
 predicate over the durable rows and one over the process that is running on them.
 */
module LifecycleInvariant {
  import opened Wrappers
  import opened Journal
  import opened ExecutionStore
  import opened RecoveryCheck
  import opened Lifecycle

  /** What a row's state says about its sending, its resolution and its identifiers. */
  predicate RowSound(row: Row) {
    && (row.marker <==> row.merged.Some?)
    && (row.state in {ADMITTED, REFUSED} ==> !row.marker)
    && (row.state in {DISPATCHING, ACKNOWLEDGED} ==> row.marker)
    && (row.receipt.Some? && row.receipt.value.orderId.Some? ==> row.brokerOrderId == row.receipt.value.orderId)
    && DispositionFits(row.state, row.disposition) && RecoveryFits(row.state, row.recovery)
  }

  predicate DispositionFits(state: RowState, disposition: Disposition) {
    match state
    case ADMITTED => disposition == PENDING_CHECKS
    case DISPATCHING => disposition == IN_FLIGHT
    case ACKNOWLEDGED => disposition == ACKED
    case UNKNOWN_OUTCOME => disposition == POSSIBLY_SENT
    case REFUSED => disposition == NOT_SENT
    case _ => disposition == BROKER_ACCOUNTED
  }

  predicate RecoveryFits(state: RowState, recovery: Option<Resolution>) {
    match recovery
    case None => state !in {RECONCILED, TERMINAL_ACCOUNTED}
    case Some(ASSUMED_ABSENT) => state == UNKNOWN_OUTCOME
    case Some(NOT_DISPATCHED) => state == REFUSED
    case Some(TERMINAL_RESOLVED) => state == TERMINAL_ACCOUNTED
    case Some(_) => state == RECONCILED
  }

  predicate RowsSound(j: Journal) {
    forall id | id in j.rows :: RowSound(j.rows[id]) && j.rows[id].epoch in j.epochs
  }

  /** An outcome nobody knows keeps the gate closed until absence is assumed. */
  predicate UncertaintyGated(j: Journal) {
    forall id | id in j.rows && j.rows[id].state == UNKNOWN_OUTCOME ::
      Pending(j, id) || AssumedAbsent(j.rows[id])
  }

  predicate RequirementsOwned(j: Journal) {
    forall p | p in j.requirements :: p.0 in j.rows
  }

  predicate OneDispatching(j: Journal) {
    forall a, b | a in j.rows && b in j.rows
      && j.rows[a].state == DISPATCHING && j.rows[b].state == DISPATCHING :: a == b
  }

  predicate CallsMarked(j: Journal, calls: multiset<OpId>) {
    forall id | id in calls :: calls[id] == 1 && id in j.rows && j.rows[id].marker
  }

  /** What holds of the rows whether or not a process is running. */
  predicate Durable(j: Journal, calls: multiset<OpId>) {
    && RowsSound(j) && UncertaintyGated(j) && RequirementsOwned(j)
    && OneDispatching(j) && CallsMarked(j, calls)
  }

  predicate LiveRow(s: System, row: Row) {
    row.epoch == s.store.epoch && row.state in {ADMITTED, DISPATCHING}
  }

  predicate QueueSound(s: System) {
    forall id | id in s.queued ::
      && id in s.store.db.rows && id !in s.calls
      && s.store.db.rows[id].epoch == s.store.epoch
      && s.store.db.rows[id].state == ADMITTED
  }

  predicate LiveUnreviewed(s: System) {
    forall p | p in s.store.db.requirements && p.0 in s.store.db.rows ::
      !LiveRow(s, s.store.db.rows[p.0])
  }

  predicate InFlight(s: System, id: OpId) {
    s.activity.Executing? && s.activity.id == id
    && (s.activity.stage in {Marked, Called} || s.activity.stage.Answered?)
  }

  predicate DispatchingOwned(s: System) {
    forall id | id in s.store.db.rows && s.store.db.rows[id].state == DISPATCHING ::
      s.store.db.rows[id].epoch == s.store.epoch && (s.store.failed || InFlight(s, id))
  }

  predicate GateHeld(s: System) { s.late == {} && s.store.db.requirements == {} && s.store.reviewed }

  predicate PreparedFor(s: System, row: Row) {
    s.activity.Executing? ==>
      if Exposing(s.store.env, row)
      then GuardsAgree(s, row, s.activity.order) && s.activity.observed == Guards(s, row)
      else s.activity.observed == {}
  }

  predicate ActivitySound(s: System) {
    match s.activity
    case Free => true
    case Executing(id, stage, order, observed) =>
      && id in s.store.db.rows && id !in s.queued
      && var row := s.store.db.rows[id];
         && row.epoch == s.store.epoch
         && (stage in {Entered, Cleared, Refusing} ==>
               id !in s.calls && (row.state == ADMITTED || (row.state == DISPATCHING && s.store.failed)))
         && (stage == Cleared ==> row.state == ADMITTED)
         && (stage == Marked ==> id !in s.calls)
         && (InFlight(s, id) ==> row.state == DISPATCHING)
         && (stage == Called || stage.Answered? ==> id in s.calls)
         && (stage in {Cleared, Marked, Called} || stage.Answered? ==>
               GateHeld(s) && PreparedFor(s, row))
    case Checking(id, row, started, blocked) =>
      && id in s.store.db.rows && s.store.db.rows[id] == row && id !in s.queued
      && !LiveRow(s, row) && s.late == {}
      && row.nextCheckAt <= started <= s.now
      && (Pending(s.store.db, id) || AssumedAbsent(row))
      && (blocked ==> (id, LATE_ORDER_FOUND) in s.store.db.requirements)
  }

  predicate NoCurrentRows(s: System) {
    forall id | id in s.store.db.rows :: s.store.db.rows[id].epoch != s.store.epoch
  }

  predicate Process(s: System) {
    if s.running then
      && s.store.epoch in s.store.db.epochs
      && !s.store.closed
      && QueueSound(s) && LiveUnreviewed(s) && DispatchingOwned(s) && ActivitySound(s)
      && (!s.store.reviewed ==> s.activity.Free? && s.queued == {} && NoCurrentRows(s))
    else
      s.queued == {} && s.late == {} && s.activity.Free?
  }

  predicate Core(s: System) { Durable(s.store.db, s.calls) && Process(s) }

  /** A thread that outlived its process still has its one call, and only under its old epoch. */
  predicate OrphansSound(s: System) {
    forall id | id in s.orphans ::
      && id in s.store.db.rows && s.store.db.rows[id].marker && id !in s.calls
      && (s.running ==> s.store.db.rows[id].epoch != s.store.epoch)
  }

  predicate Inv(s: System) { Core(s) && OrphansSound(s) }

  lemma StartSatisfies(env: Env)
    ensures Inv(Start(env))
  {
  }

  // ------------------------------------------------------------ durable rows

  lemma StartUpDurable(j: Journal, calls: multiset<OpId>, epoch: Epoch)
    requires Durable(j, calls)
    ensures Durable(StartUp(j, epoch), calls)
    ensures forall id | id in j.rows :: StartUp(j, epoch).rows[id].state != DISPATCHING
  {
    StartUpGated(j, epoch);
    StartUpSound(j, epoch);
  }

  lemma StartUpSound(j: Journal, epoch: Epoch)
    requires RowsSound(j)
    ensures RowsSound(StartUp(j, epoch))
    ensures forall id | id in j.rows :: StartUp(j, epoch).rows[id].state != DISPATCHING
  {
  }

  lemma StartUpGated(j: Journal, epoch: Epoch)
    requires RowsSound(j) && UncertaintyGated(j)
    ensures UncertaintyGated(StartUp(j, epoch))
  {
    var n := StartUp(j, epoch);
    forall id | id in n.rows && n.rows[id].state == UNKNOWN_OUTCOME
      ensures Pending(n, id) || AssumedAbsent(n.rows[id])
    {
      if NeedsStartupReview(n.rows[id]) {
        assert (id, STARTUP_REVIEW) in n.requirements;
      } else {
        assert j.rows[id].state == UNKNOWN_OUTCOME;
        PendingGrows(j, n, id);
      }
    }
  }

  lemma PendingGrows(j: Journal, n: Journal, id: OpId)
    requires j.requirements <= n.requirements
    ensures Pending(j, id) ==> Pending(n, id)
  {
    if Pending(j, id) {
      var p :| p in j.requirements && p.0 == id;
      assert p in n.requirements;
    }
  }

  lemma ReviewDurable(j: Journal, calls: multiset<OpId>)
    requires Durable(j, calls)
    ensures Durable(Review(j), calls)
  {
    forall id | id in j.rows
      ensures Pending(j, id) ==> Pending(Review(j), id)
    {
      PendingGrows(j, Review(j), id);
    }
  }

  /** Replacing one row keeps the durable invariant when the new row is sound by itself. */
  lemma UpdateDurable(j: Journal, calls: multiset<OpId>, id: OpId, row: Row, added: set<(OpId, Reason)>)
    requires Durable(j, calls)
    requires RowSound(row) && row.epoch in j.epochs
    requires row.state == UNKNOWN_OUTCOME ==>
               (exists p | p in j.requirements + added :: p.0 == id) || AssumedAbsent(row)
    requires row.state == DISPATCHING ==>
               forall a | a in j.rows && a != id :: j.rows[a].state != DISPATCHING
    requires id in calls ==> row.marker
    requires forall p | p in added :: p.0 == id
    ensures Durable(j.(rows := j.rows[id := row], requirements := j.requirements + added), calls)
  {
    var n := j.(rows := j.rows[id := row], requirements := j.requirements + added);
    forall a | a in n.rows && n.rows[a].state == UNKNOWN_OUTCOME
      ensures Pending(n, a) || AssumedAbsent(n.rows[a])
    {
      PendingGrows(j, n, a);
    }
  }

  lemma RetireDurable(j: Journal, calls: multiset<OpId>, ids: set<OpId>)
    requires Durable(j, calls)
    ensures Durable(j.(rows := RetireObserved(j.rows, ids)), calls)
  {
    var n := j.(rows := RetireObserved(j.rows, ids));
    forall a | a in n.rows && n.rows[a].state == UNKNOWN_OUTCOME
      ensures Pending(n, a) || AssumedAbsent(n.rows[a])
    {
      PendingGrows(j, n, a);
    }
  }

  lemma OutcomeDurable(j: Journal, calls: multiset<OpId>, id: OpId, state: RowState,
                       disposition: Disposition, receipt: Option<Receipt>, reason: Option<Reason>,
                       retire: set<OpId>)
    requires Durable(j, calls) && id in j.rows
    requires RowSound(OutcomeRow(j.rows[id], state, disposition, receipt))
    requires state == UNKNOWN_OUTCOME ==> reason.Some?
    requires state != DISPATCHING
    ensures Durable(Outcome(j, id, state, disposition, receipt, reason, retire), calls)
  {
    var row := OutcomeRow(j.rows[id], state, disposition, receipt);
    var added := if reason.Some? then {(id, reason.value)} else {};
    if reason.Some? {
      assert (id, reason.value) in j.requirements + added;
    }
    UpdateDurable(j, calls, id, row, added);
    var n := j.(rows := j.rows[id := row], requirements := j.requirements + added);
    RetireDurable(n, calls, retire);
  }

  /** Resolving an operation lifts only its own requirements, and only from a settled row. */
  lemma ResolveDurable(j: Journal, calls: multiset<OpId>, id: OpId, row: Row)
    requires Durable(j, calls) && id in j.rows
    requires RowSound(row) && row.epoch in j.epochs && row.state != DISPATCHING
    requires row.state == UNKNOWN_OUTCOME ==> AssumedAbsent(row)
    requires id in calls ==> row.marker
    ensures Durable(j.(rows := j.rows[id := row],
                       requirements := set p | p in j.requirements && p.0 != id), calls)
  {
    var n := j.(rows := j.rows[id := row], requirements := set p | p in j.requirements && p.0 != id);
    forall a | a in n.rows && n.rows[a].state == UNKNOWN_OUTCOME
      ensures Pending(n, a) || AssumedAbsent(n.rows[a])
    {
      if a != id && Pending(j, a) {
        var p :| p in j.requirements && p.0 == a;
        assert p in n.requirements;
      }
    }
  }

  lemma RecordDurable(env: Env, j: Journal, calls: multiset<OpId>, id: OpId, observed: RowState, f: Finding)
    requires Durable(j, calls)
    requires RecordRecovery(env, j, id, observed, f).Ok?
    requires f.resolution.Some? ==> j.rows[id].state != DISPATCHING
    ensures Durable(RecordRecovery(env, j, id, observed, f).value, calls)
  {
    var row := j.rows[id];
    var checked := row.(checks := row.checks + [f.check], nextCheckAt := f.nextCheckAt);
    if f.resolution.None? {
      assert j.requirements + {} == j.requirements;
      UpdateDurable(j, calls, id, checked, {});
    } else {
      var (state, disposition) := Resolve(env, row, checked.checks, f).value;
      ResolveDurable(j, calls, id, ResolvedRow(checked, state, disposition, f));
    }
  }

  // ------------------------------------------------------------ the process

  /** Changing a row that acknowledges nothing leaves every prepared modification prepared. */
  lemma UpdatePrepared(s: System, id: OpId, row: Row, target: Row, t: System)
    requires t.store.db.rows == s.store.db.rows[id := row]
    requires t.store.env == s.store.env && t.activity == s.activity
    requires row.state != ACKNOWLEDGED
    requires id in s.store.db.rows ==> s.store.db.rows[id].state != ACKNOWLEDGED
    ensures PreparedFor(s, target) ==> PreparedFor(t, target)
  {
    assert Guards(t, target) == Guards(s, target);
  }

  lemma OpenKeeps(s: System, epoch: Epoch, commit: Commit)
    requires Core(s) && !s.running && epoch !in s.store.db.epochs
    ensures Core(AfterOpen(s, epoch, commit))
  {
    StartUpDurable(s.store.db, s.calls, epoch);
  }

  lemma ReviewKeeps(s: System, commit: Commit)
    requires Core(s) && s.running && !s.store.reviewed
    ensures Core(s.(store := WithReview(s.store, commit).0))
  {
    ReviewDurable(s.store.db, s.calls);
  }

  lemma AdmitKeeps(s: System, id: OpId, claimed: Epoch, row: Row, commit: Commit)
    requires Core(s) && s.running && row.epoch == claimed && NewAdmission(row)
    ensures Core(AfterAdmit(s, id, claimed, row, commit))
  {
    var t := AfterAdmit(s, id, claimed, row, commit);
    if t.store.db != s.store.db {
      assert t.store.db == s.store.db.(rows := s.store.db.rows[id := row]);
      InsertKeeps(s, id, row, t);
    }
  }

  lemma InsertKeeps(s: System, id: OpId, row: Row, t: System)
    requires Inserted(s, id, row, t)
    ensures Core(t)
  {
    assert s.store.db.requirements + {} == s.store.db.requirements;
    UpdateDurable(s.store.db, s.calls, id, row, {});
    InsertActivity(s, id, row, t);
  }

  /** A concurrent admission: it neither needs nor touches the mutex. */
  ghost predicate Inserted(s: System, id: OpId, row: Row, t: System) {
    && Core(s) && s.running && s.store.reviewed && s.store.db.requirements == {}
    && id !in s.store.db.rows && row.epoch == s.store.epoch && NewAdmission(row) && RowSound(row)
    && t == s.(store := s.store.(db := s.store.db.(rows := s.store.db.rows[id := row]),
                                 failed := t.store.failed), queued := t.queued)
    && (s.store.failed ==> t.store.failed)
    && (t.queued == s.queued || t.queued == s.queued + {id})
  }

  lemma InsertActivity(s: System, id: OpId, row: Row, t: System)
    requires Inserted(s, id, row, t)
    ensures ActivitySound(t)
  {
    if s.activity.Executing? {
      UpdatePrepared(s, id, row, s.store.db.rows[s.activity.id], t);
    }
  }

  lemma MarkKeeps(s: System, merged: Request, commit: Commit)
    requires Core(s) && InStage(s, {Cleared})
    ensures Core(AfterMark(s, merged, commit))
  {
    var t := AfterMark(s, merged, commit);
    if t.store.db != s.store.db {
      MarkedKeeps(s, t);
    }
  }

  lemma MarkedKeeps(s: System, t: System)
    requires Core(s) && InStage(s, {Cleared}) && s.store.Usable()
    requires exists merged, commit :: t == AfterMark(s, merged, commit) && t.store.db != s.store.db
    ensures Core(t)
  {
    var id := s.activity.id;
    var j := s.store.db;
    var row := t.store.db.rows[id];
    assert t.store.db == j.(rows := j.rows[id := row]);
    assert j.requirements + {} == j.requirements;
    UpdateDurable(j, s.calls, id, row, {});
    UpdatePrepared(s, id, row, row, s.(store := t.store));
    assert ActivitySound(t);
  }

  lemma PrepareKeeps(s: System, order: BrokerOrder)
    requires Core(s) && Enabled(s, Prepare(order))
    ensures Core(AfterPrepare(s, order))
  {
    var t := AfterPrepare(s, order);
    assert ActivitySound(t);
  }

  lemma CallKeeps(s: System)
    requires Core(s) && InStage(s, {Marked})
    ensures Core(s.(activity := s.activity.(stage := Called), calls := s.calls + multiset{s.activity.id}))
  {
    var t := s.(activity := s.activity.(stage := Called), calls := s.calls + multiset{s.activity.id});
    assert Durable(t.store.db, t.calls);
    assert ActivitySound(t);
  }

  lemma AnswerKeeps(s: System, answer: Answer)
    requires Core(s) && InStage(s, {Called})
    ensures Core(s.(activity := s.activity.(stage := Answered(answer))))
  {
    assert ActivitySound(s.(activity := s.activity.(stage := Answered(answer))));
  }

  /** The holder of the mutex stores the end of its own operation and leaves. */
  lemma OutcomeKeeps(s: System, state: RowState, disposition: Disposition, receipt: Option<Receipt>,
                     reason: Option<Reason>, retire: set<OpId>, t: System)
    requires Core(s) && s.running && s.activity.Executing? && s.store.Usable()
    requires s.store.db.rows[s.activity.id].state == ADMITTED || !InStage(s, {Entered, Cleared, Refusing})
    requires RowSound(OutcomeRow(s.store.db.rows[s.activity.id], state, disposition, receipt))
    requires state == UNKNOWN_OUTCOME ==> reason.Some?
    requires state !in {ADMITTED, DISPATCHING}
    requires t == s.(store := s.store.(failed := t.store.failed,
                       db := Outcome(s.store.db, s.activity.id, state, disposition, receipt, reason, retire)),
                     activity := Free, late := t.late)
    ensures Core(t)
  {
    var j := s.store.db;
    var id := s.activity.id;
    OutcomeDurable(j, s.calls, id, state, disposition, receipt, reason, retire);
    OutcomeRows(j, id, state, disposition, receipt, reason, retire);
    assert QueueSound(t);
    OutcomeUnreviewed(s, t);
  }

  lemma OutcomeUnreviewed(s: System, t: System)
    requires Core(s) && s.running && s.activity.Executing? && s.store.Usable()
    requires t.store.epoch == s.store.epoch && t.activity.Free?
    requires var id := s.activity.id;
             && t.store.db.rows.Keys == s.store.db.rows.Keys
             && t.store.db.rows[id].state !in {ADMITTED, DISPATCHING}
             && (forall a | a in s.store.db.rows && a != id ::
                   t.store.db.rows[a] == s.store.db.rows[a]
                   || t.store.db.rows[a] == s.store.db.rows[a].(observed := true))
             && (forall p | p in t.store.db.requirements :: p in s.store.db.requirements || p.0 == id)
    ensures LiveUnreviewed(t) && DispatchingOwned(t)
  {
    var id := s.activity.id;
    forall a | a in s.store.db.rows && s.store.db.rows[a].state == DISPATCHING
      ensures a == id
    {
      assert InFlight(s, a);
    }
  }

  lemma OutcomeRows(j: Journal, id: OpId, state: RowState, disposition: Disposition,
                    receipt: Option<Receipt>, reason: Option<Reason>, retire: set<OpId>)
    requires id in j.rows
    ensures var n := Outcome(j, id, state, disposition, receipt, reason, retire);
            && n.rows.Keys == j.rows.Keys
            && n.rows[id].state == state
            && n.rows[id].epoch == j.rows[id].epoch && n.rows[id].marker == j.rows[id].marker
            && (forall a | a in j.rows && a != id ::
                  n.rows[a] == j.rows[a] || n.rows[a] == j.rows[a].(observed := true))
            && (forall p | p in n.requirements :: p in j.requirements || p.0 == id)
  {
  }

  lemma AnswerSound(row: Row, a: Answer)
    requires RowSound(row) && row.state == DISPATCHING
    ensures RowSound(OutcomeRow(row, AnswerState(a), AnswerDisposition(a), AnswerReceipt(a)))
    ensures AnswerState(a) == UNKNOWN_OUTCOME ==> AnswerReason(a).Some?
    ensures AnswerState(a) !in {ADMITTED, DISPATCHING}
  {
  }

  lemma StoreKeeps(s: System, commit: Commit, back: ReadBack)
    requires Core(s) && Enabled(s, StoreAnswer(commit, back))
    ensures Core(AfterStore(s, commit, back))
  {
    var t := AfterStore(s, commit, back);
    var a := s.activity.stage.answer;
    if s.store.Usable() && commit != RaisesOld {
      assert InFlight(s, s.activity.id) && !InStage(s, {Entered, Cleared, Refusing});
      AnswerSound(s.store.db.rows[s.activity.id], a);
      OutcomeKeeps(s, AnswerState(a), AnswerDisposition(a), AnswerReceipt(a), AnswerReason(a),
                   s.activity.observed, t);
    } else {
      assert t.store == s.store.(failed := t.store.failed);
      LeaveKeeps(s, t);
    }
  }

  lemma RefuseKeeps(s: System, commit: Commit, back: ReadBack)
    requires Core(s) && Enabled(s, Refuse(commit, back))
    ensures Core(AfterRefuse(s, commit, back))
  {
    var t := AfterRefuse(s, commit, back);
    var row := s.store.db.rows[s.activity.id];
    if s.store.Usable() && commit != RaisesOld {
      assert RowSound(row) && row.state == ADMITTED;
      OutcomeKeeps(s, REFUSED, NOT_SENT, None, None, {}, t);
    } else {
      assert t.store == s.store.(failed := t.store.failed);
      LeaveKeeps(s, t);
    }
  }

  /** Giving up the mutex without writing; nobody else can dispatch on a poisoned store. */
  lemma LeaveKeeps(s: System, t: System)
    requires Core(s) && s.running
    requires t == s.(store := s.store.(failed := t.store.failed), activity := Free, late := t.late)
    requires s.activity.Executing? ==> t.store.failed
    requires s.store.failed ==> t.store.failed
    ensures Core(t)
  {
  }

  lemma BeginCheckKeeps(s: System, id: OpId)
    requires Core(s) && Enabled(s, BeginCheck(id))
    ensures Core(After(s, BeginCheck(id)))
  {
    var row := s.store.db.rows[id];
    if Pending(s.store.db, id) {
      var p :| p in s.store.db.requirements && p.0 == id;
      assert !LiveRow(s, row);
    }
  }

  lemma LateKeeps(s: System, commit: Commit)
    requires Core(s) && Enabled(s, SeeLateOrder(commit))
    ensures Core(After(s, SeeLateOrder(commit)))
  {
    var t := After(s, SeeLateOrder(commit));
    if t.store.db != s.store.db {
      BlockedKeeps(s, t);
    } else if t.activity.Free? {
      LeaveKeeps(s, t);
    } else {
      assert s.activity.id in t.store.db.rows;
    }
  }

  lemma BlockedKeeps(s: System, t: System)
    requires Core(s) && s.running && s.activity.Checking?
    requires t.store == s.store.(failed := t.store.failed, db := BlockLateOrder(s.store.db, s.activity.id))
    requires s.store.failed ==> t.store.failed
    requires t == s.(store := t.store, activity := t.activity)
    requires t.activity == Free || t.activity == s.activity.(blocked := true)
    ensures Core(t)
  {
    var j := s.store.db;
    var id := s.activity.id;
    assert j.rows[id := j.rows[id]] == j.rows;
    UpdateDurable(j, s.calls, id, j.rows[id], {(id, LATE_ORDER_FOUND)});
    assert (id, LATE_ORDER_FOUND) in t.store.db.requirements;
  }

  lemma RecordKeeps(s: System, evidence: Evidence, commit: Commit)
    requires Core(s) && Enabled(s, RecordCheck(evidence, commit))
    ensures Core(AfterRecord(s, evidence, commit))
  {
    var f := FindingOf(s.store.env, s.activity.row, s.activity.started, s.now, evidence);
    var t := AfterRecord(s, evidence, commit);
    if t.store.db != s.store.db {
      RecordedKeeps(s, f, t);
    } else {
      LeaveKeeps(s, t);
    }
  }

  lemma RecordedKeeps(s: System, f: Finding, t: System)
    requires Core(s) && s.running && s.activity.Checking?
    requires RecordRecovery(s.store.env, s.store.db, s.activity.id, s.activity.row.state, f).Ok?
    requires t == s.(store := s.store.(failed := t.store.failed,
                       db := RecordRecovery(s.store.env, s.store.db, s.activity.id,
                                            s.activity.row.state, f).value), activity := Free)
    requires s.store.failed ==> t.store.failed
    requires s.activity.row.state != DISPATCHING
    ensures Core(t)
  {
    RecordDurable(s.store.env, s.store.db, s.calls, s.activity.id, s.activity.row.state, f);
    RecordedProcess(s, f, t);
  }

  lemma RecordedProcess(s: System, f: Finding, t: System)
    requires Core(s) && s.running && s.activity.Checking?
    requires RecordRecovery(s.store.env, s.store.db, s.activity.id, s.activity.row.state, f).Ok?
    requires t.store.db == RecordRecovery(s.store.env, s.store.db, s.activity.id,
                                          s.activity.row.state, f).value
    requires t == s.(store := s.store.(failed := t.store.failed, db := t.store.db), activity := Free)
    requires s.store.failed ==> t.store.failed
    ensures Process(t)
  {
    RecordRows(s.store.env, s.store.db, s.activity.id, s.activity.row.state, f);
  }

  lemma RecordRows(env: Env, j: Journal, id: OpId, observed: RowState, f: Finding)
    requires RecordRecovery(env, j, id, observed, f).Ok?
    ensures var n := RecordRecovery(env, j, id, observed, f).value;
            && n.rows.Keys == j.rows.Keys && n.epochs == j.epochs
            && n.rows[id].epoch == j.rows[id].epoch && n.rows[id].marker == j.rows[id].marker
            && (n.rows[id].state == j.rows[id].state
                || n.rows[id].state !in {ADMITTED, DISPATCHING})
            && (forall a | a in j.rows && a != id :: n.rows[a] == j.rows[a])
            && n.requirements <= j.requirements
  {
  }

  lemma EndedKeeps(s: System)
    requires Core(s) && s.running
    ensures Core(Ended(s))
  {
  }

  /** A late call meets a marked row nobody else can call for. */
  lemma LateCallKeeps(s: System, id: OpId)
    requires Inv(s) && id in s.orphans
    ensures Core(After(s, LateCall(id)))
  {
    var t := After(s, LateCall(id));
    assert Durable(t.store.db, t.calls);
    assert s.running ==> ActivitySound(t);
  }

  lemma PlainStepsKeep(s: System, step: Step)
    requires Core(s) && Enabled(s, step)
    requires step.Tick? || step.Enter? || step.LeaveCheck? || step.ReadFails?
    ensures Core(After(s, step))
  {
  }

  lemma CoreKeeps(s: System, step: Step)
    requires Inv(s) && Enabled(s, step)
    ensures Core(After(s, step))
  {
    match step
    case Open(epoch, commit) => OpenKeeps(s, epoch, commit);
    case ReviewRows(commit) => ReviewKeeps(s, commit);
    case AdmitCaller(id, claimed, row, commit) => AdmitKeeps(s, id, claimed, row, commit);
    case Prepare(order) => PrepareKeeps(s, order);
    case MarkRow(merged, commit) => MarkKeeps(s, merged, commit);
    case Call(_) => CallKeeps(s);
    case Answer(answer) => AnswerKeeps(s, answer);
    case StoreAnswer(commit, back) => StoreKeeps(s, commit, back);
    case Refuse(commit, back) => RefuseKeeps(s, commit, back);
    case BeginCheck(id) => BeginCheckKeeps(s, id);
    case SeeLateOrder(commit) => LateKeeps(s, commit);
    case RecordCheck(evidence, commit) => RecordKeeps(s, evidence, commit);
    case Crash => EndedKeeps(s);
    case CloseStore => EndedKeeps(s);
    case LateCall(id) => LateCallKeeps(s, id);
    case _ => PlainStepsKeep(s, step);
  }

  // ------------------------------------------------------------ threads that outlive their process

  /** No step removes a row, moves it to another epoch or takes its marker away. */
  predicate RowKept(j: Journal, n: Journal, id: OpId) {
    id in j.rows ==>
      id in n.rows && n.rows[id].epoch == j.rows[id].epoch && (j.rows[id].marker ==> n.rows[id].marker)
  }

  lemma OpenKeepsRow(s: System, epoch: Epoch, commit: Commit, id: OpId)
    ensures RowKept(s.store.db, AfterOpen(s, epoch, commit).store.db, id)
  {
  }

  lemma AdmitKeepsRow(s: System, step: Step, id: OpId)
    requires step.AdmitCaller? && Enabled(s, step)
    ensures RowKept(s.store.db, After(s, step).store.db, id)
  {
  }

  lemma MarkKeepsRow(s: System, merged: Request, commit: Commit, id: OpId)
    requires s.activity.Executing?
    ensures RowKept(s.store.db, AfterMark(s, merged, commit).store.db, id)
  {
  }

  lemma OutcomeKeepsRow(store: Store, id: OpId, state: RowState, disposition: Disposition,
                        receipt: Option<Receipt>, reason: Option<Reason>, retire: set<OpId>,
                        commit: Commit, a: OpId)
    requires id in store.db.rows
    ensures RowKept(store.db, WithOutcome(store, id, state, disposition, receipt, reason, retire, commit).0.db, a)
  {
    OutcomeRows(store.db, id, state, disposition, receipt, reason, retire);
  }

  lemma StoreKeepsRow(s: System, commit: Commit, back: ReadBack, id: OpId)
    requires Core(s) && Enabled(s, StoreAnswer(commit, back))
    ensures RowKept(s.store.db, AfterStore(s, commit, back).store.db, id)
  {
    var a := s.activity.stage.answer;
    OutcomeKeepsRow(s.store, s.activity.id, AnswerState(a), AnswerDisposition(a), AnswerReceipt(a),
                    AnswerReason(a), s.activity.observed, commit, id);
  }

  lemma RefuseKeepsRow(s: System, commit: Commit, back: ReadBack, id: OpId)
    requires Core(s) && Enabled(s, Refuse(commit, back))
    ensures RowKept(s.store.db, AfterRefuse(s, commit, back).store.db, id)
  {
    OutcomeKeepsRow(s.store, s.activity.id, REFUSED, NOT_SENT, None, None, {}, commit, id);
  }

  lemma FindingKeepsRow(store: Store, id: OpId, observed: RowState, f: Finding, commit: Commit, a: OpId)
    ensures RowKept(store.db, WithFinding(store, id, observed, f, commit).0.db, a)
  {
    if RecordRecovery(store.env, store.db, id, observed, f).Ok? {
      RecordRows(store.env, store.db, id, observed, f);
    }
  }

  lemma RecordKeepsRow(s: System, evidence: Evidence, commit: Commit, id: OpId)
    requires Enabled(s, RecordCheck(evidence, commit))
    ensures RowKept(s.store.db, AfterRecord(s, evidence, commit).store.db, id)
  {
    var f := FindingOf(s.store.env, s.activity.row, s.activity.started, s.now, evidence);
    FindingKeepsRow(s.store, s.activity.id, s.activity.row.state, f, commit, id);
  }

  lemma PlainKeepsRows(s: System, step: Step)
    requires Enabled(s, step) && !step.Open? && !step.AdmitCaller? && !step.MarkRow?
    requires !step.StoreAnswer? && !step.Refuse? && !step.RecordCheck?
    ensures After(s, step).store.db.rows == s.store.db.rows
  {
  }

  lemma StepKeepsRow(s: System, step: Step, id: OpId)
    requires Core(s) && Enabled(s, step)
    ensures RowKept(s.store.db, After(s, step).store.db, id)
  {
    match step
    case Open(epoch, commit) => OpenKeepsRow(s, epoch, commit, id);
    case AdmitCaller(_, _, _, _) => AdmitKeepsRow(s, step, id);
    case MarkRow(merged, commit) => MarkKeepsRow(s, merged, commit, id);
    case StoreAnswer(commit, back) => StoreKeepsRow(s, commit, back, id);
    case Refuse(commit, back) => RefuseKeepsRow(s, commit, back, id);
    case RecordCheck(evidence, commit) => RecordKeepsRow(s, evidence, commit, id);
    case _ => PlainKeepsRows(s, step);
  }

  /** Who a thread that outlived its process can be, and whose calls are counted. */
  lemma OrphanOrigin(s: System, step: Step, id: OpId)
    requires Inv(s) && Enabled(s, step) && id in After(s, step).orphans
    ensures id in s.store.db.rows && s.store.db.rows[id].marker && id !in After(s, step).calls
    ensures After(s, step).running ==> s.store.db.rows[id].epoch != After(s, step).store.epoch
  {
    if step.Call? {
      assert id in s.orphans && id != step.id;
    } else if step.CloseStore? {
      assert id !in s.calls;
    } else {
      OrphanStays(s, step, id);
    }
  }

  lemma OrphanStays(s: System, step: Step, id: OpId)
    requires Inv(s) && Enabled(s, step) && id in After(s, step).orphans
    requires !step.Call? && !step.CloseStore?
    ensures id in s.orphans && id !in After(s, step).calls
    ensures After(s, step).running ==> s.store.db.rows[id].epoch != After(s, step).store.epoch
  {
    assert id in s.orphans;
    if After(s, step).running {
      EpochStays(s, step);
    }
  }

  /** A process keeps its epoch for its whole life, and a new one opens under an unused epoch. */
  lemma EpochStays(s: System, step: Step)
    requires Enabled(s, step) && After(s, step).running
    ensures if s.running then After(s, step).store.epoch == s.store.epoch
            else After(s, step).store.epoch !in s.store.db.epochs
  {
  }

  lemma OrphansKept(s: System, step: Step)
    requires Inv(s) && Enabled(s, step)
    ensures OrphansSound(After(s, step))
  {
    forall id | id in After(s, step).orphans
      ensures id in After(s, step).store.db.rows && After(s, step).store.db.rows[id].marker
      ensures id !in After(s, step).calls
      ensures After(s, step).running ==>
                After(s, step).store.db.rows[id].epoch != After(s, step).store.epoch
    {
      OrphanOrigin(s, step, id);
      StepKeepsRow(s, step, id);
    }
  }

  /** Every step of the protocol keeps the invariant. */
  lemma StepKeeps(s: System, step: Step)
    requires Inv(s) && Enabled(s, step)
    ensures Inv(After(s, step))
  {
    CoreKeeps(s, step);
    OrphansKept(s, step);
  }

  lemma EnvironmentFixed(s: System, step: Step)
    requires Enabled(s, step)
    ensures After(s, step).store.env == s.store.env
  {
  }

  /** The invariant holds in every state any run reaches. */
  lemma {:induction false} RunKeeps(s: System, steps: seq<Step>)
    requires Inv(s) && Runs(s, steps)
    ensures Inv(Exec(s, steps)) && Exec(s, steps).store.env == s.store.env
  {
    if steps != [] {
      var n := |steps| - 1;
      RunKeeps(s, steps[..n]);
      StepKeeps(Exec(s, steps[..n]), steps[n]);
      EnvironmentFixed(Exec(s, steps[..n]), steps[n]);
    }
  }
}
