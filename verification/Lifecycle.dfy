/**
 The journalled mutation protocol as a step system: any interleaving of concurrent
 callers, broker answers, ambiguous commits, crashes, restarts and recovery checks
 of one trading environment.

 One mutex serializes dispatches, outcomes and recovery checks; admissions run
 beside it. A step is one transaction, one broker call, or one change of the mutex.
 Shutting down closes the store without waiting for a thread that has committed its
 marker: such a thread may still make its one call, beside whatever process is next.
 */
module Lifecycle {
  import opened Wrappers
  import opened Journal
  import opened ExecutionStore
  import opened RecoveryCheck

  /** The order a modification targets, as the broker currently reports it. */
  datatype BrokerOrder = BrokerOrder(qty: Option<real>, price: Option<real>)

  /** How one mutation call came back. */
  datatype Answer =
    | AckReadable(receipt: Receipt)
    | AckUnreadable(evidence: Option<Receipt>)
    | NoAck(evidence: Option<Receipt>)

  /** What came of reading a row back after its outcome was committed. */
  datatype ReadBack = Readable | StorageRaises | Malformed

  datatype Stage =
    | Entered
    | Cleared
    | Refusing
    | Marked
    | Called
    | Answered(answer: Answer)

  /** What the holder of the dispatch mutex is doing. */
  datatype Activity =
    | Free
    | Executing(id: OpId, stage: Stage, order: BrokerOrder, observed: set<OpId>)
    | Checking(id: OpId, row: Row, started: real, blocked: bool)

  datatype System = System(
    store: Store,
    running: bool,
    queued: set<OpId>,
    late: set<OpId>,
    activity: Activity,
    calls: multiset<OpId>,
    now: real,
    /** Marked operations whose thread outlived its closed store and has not called yet. */
    orphans: set<OpId>)

  datatype Step =
    | Tick(at: real)
    | Open(epoch: Epoch, commit: Commit)
    | ReviewRows(commit: Commit)
    | AdmitCaller(id: OpId, claimed: Epoch, row: Row, commit: Commit)
    | Enter(id: OpId)
    | Prepare(order: BrokerOrder)
    | MarkRow(merged: Request, commit: Commit)
    | Call(id: OpId)
    | Answer(answer: Answer)
    | StoreAnswer(commit: Commit, back: ReadBack)
    | Refuse(commit: Commit, back: ReadBack)
    | BeginCheck(id: OpId)
    | SeeLateOrder(commit: Commit)
    | RecordCheck(evidence: Evidence, commit: Commit)
    | LeaveCheck
    | ReadFails
    | Crash
    | CloseStore
    | LateCall(id: OpId)

  const NO_ORDER := BrokerOrder(None, None)

  function Start(env: Env): System {
    System(Store(env, "", EMPTY_JOURNAL, false, false, true), false, {}, {}, Free, multiset{}, 0.0, {})
  }

  /** Modifications that add or restore exposure; only these read their target first. */
  predicate Exposing(env: Env, row: Row) {
    row.kind == MODIFY && (env == SIMULATE || row.request.op in EXPOSING_OPS)
  }

  predicate FieldAgrees(env: Env, wanted: Option<real>, current: Option<real>) {
    if wanted.None? then env == REAL else current == wanted
  }

  /**
   The request the executor sends to the SDK and stores with the marker. An exposing
   modification is merged over the order just read; any other mutation of an order
   sends zero for a quantity or price its caller left out.
   */
  function MergedRequest(env: Env, row: Row, order: BrokerOrder): Request {
    var request := row.request;
    if row.kind in {PLACE, PLACE_COMBO} then request
    else if Exposing(env, row)
    then request.(qty := Coalesce(request.qty, order.qty), price := Coalesce(request.price, order.price))
    else request.(qty := Coalesce(request.qty, Some(0.0)), price := Coalesce(request.price, Some(0.0)))
  }

  /** The broker already shows the quantity and price an earlier modification set. */
  predicate Agrees(env: Env, merged: Request, order: BrokerOrder) {
    FieldAgrees(env, merged.qty, order.qty) && FieldAgrees(env, merged.price, order.price)
  }

  function Guards(s: System, row: Row): set<OpId> {
    Unobserved(s.store.db, row.account, row.request.orderId)
  }

  predicate GuardsAgree(s: System, row: Row, order: BrokerOrder) {
    forall g | g in Guards(s, row) ::
      var merged := s.store.db.rows[g].merged;
      merged.Some? && Agrees(s.store.env, merged.value, order)
  }

  predicate GateOpen(s: System) { s.late == {} && s.store.Ready() }

  function AnswerState(a: Answer): RowState {
    if a.NoAck? then UNKNOWN_OUTCOME else ACKNOWLEDGED
  }

  function AnswerDisposition(a: Answer): Disposition {
    if a.NoAck? then POSSIBLY_SENT else ACKED
  }

  function AnswerReceipt(a: Answer): Option<Receipt> {
    if a.AckReadable? then Some(a.receipt) else a.evidence
  }

  function AnswerReason(a: Answer): Option<Reason> {
    match a
    case AckReadable(_) => None
    case AckUnreadable(_) => Some(RECEIPT_UNREADABLE)
    case NoAck(_) => Some(UNRESOLVED_OUTCOME)
  }

  predicate InStage(s: System, stages: set<Stage>) {
    s.running && s.activity.Executing? && s.activity.stage in stages
  }

  predicate NewAdmission(row: Row) {
    && row.state == ADMITTED && row.disposition == PENDING_CHECKS
    && row.merged.None? && !row.marker && row.receipt.None? && row.brokerOrderId.None?
    && !row.observed && row.recovery.None? && row.nextCheckAt == 0.0 && row.checks == [] && row.facts.None?
  }

  predicate Enabled(s: System, step: Step) {
    match step
    case Tick(at) => s.now <= at
    case Open(epoch, _) => !s.running && epoch !in s.store.db.epochs
    case ReviewRows(_) => s.running && !s.store.reviewed
    case AdmitCaller(_, claimed, row, _) => s.running && row.epoch == claimed && NewAdmission(row)
    case Enter(id) => s.running && s.activity.Free? && id in s.queued
    case Prepare(order) =>
      && InStage(s, {Entered})
      && GateOpen(s)
      && s.activity.id in s.store.db.rows
      && var row := s.store.db.rows[s.activity.id];
         Exposing(s.store.env, row) ==> GuardsAgree(s, row, order)
    case MarkRow(merged, _) =>
      && InStage(s, {Cleared}) && s.activity.id in s.store.db.rows
      && merged == MergedRequest(s.store.env, s.store.db.rows[s.activity.id], s.activity.order)
    case Call(id) => InStage(s, {Marked}) && s.activity.id == id
    case Answer(_) => InStage(s, {Called})
    case StoreAnswer(_, _) => s.running && s.activity.Executing? && s.activity.stage.Answered?
    case Refuse(_, _) => InStage(s, {Entered, Cleared, Refusing})
    case BeginCheck(id) =>
      && s.running && s.store.reviewed && s.activity.Free? && s.late == {}
      && s.store.Usable() && RecoveryDue(s.store.db, id, s.now)
    case SeeLateOrder(_) =>
      && s.running && s.activity.Checking? && !s.activity.blocked
      && s.store.env == SIMULATE && AssumedAbsent(s.activity.row)
    case RecordCheck(evidence, _) =>
      && s.running && s.activity.Checking? && evidence.WellFormed()
      && (s.store.env == SIMULATE && AssumedAbsent(s.activity.row) ==>
            evidence.Seen() == s.activity.blocked)
    case LeaveCheck => s.running && s.activity.Checking?
    case ReadFails => s.running
    case Crash => s.running
    case CloseStore => s.running
    case LateCall(id) => id in s.orphans
  }

  function After(s: System, step: Step): System
    requires Enabled(s, step)
  {
    match step
    case Tick(at) => s.(now := at)
    case Open(epoch, commit) => AfterOpen(s, epoch, commit)
    case ReviewRows(commit) => s.(store := WithReview(s.store, commit).0)
    case AdmitCaller(id, claimed, row, commit) => AfterAdmit(s, id, claimed, row, commit)
    case Enter(id) =>
      s.(queued := s.queued - {id}, activity := Executing(id, Entered, NO_ORDER, {}))
    case Prepare(order) => AfterPrepare(s, order)
    case MarkRow(merged, commit) => AfterMark(s, merged, commit)
    case Call(id) =>
      s.(activity := s.activity.(stage := Called), calls := s.calls + multiset{id})
    case Answer(answer) => s.(activity := s.activity.(stage := Answered(answer)))
    case StoreAnswer(commit, back) => AfterStore(s, commit, back)
    case Refuse(commit, back) => AfterRefuse(s, commit, back)
    case BeginCheck(id) => s.(activity := Checking(id, s.store.db.rows[id], s.now, false))
    case SeeLateOrder(commit) =>
      var (store, r) := WithLateBlock(s.store, s.activity.id, commit);
      s.(store := store, activity := if r.Done? then s.activity.(blocked := true) else Free)
    case RecordCheck(evidence, commit) => AfterRecord(s, evidence, commit)
    case LeaveCheck => s.(activity := Free)
    case ReadFails => s.(store := s.store.(failed := true))
    case Crash => Ended(s)
    case CloseStore =>
      Ended(s).(orphans := s.orphans + if InStage(s, {Marked}) then {s.activity.id} else {})
    case LateCall(id) => s.(orphans := s.orphans - {id}, calls := s.calls + multiset{id})
  }

  /** The process serves no more; its rows stay as they are. */
  function Ended(s: System): System {
    s.(running := false, queued := {}, late := {}, activity := Free, store := s.store.(closed := true))
  }

  function AfterOpen(s: System, epoch: Epoch, commit: Commit): System {
    var (store, r) := WithOpening(s.store.env, epoch, s.store.db, commit);
    if r.Done? then s.(store := store, running := true)
    else s.(store := s.store.(db := store.db))
  }

  function AfterAdmit(s: System, id: OpId, claimed: Epoch, row: Row, commit: Commit): System {
    var (store, r) := WithAdmission(s.store, id, claimed, row, commit);
    s.(store := store, queued := if r == Done(true) then s.queued + {id} else s.queued)
  }

  function AfterPrepare(s: System, order: BrokerOrder): System
    requires Enabled(s, Prepare(order))
  {
    var row := s.store.db.rows[s.activity.id];
    s.(activity := s.activity.(stage := Cleared, order := order,
       observed := if Exposing(s.store.env, row) then Guards(s, row) else {}))
  }

  function AfterMark(s: System, merged: Request, commit: Commit): System
    requires s.activity.Executing?
  {
    var (store, r) := WithMark(s.store, s.activity.id, merged, commit);
    s.(store := store, activity := s.activity.(stage := if r.Done? then Marked else Refusing))
  }

  /** Reading the stored outcome back poisons the store only when the storage itself raises. */
  function Reread(store: Store, stored: Status<()>, back: ReadBack): Store {
    if stored.Done? && back.StorageRaises? then store.(failed := true) else store
  }

  function AfterStore(s: System, commit: Commit, back: ReadBack): System
    requires s.activity.Executing? && s.activity.stage.Answered?
  {
    var a := s.activity.stage.answer;
    var id := s.activity.id;
    var (store, r) := WithOutcome(s.store, id, AnswerState(a), AnswerDisposition(a), AnswerReceipt(a),
                             AnswerReason(a), s.activity.observed, commit);
    if r.Done? && back.Readable? then s.(store := store, activity := Free)
    else s.(store := Reread(store, r, back), activity := Free, late := s.late + {id})
  }

  /** A refusal that cannot be stored is remembered only by the REAL executor. */
  function AfterRefuse(s: System, commit: Commit, back: ReadBack): System
    requires s.activity.Executing?
  {
    var id := s.activity.id;
    var (store, r) := WithOutcome(s.store, id, REFUSED, NOT_SENT, None, None, {}, commit);
    if s.store.env == SIMULATE || (r.Done? && back.Readable?) then s.(store := store, activity := Free)
    else s.(store := Reread(store, r, back), activity := Free, late := s.late + {id})
  }

  function AfterRecord(s: System, evidence: Evidence, commit: Commit): System
    requires s.activity.Checking?
  {
    var f := FindingOf(s.store.env, s.activity.row, s.activity.started, s.now, evidence);
    var (store, r) := WithFinding(s.store, s.activity.id, s.activity.row.state, f, commit);
    s.(store := store, activity := Free)
  }

  /** `steps` is a run from `s`: every step is enabled where it is taken. */
  predicate Runs(s: System, steps: seq<Step>)
    decreases |steps|, 0
  {
    steps == [] ||
    (var n := |steps| - 1; Runs(s, steps[..n]) && Enabled(Exec(s, steps[..n]), steps[n]))
  }

  function Exec(s: System, steps: seq<Step>): System
    requires Runs(s, steps)
    decreases |steps|, 1
  {
    if steps == [] then s
    else var n := |steps| - 1; After(Exec(s, steps[..n]), steps[n])
  }
}
