/**
 The durable records of one trading environment, and the transaction bodies the
 execution store runs on them. Every function here is the committed effect of one
 SQL transaction; when it may be lost or left ambiguous is decided by the store.
 */
module Journal {
  import opened Wrappers

  datatype Env = SIMULATE | REAL

  datatype Kind = PLACE | PLACE_COMBO | MODIFY | CANCEL

  datatype RowState =
    | ADMITTED
    | DISPATCHING
    | ACKNOWLEDGED
    | UNKNOWN_OUTCOME
    | REFUSED
    | RECONCILED
    | TERMINAL_ACCOUNTED

  datatype Disposition =
    | PENDING_CHECKS
    | IN_FLIGHT
    | ACKED
    | POSSIBLY_SENT
    | NOT_SENT
    | BROKER_ACCOUNTED

  /** The modifications that add or restore exposure; the others only reduce it. */
  const EXPOSING_OPS := {"NORMAL", "ENABLE"}

  /** Why an operation still needs review; any one of them closes the gate. */
  datatype Reason =
    | RECOVERED_DISPATCH
    | STARTUP_REVIEW
    | UNRESOLVED_OUTCOME
    | RECEIPT_UNREADABLE
    | LATE_ORDER_FOUND

  datatype Resolution =
    | ASSUMED_ABSENT
    | NOT_DISPATCHED
    | BROKER_CONFIRMED
    | CURRENT_STATE_ACCOUNTED
    | LATE_BROKER_ORDER_FOUND
    | TERMINAL_RESOLVED

  datatype CheckOutcome =
    | NOT_FOUND
    | MONITOR_NOT_FOUND
    | IDENTITY_NOT_FOUND
    | FOUND
    | TARGET_PENDING
    | CHECK_NOT_DISPATCHED
    | ERROR

  datatype Leg = Leg(code: string, side: string, ratio: nat, position: Option<int>)

  /** A broker parameter that is either an exact number or an exact text. */
  datatype Term = Number(n: real) | Text(t: string)

  /** A mutation request: the caller's own, or the merged form sent to the SDK. */
  datatype Request = Request(
    orderId: nat,
    op: string,
    code: string,
    side: string,
    orderType: string,
    qty: Option<real>,
    price: Option<real>,
    extras: map<string, Term>,
    legs: seq<Leg>)

  datatype Receipt = Receipt(orderId: Option<string>, status: Option<string>)

  datatype Facts = Facts(
    status: string,
    filled: real,
    average: real,
    remaining: real,
    positions: map<string, real>,
    successProven: bool)

  datatype Check = Check(startedAt: real, completedAt: real, outcome: CheckOutcome, seen: bool)

  type OpId = string
  type Epoch = string

  datatype Row = Row(
    epoch: Epoch,
    account: nat,
    kind: Kind,
    canonical: string,
    request: Request,
    tag: Option<string>,
    state: RowState,
    disposition: Disposition,
    merged: Option<Request>,
    marker: bool,
    receipt: Option<Receipt>,
    brokerOrderId: Option<string>,
    observed: bool,
    recovery: Option<Resolution>,
    nextCheckAt: real,
    checks: seq<Check>,
    facts: Option<Facts>)

  datatype Journal = Journal(
    rows: map<OpId, Row>,
    requirements: set<(OpId, Reason)>,
    epochs: set<Epoch>)

  const EMPTY_JOURNAL := Journal(map[], {}, {})

  datatype Conflict =
    | StaleEpoch
    | ReviewOutstanding
    | NotAwaitingDispatch
    | StaleRecovery
    | UnjustifiedAbsence
    | UnjustifiedNotDispatched
    | MissingEvidence

  /** Whether an operation has an outstanding review requirement. */
  predicate Pending(j: Journal, id: OpId) {
    exists p | p in j.requirements :: p.0 == id
  }

  predicate NeedsStartupReview(row: Row) {
    row.state in {ADMITTED, UNKNOWN_OUTCOME} && row.recovery.None?
  }

  function StartupReviews(rows: map<OpId, Row>): set<(OpId, Reason)> {
    set id | id in rows && NeedsStartupReview(rows[id]) :: (id, STARTUP_REVIEW)
  }

  function RecoveredRow(row: Row): Row {
    if row.state == DISPATCHING
    then row.(state := UNKNOWN_OUTCOME, disposition := POSSIBLY_SENT)
    else row
  }

  function RecoveredDispatches(rows: map<OpId, Row>): set<(OpId, Reason)> {
    set id | id in rows && rows[id].state == DISPATCHING :: (id, RECOVERED_DISPATCH)
  }

  /** The transaction every start of the process runs before anything else. */
  function StartUp(j: Journal, epoch: Epoch): Journal {
    var rows := map id | id in j.rows :: RecoveredRow(j.rows[id]);
    Journal(rows,
            j.requirements + RecoveredDispatches(j.rows) + StartupReviews(rows),
            j.epochs + {epoch})
  }

  function Review(j: Journal): Journal {
    j.(requirements := j.requirements + StartupReviews(j.rows))
  }

  /** Insert a caller-named operation, or return the row that already owns the name. */
  function Admit(j: Journal, current: Epoch, reviewed: bool, id: OpId, epoch: Epoch, row: Row)
    : Result<(Journal, bool), Conflict>
  {
    if id in j.rows then Ok((j, false))
    else if epoch != current then Err(StaleEpoch)
    else if !reviewed || j.requirements != {} then Err(ReviewOutstanding)
    else Ok((j.(rows := j.rows[id := row]), true))
  }

  /** The dispatch marker; it exists only for an operation still awaiting dispatch. */
  function MarkDispatch(j: Journal, id: OpId, merged: Request): Result<Journal, Conflict> {
    if id in j.rows && j.rows[id].state == ADMITTED then
      var row := j.rows[id].(state := DISPATCHING, disposition := IN_FLIGHT, marker := true,
                             merged := Some(merged));
      Ok(j.(rows := j.rows[id := row]))
    else Err(NotAwaitingDispatch)
  }

  function Coalesce<T>(first: Option<T>, second: Option<T>): Option<T> {
    if first.Some? then first else second
  }

  function RetireObserved(rows: map<OpId, Row>, ids: set<OpId>): map<OpId, Row> {
    map id | id in rows ::
      if id in ids && rows[id].kind == MODIFY && rows[id].state == ACKNOWLEDGED
      then rows[id].(observed := true) else rows[id]
  }

  function OutcomeRow(row: Row, state: RowState, disposition: Disposition,
                      receipt: Option<Receipt>): Row {
    row.(state := state, disposition := disposition, receipt := receipt,
         brokerOrderId := Coalesce(if receipt.Some? then receipt.value.orderId else None,
                                   row.brokerOrderId))
  }

  /** Store what an invocation observed. The row update itself tests no earlier state. */
  function Outcome(j: Journal, id: OpId, state: RowState, disposition: Disposition,
                   receipt: Option<Receipt>, reason: Option<Reason>, retire: set<OpId>): Journal {
    var rows := if id in j.rows
                then j.rows[id := OutcomeRow(j.rows[id], state, disposition, receipt)]
                else j.rows;
    j.(rows := if state == ACKNOWLEDGED then RetireObserved(rows, retire) else rows,
       requirements := j.requirements + (if reason.Some? then {(id, reason.value)} else {}))
  }

  function BlockLateOrder(j: Journal, id: OpId): Journal {
    j.(requirements := j.requirements + {(id, LATE_ORDER_FOUND)})
  }

  /** The operations a recovery pass may look at. */
  predicate RecoveryDue(j: Journal, id: OpId, at: real) {
    id in j.rows && j.rows[id].nextCheckAt <= at
    && (Pending(j, id) || j.rows[id].recovery == Some(ASSUMED_ABSENT))
  }

  function Negatives(checks: seq<Check>): nat {
    if checks == [] then 0
    else Negatives(checks[..|checks| - 1])
         + (if checks[|checks| - 1].outcome == NOT_FOUND then 1 else 0)
  }

  predicate EverSeen(checks: seq<Check>) {
    exists c | c in checks :: c.seen
  }

  /** What one completed recovery check asks the store to record. */
  datatype Finding = Finding(
    check: Check,
    nextCheckAt: real,
    resolution: Option<Resolution>,
    receipt: Option<Receipt>,
    facts: Option<Facts>)

  predicate AbsenceAllowed(env: Env, row: Row, checks: seq<Check>) {
    && env == SIMULATE
    && row.kind == PLACE
    && row.state in {ADMITTED, UNKNOWN_OUTCOME}
    && row.tag.Some?
    && row.brokerOrderId.None?
    && !EverSeen(row.checks)
    && Negatives(checks) >= 5
    && row.recovery.None?
  }

  predicate NotDispatchedAllowed(env: Env, row: Row) {
    env == REAL && row.state == ADMITTED && !row.marker
  }

  /** The state and disposition a resolution leads to, or why it is not justified. */
  function Resolve(env: Env, row: Row, checks: seq<Check>, f: Finding)
    : Result<(RowState, Disposition), Conflict>
    requires f.resolution.Some?
  {
    match f.resolution.value
    case ASSUMED_ABSENT =>
      if AbsenceAllowed(env, row, checks) then Ok((UNKNOWN_OUTCOME, POSSIBLY_SENT))
      else Err(UnjustifiedAbsence)
    case NOT_DISPATCHED =>
      if NotDispatchedAllowed(env, row) then Ok((REFUSED, NOT_SENT))
      else Err(UnjustifiedNotDispatched)
    case _ =>
      if f.receipt.None? || f.facts.None? then Err(MissingEvidence)
      else if f.resolution.value == TERMINAL_RESOLVED then Ok((TERMINAL_ACCOUNTED, BROKER_ACCOUNTED))
      else Ok((RECONCILED, BROKER_ACCOUNTED))
  }

  function ResolvedRow(row: Row, state: RowState, disposition: Disposition, f: Finding): Row
    requires f.resolution.Some?
  {
    row.(state := state, disposition := disposition, recovery := f.resolution,
         receipt := Coalesce(f.receipt, row.receipt),
         brokerOrderId := Coalesce(if f.receipt.Some? then f.receipt.value.orderId else None,
                                   row.brokerOrderId),
         observed := row.kind == MODIFY,
         facts := f.facts)
  }

  /** Check, disposition, audit and gate release are one transaction. */
  function RecordRecovery(env: Env, j: Journal, id: OpId, observedState: RowState, f: Finding)
    : Result<Journal, Conflict>
  {
    if id !in j.rows || j.rows[id].state != observedState then Err(StaleRecovery)
    else
      var row := j.rows[id];
      var checks := row.checks + [f.check];
      var checked := row.(checks := checks, nextCheckAt := f.nextCheckAt);
      if f.resolution.None? then Ok(j.(rows := j.rows[id := checked]))
      else
        match Resolve(env, row, checks, f)
        case Err(e) => Err(e)
        case Ok((state, disposition)) =>
          Ok(j.(rows := j.rows[id := ResolvedRow(checked, state, disposition, f)],
                requirements := set p | p in j.requirements && p.0 != id))
  }

  /** Acknowledged modifications of one order whose effect the broker has not shown yet. */
  function Unobserved(j: Journal, account: nat, orderId: nat): set<OpId> {
    set id | id in j.rows
             && j.rows[id].account == account
             && j.rows[id].kind == MODIFY
             && j.rows[id].state == ACKNOWLEDGED
             && !j.rows[id].observed
             && j.rows[id].request.orderId == orderId
  }
}
