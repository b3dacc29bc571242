/**
 What one recovery check concludes from the broker evidence it gathered. Only the
 store decides whether the conclusion is justified; nothing here releases the gate.
 */
module RecoveryCheck {
  import opened Wrappers
  import opened Journal

  /** Seconds to wait after the first, second, third and fourth tagged negative. */
  const NEGATIVE_GAPS: seq<real> := [5.0, 5.0, 10.0, 20.0]
  const RETRY_DELAY := 5.0
  const MONITOR_INTERVAL := 60.0
  const REAL_INTERVAL := 30.0

  /** The broker's answer to the read-only queries of one check. */
  datatype Evidence =
    | QueryFailed
    | NoMatch
    | MatchInvalid
    | MatchPending
    | MatchAccounted(receipt: Receipt, facts: Facts, resolution: Resolution)
  {
    /** A correlated order was seen, whether or not it could be accounted for. */
    predicate Seen() { MatchInvalid? || MatchPending? || MatchAccounted? }

    predicate WellFormed() {
      MatchAccounted? ==>
        && receipt.orderId.Some?
        && resolution in {BROKER_CONFIRMED, TERMINAL_RESOLVED, CURRENT_STATE_ACCOUNTED}
    }
  }

  /** Only a tagged placement nobody has ever seen at the broker can count negatives. */
  predicate CountsNegatives(row: Row) {
    && row.kind == PLACE
    && row.tag.Some?
    && row.brokerOrderId.None?
    && row.state in {ADMITTED, UNKNOWN_OUTCOME}
    && !EverSeen(row.checks)
  }

  predicate AssumedAbsent(row: Row) { row.recovery == Some(ASSUMED_ABSENT) }

  function NegativeDelay(negatives: nat): real
    requires negatives >= 1
  {
    if negatives >= 5 then MONITOR_INTERVAL else NEGATIVE_GAPS[negatives - 1]
  }

  function Unresolved(started: real, completed: real, outcome: CheckOutcome, seen: bool, delay: real): Finding {
    Finding(Check(started, completed, outcome, seen), completed + delay, None, None, None)
  }

  function PaperFinding(row: Row, started: real, completed: real, e: Evidence): Finding {
    match e
    case QueryFailed => Unresolved(started, completed, ERROR, false, RETRY_DELAY)
    case MatchInvalid => Unresolved(started, completed, ERROR, true, RETRY_DELAY)
    case MatchPending => Unresolved(started, completed, TARGET_PENDING, true, RETRY_DELAY)
    case MatchAccounted(receipt, facts, resolution) =>
      Finding(Check(started, completed, FOUND, true), completed + MONITOR_INTERVAL,
              Some(if AssumedAbsent(row) then LATE_BROKER_ORDER_FOUND else resolution),
              Some(receipt), Some(facts))
    case NoMatch =>
      if !CountsNegatives(row) then
        Unresolved(started, completed, IDENTITY_NOT_FOUND, false, RETRY_DELAY)
      else if AssumedAbsent(row) then
        Unresolved(started, completed, MONITOR_NOT_FOUND, false, MONITOR_INTERVAL)
      else
        var negatives := Negatives(row.checks) + 1;
        Finding(Check(started, completed, NOT_FOUND, false), completed + NegativeDelay(negatives),
                if negatives >= 5 then Some(ASSUMED_ABSENT) else None, None, None)
  }

  function RealFinding(row: Row, started: real, completed: real, e: Evidence): Finding {
    if row.state == ADMITTED && !row.marker then
      Finding(Check(started, completed, CHECK_NOT_DISPATCHED, false), completed + REAL_INTERVAL,
              Some(NOT_DISPATCHED), None, None)
    else
      match e
      case QueryFailed => Unresolved(started, completed, ERROR, false, REAL_INTERVAL)
      case MatchInvalid => Unresolved(started, completed, ERROR, true, REAL_INTERVAL)
      case MatchPending => Unresolved(started, completed, TARGET_PENDING, true, REAL_INTERVAL)
      case MatchAccounted(receipt, facts, resolution) =>
        Finding(Check(started, completed, FOUND, true), completed + REAL_INTERVAL,
                Some(resolution), Some(receipt), Some(facts))
      case NoMatch => Unresolved(started, completed, NOT_FOUND, false, REAL_INTERVAL)
  }

  function FindingOf(env: Env, row: Row, started: real, completed: real, e: Evidence): Finding {
    if env == SIMULATE then PaperFinding(row, started, completed, e)
    else RealFinding(row, started, completed, e)
  }
}
