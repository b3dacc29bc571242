/**
 The execution store: one object that owns the journal for a process lifetime.

 Every method is one transaction. A commit that raises leaves either the old or
 the new rows behind, and the object is unusable from then on; only opening a new
 store over the same rows brings it back.
 */
module ExecutionStore {
  import opened Wrappers
  import opened Journal

  /** What the storage engine does with one transaction. */
  datatype Commit = Commits | RaisesOld | RaisesNew

  datatype Status<+T> =
    | Done(value: T)
    | Conflicted(conflict: Conflict)
    | StorageFailed

  /** The store as a value: the durable rows plus the process-local flags. */
  datatype Store = Store(
    env: Env,
    epoch: Epoch,
    db: Journal,
    failed: bool,
    reviewed: bool,
    closed: bool)
  {
    predicate Usable() { !failed && !closed }

    /** The gate every new dispatch must find open. */
    predicate Ready() { Usable() && reviewed && db.requirements == {} }
  }

  /** Run one transaction whose body computes `body` from the current rows. */
  function Transact<T>(s: Store, body: Result<(Journal, T), Conflict>, c: Commit): (Store, Status<T>) {
    if !s.Usable() then (s, StorageFailed)
    else if c == RaisesOld then (s.(failed := true), StorageFailed)
    else
      match body
      case Err(e) => (s, Conflicted(e))
      case Ok((db, value)) =>
        if c == RaisesNew then (s.(db := db, failed := true), StorageFailed)
        else (s.(db := db), Done(value))
  }

  function Unit(r: Result<Journal, Conflict>): Result<(Journal, ()), Conflict> {
    match r
    case Ok(db) => Ok((db, ()))
    case Err(e) => Err(e)
  }

  function WithOpening(env: Env, epoch: Epoch, db: Journal, c: Commit): (Store, Status<()>) {
    Transact(Store(env, epoch, db, false, false, false), Ok((StartUp(db, epoch), ())), c)
  }

  function WithReview(s: Store, c: Commit): (Store, Status<()>) {
    var (t, r) := Transact(s, Ok((Review(s.db), ())), c);
    (if r.Done? then t.(reviewed := true) else t, r)
  }

  function WithAdmission(s: Store, id: OpId, epoch: Epoch, row: Row, c: Commit): (Store, Status<bool>) {
    Transact(s, Admit(s.db, s.epoch, s.reviewed, id, epoch, row), c)
  }

  function WithMark(s: Store, id: OpId, merged: Request, c: Commit): (Store, Status<()>) {
    Transact(s, Unit(MarkDispatch(s.db, id, merged)), c)
  }

  function WithOutcome(s: Store, id: OpId, state: RowState, disposition: Disposition,
                  receipt: Option<Receipt>, reason: Option<Reason>, retire: set<OpId>, c: Commit)
    : (Store, Status<()>)
  {
    Transact(s, Ok((Outcome(s.db, id, state, disposition, receipt, reason, retire), ())), c)
  }

  function WithLateBlock(s: Store, id: OpId, c: Commit): (Store, Status<()>) {
    Transact(s, Ok((BlockLateOrder(s.db, id), ())), c)
  }

  function WithFinding(s: Store, id: OpId, observedState: RowState, f: Finding, c: Commit): (Store, Status<()>) {
    Transact(s, Unit(RecordRecovery(s.env, s.db, id, observedState, f)), c)
  }

  /** The statements of one outcome transaction, in order. */
  method ApplyOutcome(db: Journal, id: OpId, state: RowState, disposition: Disposition, receipt: Option<Receipt>,
                     reason: Option<Reason>, retire: set<OpId>)
    returns (next: Journal)
    ensures next == Outcome(db, id, state, disposition, receipt, reason, retire)
  {
    var rows, requirements := db.rows, db.requirements;
    if id in rows {
      rows := rows[id := OutcomeRow(rows[id], state, disposition, receipt)];
    }
    if state == ACKNOWLEDGED {
      // The guards an acknowledged successor saw retire in this same transaction.
      rows := RetireObserved(rows, retire);
    }
    if reason.Some? {
      requirements := requirements + {(id, reason.value)};
    }
    next := Journal(rows, requirements, db.epochs);
  }

  class ExecutionStore {
    const environment: Env
    const epoch: Epoch
    var db: Journal
    var failed: bool
    var reviewed: bool
    var closed: bool

    ghost function View(): Store
      reads this
    {
      Store(environment, epoch, db, failed, reviewed, closed)
    }

    /** Rewrites in-flight rows of earlier processes before the store can be used. */
    constructor (environment: Env, epoch: Epoch, db: Journal, commit: Commit)
      ensures this.environment == environment && this.epoch == epoch
      ensures View() == WithOpening(environment, epoch, db, commit).0
    {
      this.environment, this.epoch := environment, epoch;
      reviewed, closed := false, false;
      failed := commit != Commits;
      this.db := if commit == RaisesOld then db else StartUp(db, epoch);
    }

    method Close()
      modifies this
      ensures View() == old(View()).(closed := true)
    {
      closed := true;
    }

    /** End a transaction that has computed `next`: commit it or poison the store. */
    method Finish(next: Journal, commit: Commit) returns (stored: bool)
      requires !failed && !closed
      modifies this
      ensures stored == (commit == Commits)
      ensures View() == Transact(old(View()), Ok((next, ())), commit).0
    {
      if commit != RaisesOld {
        db := next;
      }
      failed := commit != Commits;
      stored := commit == Commits;
    }

    method ReviewAll(commit: Commit) returns (r: Status<()>)
      modifies this
      ensures (View(), r) == WithReview(old(View()), commit)
    {
      if failed || closed {
        return StorageFailed;
      }
      var stored := Finish(Review(db), commit);
      if !stored {
        return StorageFailed;
      }
      reviewed := true;
      return Done(());
    }

    /** `Done(row)` is the stored row if there is one; a read that raises poisons the store. */
    method Lookup(id: OpId, readable: bool) returns (r: Status<Option<Row>>)
      modifies this
      ensures old(View()).Usable() && readable ==>
                View() == old(View())
                && r == Done(if id in db.rows then Some(db.rows[id]) else None)
      ensures old(View()).Usable() && !readable ==>
                View() == old(View()).(failed := true) && r == StorageFailed
      ensures !old(View()).Usable() ==> View() == old(View()) && r == StorageFailed
    {
      if failed || closed {
        return StorageFailed;
      }
      if !readable {
        failed := true;
        return StorageFailed;
      }
      return Done(if id in db.rows then Some(db.rows[id]) else None);
    }

    method AdmitOperation(id: OpId, claimed: Epoch, row: Row, commit: Commit) returns (r: Status<bool>)
      modifies this
      ensures (View(), r) == WithAdmission(old(View()), id, claimed, row, commit)
    {
      if failed || closed {
        return StorageFailed;
      }
      if commit == RaisesOld {
        failed := true;
        return StorageFailed;
      }
      var next := db;
      if id !in db.rows {
        if claimed != epoch {
          return Conflicted(StaleEpoch);
        }
        if !reviewed || db.requirements != {} {
          return Conflicted(ReviewOutstanding);
        }
        next := db.(rows := db.rows[id := row]);
      }
      var inserted := id !in db.rows;
      var stored := Finish(next, commit);
      return if stored then Done(inserted) else StorageFailed;
    }

    method Mark(id: OpId, merged: Request, commit: Commit) returns (r: Status<()>)
      modifies this
      ensures (View(), r) == WithMark(old(View()), id, merged, commit)
    {
      if failed || closed {
        return StorageFailed;
      }
      if commit == RaisesOld {
        failed := true;
        return StorageFailed;
      }
      if id !in db.rows || db.rows[id].state != ADMITTED {
        return Conflicted(NotAwaitingDispatch);
      }
      var row := db.rows[id].(state := DISPATCHING, disposition := IN_FLIGHT, marker := true,
                              merged := Some(merged));
      var stored := Finish(db.(rows := db.rows[id := row]), commit);
      return if stored then Done(()) else StorageFailed;
    }

    method StoreOutcome(id: OpId, state: RowState, disposition: Disposition, receipt: Option<Receipt>,
                        reason: Option<Reason>, retire: set<OpId>, commit: Commit)
      returns (r: Status<()>)
      modifies this
      ensures (View(), r) == WithOutcome(old(View()), id, state, disposition, receipt, reason, retire, commit)
    {
      if failed || closed {
        return StorageFailed;
      }
      var next := ApplyOutcome(db, id, state, disposition, receipt, reason, retire);
      var stored := Finish(next, commit);
      return if stored then Done(()) else StorageFailed;
    }

    method BlockLate(id: OpId, commit: Commit) returns (r: Status<()>)
      modifies this
      ensures (View(), r) == WithLateBlock(old(View()), id, commit)
    {
      if failed || closed {
        return StorageFailed;
      }
      var stored := Finish(db.(requirements := db.requirements + {(id, LATE_ORDER_FOUND)}), commit);
      return if stored then Done(()) else StorageFailed;
    }

    method Record(id: OpId, observedState: RowState, f: Finding, commit: Commit) returns (r: Status<()>)
      modifies this
      ensures (View(), r) == WithFinding(old(View()), id, observedState, f, commit)
    {
      if failed || closed {
        return StorageFailed;
      }
      if commit == RaisesOld {
        failed := true;
        return StorageFailed;
      }
      if id !in db.rows || db.rows[id].state != observedState {
        return Conflicted(StaleRecovery);
      }
      var row := db.rows[id];
      var checked := row.(checks := row.checks + [f.check], nextCheckAt := f.nextCheckAt);
      var next := db.(rows := db.rows[id := checked]);
      if f.resolution.Some? {
        match Resolve(environment, row, checked.checks, f) {
          case Err(e) => return Conflicted(e);
          case Ok((state, disposition)) =>
            next := db.(rows := db.rows[id := ResolvedRow(checked, state, disposition, f)],
                        requirements := set p | p in db.requirements && p.0 != id);
        }
      }
      var stored := Finish(next, commit);
      return if stored then Done(()) else StorageFailed;
    }
  }
}
