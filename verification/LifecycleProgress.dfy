/**
 What the steps of the protocol achieve when nothing fails: exactly which answers
 leave the gate open, which rows a new process must review, and which evidence
 resolves an operation.
 */
module LifecycleProgress {
  import opened Wrappers
  import opened Journal
  import opened ExecutionStore
  import opened RecoveryCheck
  import opened Lifecycle
  import opened LifecycleInvariant

  // ------------------------------------------------------------ the gate after one dispatch

  /**
   The gate is open after a dispatch exactly when its outcome is committed, read back, and
   the broker acknowledged the call with a receipt that converts.
   */
  lemma GateAfterAnswer(s: System, commit: Commit, back: ReadBack)
    requires Inv(s) && Enabled(s, StoreAnswer(commit, back))
    ensures GateOpen(After(s, StoreAnswer(commit, back)))
            <==> s.store.Usable() && commit == Commits && back == Readable && s.activity.stage.answer.AckReadable?
  {
    assert GateHeld(s);
  }

  /** A refusal leaves the gate as it was, unless it is lost; only REAL minds an unreadable row. */
  lemma GateAfterRefusal(s: System, commit: Commit, back: ReadBack)
    requires Inv(s) && Enabled(s, Refuse(commit, back))
    ensures GateOpen(After(s, Refuse(commit, back)))
            <==> GateOpen(s) && commit == Commits && (s.store.env == SIMULATE || back == Readable)
  {
  }

  /**
   An outcome blocks its executor until restart exactly when its commit failed or it cannot be
   read back; the store itself stays usable unless a commit or the reading raised.
   */
  lemma OutcomeKept(s: System, commit: Commit, back: ReadBack)
    requires Inv(s) && Enabled(s, StoreAnswer(commit, back))
    ensures var t := After(s, StoreAnswer(commit, back));
            && (t.late == if s.store.Usable() && commit == Commits && back == Readable then {} else {s.activity.id})
            && (t.store.Usable() <==> s.store.Usable() && commit == Commits && back != StorageRaises)
  {
    assert GateHeld(s);
  }

  // ------------------------------------------------------------ opening

  /** An operation an earlier process left in doubt. */
  predicate LeftInDoubt(row: Row) {
    row.state in {ADMITTED, DISPATCHING, UNKNOWN_OUTCOME} && row.recovery.None?
  }

  predicate NothingToReview(j: Journal) {
    j.requirements == {} && forall id | id in j.rows :: !LeftInDoubt(j.rows[id])
  }

  /** Every operation left in doubt awaits review from the opening on, and nothing is added for any other. */
  lemma OpeningReviews(s: System, epoch: Epoch)
    requires Inv(s) && Enabled(s, Open(epoch, Commits))
    ensures var t := After(s, Open(epoch, Commits));
            && t.running && !t.store.reviewed
            && (forall id | id in s.store.db.rows ::
                  Pending(t.store.db, id) <==> Pending(s.store.db, id) || LeftInDoubt(s.store.db.rows[id]))
            && (t.store.db.requirements == {} <==> NothingToReview(s.store.db))
  {
    forall id | id in s.store.db.rows
      ensures Pending(After(s, Open(epoch, Commits)).store.db, id)
              <==> Pending(s.store.db, id) || LeftInDoubt(s.store.db.rows[id])
    {
      OpeningReview(s.store.db, epoch, id);
    }
    OpeningClean(s.store.db, epoch);
  }

  lemma OpeningReview(j: Journal, epoch: Epoch, id: OpId)
    requires RowsSound(j) && id in j.rows
    ensures Pending(StartUp(j, epoch), id) <==> Pending(j, id) || LeftInDoubt(j.rows[id])
  {
    var n := StartUp(j, epoch);
    PendingGrows(j, n, id);
    if LeftInDoubt(j.rows[id]) {
      assert NeedsStartupReview(n.rows[id]);
      assert (id, STARTUP_REVIEW) in n.requirements;
    } else if Pending(n, id) {
      var p :| p in n.requirements && p.0 == id;
      assert p in j.requirements;
    }
  }

  lemma OpeningClean(j: Journal, epoch: Epoch)
    requires RowsSound(j)
    ensures StartUp(j, epoch).requirements == {} <==> NothingToReview(j)
  {
    var n := StartUp(j, epoch);
    if NothingToReview(j) {
      assert RecoveredDispatches(j.rows) == {};
      assert StartupReviews(n.rows) == {};
    } else if n.requirements == {} {
      forall id | id in j.rows
        ensures !LeftInDoubt(j.rows[id])
      {
        OpeningReview(j, epoch, id);
      }
    }
  }

  /** So a new process dispatches again exactly when the old ones left nothing to review. */
  lemma GateAfterOpening(s: System, epoch: Epoch)
    requires Inv(s) && Enabled(s, Open(epoch, Commits))
    ensures var t := After(s, Open(epoch, Commits));
            && Enabled(t, ReviewRows(Commits))
            && (GateOpen(After(t, ReviewRows(Commits))) <==> NothingToReview(s.store.db))
  {
    var t := After(s, Open(epoch, Commits));
    OpeningReviews(s, epoch);
    if t.store.db.requirements == {} {
      forall id | id in t.store.db.rows
        ensures !NeedsStartupReview(t.store.db.rows[id])
      {
        assert !LeftInDoubt(s.store.db.rows[id]);
      }
      assert StartupReviews(t.store.db.rows) == {};
    }
  }

  // ------------------------------------------------------------ what a recovery check resolves

  /** A REAL operation that never got its marker was never sent. */
  predicate NeverSent(env: Env, row: Row) { env == REAL && row.state == ADMITTED && !row.marker }

  /** The fifth negative of a tagged simulated placement nobody ever saw. */
  predicate ProvesAbsence(env: Env, row: Row, evidence: Evidence) {
    && env == SIMULATE && evidence.NoMatch?
    && row.kind == PLACE && row.tag.Some? && row.brokerOrderId.None?
    && row.state in {ADMITTED, UNKNOWN_OUTCOME} && row.recovery.None?
    && (forall c | c in row.checks :: !c.seen) && Negatives(row.checks) >= 4
  }

  predicate Conclusive(env: Env, row: Row, evidence: Evidence) {
    evidence.MatchAccounted? || NeverSent(env, row) || ProvesAbsence(env, row, evidence)
  }

  /**
   On a working store a recovery check resolves its operation, and lifts its requirements,
   exactly when its evidence is conclusive; otherwise it only adds itself to the checks.
   */
  lemma ResolvesExactly(s: System, evidence: Evidence)
    requires Inv(s) && Enabled(s, RecordCheck(evidence, Commits)) && s.store.Usable()
    ensures var t := After(s, RecordCheck(evidence, Commits));
            var id, row := s.activity.id, s.activity.row;
            && id in t.store.db.rows && !t.store.failed
            && |t.store.db.rows[id].checks| == |row.checks| + 1
            && (Pending(t.store.db, id) <==> Pending(s.store.db, id) && !Conclusive(s.store.env, row, evidence))
            && (!Conclusive(s.store.env, row, evidence) ==>
                  && t.store.db.requirements == s.store.db.requirements
                  && t.store.db.rows[id] == row.(checks := t.store.db.rows[id].checks,
                                                 nextCheckAt := t.store.db.rows[id].nextCheckAt))
  {
    assert s.store.db.rows[s.activity.id] == s.activity.row && RowSound(s.activity.row);
    FindingResolves(s.store.env, s.activity.row, s.activity.started, s.now, evidence);
    var f := FindingOf(s.store.env, s.activity.row, s.activity.started, s.now, evidence);
    if f.resolution.Some? {
      var r := Resolve(s.store.env, s.activity.row, s.activity.row.checks + [f.check], f);
      assert r.Ok?;
    }
  }

  lemma {:induction false} NegativesAppend(checks: seq<Check>, c: Check)
    ensures Negatives(checks + [c]) == Negatives(checks) + (if c.outcome == NOT_FOUND then 1 else 0)
  {
    assert (checks + [c])[..|checks|] == checks;
  }

  lemma FindingResolves(env: Env, row: Row, started: real, completed: real, evidence: Evidence)
    requires RowSound(row) && evidence.WellFormed()
    ensures var f := FindingOf(env, row, started, completed, evidence);
            && (f.resolution.Some? <==> Conclusive(env, row, evidence))
            && (f.resolution.Some? ==> Resolve(env, row, row.checks + [f.check], f).Ok?)
            && (NeverSent(env, row) ==> f.resolution == Some(NOT_DISPATCHED))
            && (!NeverSent(env, row) && evidence.MatchAccounted? ==>
                  && f.resolution == Some(if AssumedAbsent(row) && env == SIMULATE
                                          then LATE_BROKER_ORDER_FOUND else evidence.resolution)
                  && f.receipt == Some(evidence.receipt) && f.facts == Some(evidence.facts))
            && (ProvesAbsence(env, row, evidence) ==> f.resolution == Some(ASSUMED_ABSENT))
  {
    var f := FindingOf(env, row, started, completed, evidence);
    NegativesAppend(row.checks, f.check);
  }

  /** The row a check leaves on a working store. */
  lemma RecordedRow(s: System, evidence: Evidence)
    requires Inv(s) && Enabled(s, RecordCheck(evidence, Commits)) && s.store.Usable()
    ensures var db := After(s, RecordCheck(evidence, Commits)).store.db;
            var row := s.activity.row;
            var f := FindingOf(s.store.env, row, s.activity.started, s.now, evidence);
            var checked := row.(checks := row.checks + [f.check], nextCheckAt := f.nextCheckAt);
            && s.activity.id in db.rows && RowSound(row)
            && (f.resolution.Some? ==> Resolve(s.store.env, row, checked.checks, f).Ok?)
            && db.rows[s.activity.id]
               == if f.resolution.None? then checked
                  else var r := Resolve(s.store.env, row, checked.checks, f).value; ResolvedRow(checked, r.0, r.1, f)
  {
    assert s.store.db.rows[s.activity.id] == s.activity.row && RowSound(s.activity.row);
    FindingResolves(s.store.env, s.activity.row, s.activity.started, s.now, evidence);
  }

  /** How a conclusively resolved row answers for its operation. */
  predicate Tells(env: Env, row: Row, evidence: Evidence, next: Row) {
    if NeverSent(env, row) then next.state == REFUSED && next.recovery == Some(NOT_DISPATCHED)
    else if evidence.MatchAccounted? then
      && next.state == (if next.recovery == Some(TERMINAL_RESOLVED) then TERMINAL_ACCOUNTED else RECONCILED)
      && next.recovery == Some(if AssumedAbsent(row) && env == SIMULATE
                               then LATE_BROKER_ORDER_FOUND else evidence.resolution)
      && next.receipt == Some(evidence.receipt) && next.facts == Some(evidence.facts)
      && next.brokerOrderId == evidence.receipt.orderId
      && (next.kind == MODIFY ==> next.observed)
    else next.state == UNKNOWN_OUTCOME && AssumedAbsent(next)
  }

  lemma ResolvedTells(env: Env, row: Row, started: real, completed: real, evidence: Evidence)
    requires RowSound(row) && evidence.WellFormed() && Conclusive(env, row, evidence)
    ensures var f := FindingOf(env, row, started, completed, evidence);
            var checked := row.(checks := row.checks + [f.check], nextCheckAt := f.nextCheckAt);
            && f.resolution.Some? && Resolve(env, row, checked.checks, f).Ok?
            && var r := Resolve(env, row, checked.checks, f).value;
               Tells(env, row, evidence, ResolvedRow(checked, r.0, r.1, f))
  {
    FindingResolves(env, row, started, completed, evidence);
  }

  /** What a resolved operation then says of itself. */
  lemma ResolvedAs(s: System, evidence: Evidence)
    requires Inv(s) && Enabled(s, RecordCheck(evidence, Commits)) && s.store.Usable()
    requires Conclusive(s.store.env, s.activity.row, evidence)
    ensures var db := After(s, RecordCheck(evidence, Commits)).store.db;
            s.activity.id in db.rows && Tells(s.store.env, s.activity.row, evidence, db.rows[s.activity.id])
  {
    RecordedRow(s, evidence);
    ResolvedTells(s.store.env, s.activity.row, s.activity.started, s.now, evidence);
  }

  /**
   When the operation is looked at again: REAL every thirty seconds; SIMULATE after five, ten
   or twenty while negatives are counted, after a minute once it is settled, else after five.
   */
  lemma NextCheck(s: System, evidence: Evidence)
    requires Inv(s) && Enabled(s, RecordCheck(evidence, Commits)) && s.store.Usable()
    ensures var t := After(s, RecordCheck(evidence, Commits));
            && s.activity.id in t.store.db.rows
            && var row, wait := s.activity.row, t.store.db.rows[s.activity.id].nextCheckAt - s.now;
               && (s.store.env == REAL ==> wait == 30.0)
               && (s.store.env == SIMULATE && !evidence.NoMatch? ==>
                     wait == if evidence.MatchAccounted? then 60.0 else 5.0)
               && (s.store.env == SIMULATE && evidence.NoMatch? ==>
                     wait == if !CountsNegatives(row) then 5.0
                             else if AssumedAbsent(row) || Negatives(row.checks) >= 4 then 60.0
                             else if Negatives(row.checks) == 3 then 20.0
                             else if Negatives(row.checks) == 2 then 10.0
                             else 5.0)
  {
    RecordedRow(s, evidence);
    FindingWaits(s.store.env, s.activity.row, s.activity.started, s.now, evidence);
  }

  lemma FindingWaits(env: Env, row: Row, started: real, completed: real, evidence: Evidence)
    ensures var wait := FindingOf(env, row, started, completed, evidence).nextCheckAt - completed;
            && (env == REAL ==> wait == 30.0)
            && (env == SIMULATE && !evidence.NoMatch? ==> wait == if evidence.MatchAccounted? then 60.0 else 5.0)
            && (env == SIMULATE && evidence.NoMatch? ==>
                  wait == if !CountsNegatives(row) then 5.0
                          else if AssumedAbsent(row) || Negatives(row.checks) >= 4 then 60.0
                          else if Negatives(row.checks) == 3 then 20.0
                          else if Negatives(row.checks) == 2 then 10.0
                          else 5.0)
  {
  }

  /** What a check leaves behind of itself: when it ran, whether it saw an order, and if it counts. */
  lemma ChecksTell(s: System, evidence: Evidence)
    requires Inv(s) && Enabled(s, RecordCheck(evidence, Commits)) && s.store.Usable()
    ensures var db := After(s, RecordCheck(evidence, Commits)).store.db;
            var env, row := s.store.env, s.activity.row;
            && s.activity.id in db.rows && |db.rows[s.activity.id].checks| == |row.checks| + 1
            && row.checks <= db.rows[s.activity.id].checks
            && var c := db.rows[s.activity.id].checks[|row.checks|];
               && c.startedAt == s.activity.started && c.completedAt == s.now
               && (c.seen <==> (evidence.MatchInvalid? || evidence.MatchPending? || evidence.MatchAccounted?)
                               && !NeverSent(env, row))
               && (env == SIMULATE ==>
                     (c.outcome == NOT_FOUND <==>
                        && evidence.NoMatch? && row.kind == PLACE && row.tag.Some? && row.brokerOrderId.None?
                        && row.state in {ADMITTED, UNKNOWN_OUTCOME} && row.recovery.None?
                        && forall d | d in row.checks :: !d.seen))
  {
    RecordedRow(s, evidence);
    assert RecoveryFits(s.activity.row.state, s.activity.row.recovery);
  }

  /** On a working store the record of a check is never refused. */
  lemma RecordSucceeds(s: System, evidence: Evidence)
    requires Inv(s) && Enabled(s, RecordCheck(evidence, Commits)) && s.store.Usable()
    ensures var f := FindingOf(s.store.env, s.activity.row, s.activity.started, s.now, evidence);
            WithFinding(s.store, s.activity.id, s.activity.row.state, f, Commits).1.Done?
  {
    RecordedRow(s, evidence);
    assert s.store.db.rows[s.activity.id] == s.activity.row;
  }

  /** Behind a free mutex with nothing unstored, exactly what is due and needs a look can be checked. */
  lemma DueExactly(s: System, id: OpId)
    requires Inv(s) && s.running && s.store.reviewed && s.activity.Free? && s.late == {} && s.store.Usable()
    ensures Enabled(s, BeginCheck(id))
            <==> && id in s.store.db.rows && s.store.db.rows[id].nextCheckAt <= s.now
                 && (AssumedAbsent(s.store.db.rows[id])
                     || exists p | p in s.store.db.requirements :: p.0 == id)
  {
  }

  // ------------------------------------------------------------ guards

  /**
   Storing an acknowledgement retires every modification its dispatch saw, and leaves an
   acknowledged modification waiting to be seen itself.
   */
  lemma AcknowledgementRetires(s: System, back: ReadBack, g: OpId)
    requires Inv(s) && Enabled(s, StoreAnswer(Commits, back)) && s.store.Usable()
    requires !s.activity.stage.answer.NoAck? && g in s.store.db.rows
    ensures var db := After(s, StoreAnswer(Commits, back)).store.db;
            && g in db.rows
            && (g in s.activity.observed ==> db.rows[g].observed)
            && (g != s.activity.id && g !in s.activity.observed ==> db.rows[g] == s.store.db.rows[g])
            && (g == s.activity.id ==>
                  db.rows[g].state == ACKNOWLEDGED && db.rows[g].observed == s.store.db.rows[g].observed)
  {
    if g in s.activity.observed {
      assert Exposing(s.store.env, s.store.db.rows[s.activity.id]);
      assert g in Guards(s, s.store.db.rows[s.activity.id]);
    }
  }

  // ------------------------------------------------------------ what may go wrong

  /** A marked thread whose store is closed can still call, once. */
  lemma LateCallPossible(s: System)
    requires Inv(s) && InStage(s, {Marked})
    ensures Enabled(s, CloseStore) && Enabled(After(s, CloseStore), LateCall(s.activity.id))
    ensures !Enabled(After(After(s, CloseStore), LateCall(s.activity.id)), LateCall(s.activity.id))
  {
  }

  /** Any commit may raise, with either rows in place, and then nothing is stored until a new process opens. */
  lemma CommitEndings<T>(s: Store, db: Journal, value: T)
    requires s.Usable()
    ensures var (t, r) := Transact(s, Ok((db, value)), Commits); r == Done(value) && t == s.(db := db)
    ensures var (t, r) := Transact(s, Ok((db, value)), RaisesOld);
            r == StorageFailed && t.db == s.db && !t.Usable()
    ensures var (t, r) := Transact(s, Ok((db, value)), RaisesNew);
            r == StorageFailed && t.db == db && !t.Usable()
    ensures forall t: Store, c: Commit :: !t.Usable() ==> Transact(t, Ok((db, value)), c) == (t, StorageFailed)
  {
  }
}
