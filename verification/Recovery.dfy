/** One recovery check, automatic or requested: read-only at the broker, one record in the journal. */
module Recovery {
  import opened Wrappers
  import opened Journal
  import opened ExecutionStore
  import opened RecoveryCheck
  import opened RecoveryAccounting
  import opened Lifecycle
  import opened LifecycleInvariant
  import opened LifecycleSafety
  import opened LifecycleProgress
  import opened Executor

  datatype Checked =
    | UnknownOperation
    | OutcomeNotStored
    | StorageRefused
    | NotDue
    | Stopped
    | Recorded

  /** Every finding recorded in these steps rests on this evidence. */
  predicate Carries(steps: seq<Step>, evidence: Evidence) {
    forall k | 0 <= k < |steps| && steps[k].RecordCheck? :: steps[k].evidence == evidence
  }

  lemma KeptAlong(s: System, steps: seq<Step>)
    requires Runs(s, steps)
    ensures Inv(s) ==> Inv(Exec(s, steps))
  {
    if Inv(s) {
      RunKeeps(s, steps);
    }
  }

  lemma KeptBy(s: System, step: Step)
    requires Enabled(s, step)
    ensures Inv(s) ==> Inv(After(s, step))
  {
    if Inv(s) {
      StepKeeps(s, step);
    }
  }

  lemma NeverRefused(s: System, evidence: Evidence, commit: Commit)
    requires Enabled(s, RecordCheck(evidence, commit))
    ensures var f := FindingOf(s.store.env, s.activity.row, s.activity.started, s.now, evidence);
            Inv(s) && s.store.Usable() && commit == Commits ==>
              WithFinding(s.store, s.activity.id, s.activity.row.state, f, commit).1.Done?
  {
    if Inv(s) && s.store.Usable() && commit == Commits {
      RecordSucceeds(s, evidence);
    }
  }

  lemma ReadyToRecord(s: System, evidence: Evidence, commit: Commit)
    requires s.running && s.activity.Checking? && evidence.WellFormed()
    requires s.activity.blocked == (s.store.env == SIMULATE && AssumedAbsent(s.activity.row) && evidence.Seen())
    ensures Enabled(s, RecordCheck(evidence, commit))
  {
  }

  class RecoveryWorker {
    const core: Executor

    constructor (core: Executor)
      ensures this.core == core
    {
      this.core := core;
    }

    /** The journal answers for the name. */
    ghost predicate Readable(id: OpId, readable: bool)
      reads core, core.store
    {
      core.store.View().Usable() && readable && id in core.store.db.rows
    }

    /** The operation awaits review, or its assumed absence is watched, and its time has come. */
    ghost predicate Due(id: OpId, at: real)
      reads core, core.store
    {
      && id in core.store.db.rows && core.store.db.rows[id].nextCheckAt <= at
      && (core.store.db.rows[id].recovery == Some(ASSUMED_ABSENT)
          || exists p | p in core.store.db.requirements :: p.0 == id)
    }

    method Check(id: OpId, readable: bool, started: real, completed: real, report: Report,
                 late: Commit, stopped: bool, commit: Commit)
      returns (r: Checked, ghost steps: seq<Step>)
      requires core.activity.Free? && core.store.reviewed
      requires core.now <= started <= completed
      modifies core, core.store
      ensures Runs(old(core.View()), steps) && Exec(old(core.View()), steps) == core.View()
      ensures core.activity.Free? && NoCall(steps)
      ensures r == UnknownOperation <==>
                old(core.store.View()).Usable() && readable && id !in old(core.store.db.rows)
      ensures r == OutcomeNotStored <==> old(Readable(id, readable)) && old(core.late) != map[]
      ensures r == NotDue <==> old(Readable(id, readable)) && old(core.late) == map[] && !old(Due(id, started))
      ensures r in {Stopped, Recorded} ==>
                old(Readable(id, readable)) && old(core.late) == map[] && old(Due(id, started))
                && (r == Stopped <==> stopped)
      ensures old(Inv(core.View())) && old(Readable(id, readable)) && old(core.late) == map[] && old(Due(id, started))
              && late == Commits && commit == Commits ==>
                r == if stopped then Stopped else Recorded
      ensures r.NotDue? || r.UnknownOperation? || r.OutcomeNotStored? ==>
                core.store.db == old(core.store.db)
      ensures id in old(core.store.db.rows) ==>
                Carries(steps, Gather(core.store.environment, old(core.store.db.rows[id]), report))
    {
      ghost var s := core.View();
      var found, ok, looked := core.FindName(id, readable);
      steps := looked;
      if !ok {
        return StorageRefused, steps;
      }
      if found.None? {
        return UnknownOperation, steps;
      }
      if core.late != map[] {
        return OutcomeNotStored, steps;
      }
      if !RecoveryDue(core.store.db, id, started) {
        return NotDue, steps;
      }
      steps := Begin(s, id, started);
      var evidence := GatherEvidence(core.store.environment, found.value, report);
      r, steps := Conclude(s, steps, id, found.value, started, completed, evidence, late, stopped, commit);
    }

    /** Take the mutex for a due operation. */
    method Begin(ghost s: System, id: OpId, started: real) returns (ghost steps: seq<Step>)
      requires s == core.View() && core.activity.Free? && core.late == map[] && core.store.reviewed
      requires core.store.View().Usable() && RecoveryDue(core.store.db, id, started)
      requires core.now <= started
      modifies core
      ensures Runs(s, steps) && Exec(s, steps) == core.View() && NoCall(steps)
      ensures forall k | 0 <= k < |steps| :: !steps[k].RecordCheck?
      ensures core.activity == Checking(id, core.store.db.rows[id], started, false)
      ensures core.now == started && core.late == old(core.late)
      ensures old(Inv(core.View())) ==> Inv(core.View())
    {
      core.now := started;
      Extend(s, [], Tick(started));
      core.activity := Checking(id, core.store.db.rows[id], started, false);
      Extend(s, [] + [Tick(started)], BeginCheck(id));
      steps := [] + [Tick(started)] + [BeginCheck(id)];
      KeptAlong(s, steps);
    }

    /** Shut the gate first if an assumed-absent order appeared, then record the finding. */
    method Conclude(ghost s: System, ghost before: seq<Step>, id: OpId, row: Row, started: real,
                    completed: real, evidence: Evidence, late: Commit, stopped: bool, commit: Commit)
      returns (r: Checked, ghost steps: seq<Step>)
      requires Runs(s, before) && Exec(s, before) == core.View() && NoCall(before) && Carries(before, evidence)
      requires core.activity == Checking(id, row, started, false)
      requires core.now <= completed && evidence.WellFormed()
      modifies core, core.store
      ensures Runs(s, steps) && Exec(s, steps) == core.View() && NoCall(steps) && Carries(steps, evidence)
      ensures core.activity.Free? && r in {Stopped, Recorded, StorageRefused}
      ensures r == Stopped ==> stopped
      ensures r == Recorded ==> !stopped
      ensures old(Inv(core.View())) && old(core.store.View()).Usable() && late == Commits && commit == Commits ==>
                r == if stopped then Stopped else Recorded
    {
      var open;
      open, steps := ShutIfLate(s, before, id, row, evidence, late);
      if !open {
        return StorageRefused, steps;
      }
      ReadyToRecord(core.View(), evidence, commit);
      r, steps := Settle(s, steps, id, row, started, completed, evidence, stopped, commit);
    }

    /** The queries have come back. */
    method Finish(ghost s: System, ghost before: seq<Step>, completed: real, ghost evidence: Evidence,
                  ghost commit: Commit)
      returns (ghost steps: seq<Step>)
      requires Runs(s, before) && Exec(s, before) == core.View() && NoCall(before) && Carries(before, evidence)
      requires core.now <= completed && Enabled(core.View(), RecordCheck(evidence, commit))
      modifies core`now
      ensures Runs(s, steps) && Exec(s, steps) == core.View() && NoCall(steps) && Carries(steps, evidence)
      ensures core.now == completed && Enabled(core.View(), RecordCheck(evidence, commit))
      ensures old(Inv(core.View())) ==> Inv(core.View())
    {
      KeptBy(core.View(), Tick(completed));
      core.now := completed;
      Extend(s, before, Tick(completed));
      steps := before + [Tick(completed)];
    }

    /** The check is over: leave without a record when stopping, else record it. */
    method Settle(ghost s: System, ghost before: seq<Step>, id: OpId, row: Row, started: real,
                  completed: real, evidence: Evidence, stopped: bool, commit: Commit)
      returns (r: Checked, ghost steps: seq<Step>)
      requires Runs(s, before) && Exec(s, before) == core.View() && NoCall(before) && Carries(before, evidence)
      requires core.activity.Checking? && core.activity.id == id && core.activity.row == row
      requires core.activity.started == started && core.now <= completed
      requires Enabled(core.View(), RecordCheck(evidence, commit))
      modifies core, core.store
      ensures Runs(s, steps) && Exec(s, steps) == core.View() && NoCall(steps) && Carries(steps, evidence)
      ensures core.activity.Free? && r in {Stopped, Recorded, StorageRefused}
      ensures r == Stopped <==> stopped
      ensures old(Inv(core.View())) && old(core.store.View()).Usable() && commit == Commits && !stopped ==>
                r == Recorded
    {
      steps := Finish(s, before, completed, evidence, commit);
      if stopped {
        core.activity := Free;
        Extend(s, steps, LeaveCheck);
        steps := steps + [LeaveCheck];
        return Stopped, steps;
      }
      r, steps := RecordFinding(s, steps, id, row, started, completed, evidence, commit);
    }

    /** An order of an assumed-absent operation shuts the gate before anything else is written of it. */
    method ShutIfLate(ghost s: System, ghost before: seq<Step>, id: OpId, row: Row, evidence: Evidence,
                      late: Commit)
      returns (ok: bool, ghost steps: seq<Step>)
      requires Runs(s, before) && Exec(s, before) == core.View() && NoCall(before) && Carries(before, evidence)
      requires core.activity.Checking? && core.activity.id == id && core.activity.row == row
      requires !core.activity.blocked && evidence.WellFormed()
      modifies core, core.store
      ensures Runs(s, steps) && Exec(s, steps) == core.View() && NoCall(steps) && Carries(steps, evidence)
      ensures !ok ==> core.activity.Free?
      ensures ok ==>
                core.activity == old(core.activity).(
                  blocked := core.store.environment == SIMULATE && AssumedAbsent(row) && evidence.Seen())
      ensures core.now == old(core.now)
      ensures old(Inv(core.View())) ==> Inv(core.View())
      ensures old(core.store.View()).Usable() && late == Commits ==> ok && core.store.View().Usable()
    {
      steps := before;
      ok := true;
      if core.store.environment == SIMULATE && AssumedAbsent(row) && evidence.Seen() {
        ok := Shut(id, row, late);
        Extend(s, before, SeeLateOrder(late));
        steps := before + [SeeLateOrder(late)];
      }
    }

    method Shut(id: OpId, row: Row, late: Commit) returns (ok: bool)
      requires core.activity.Checking? && core.activity.id == id && core.activity.row == row
      requires !core.activity.blocked && core.store.environment == SIMULATE && AssumedAbsent(row)
      modifies core, core.store
      ensures core.View() == After(old(core.View()), SeeLateOrder(late))
      ensures core.activity == if ok then old(core.activity).(blocked := true) else Free
      ensures core.now == old(core.now)
      ensures old(Inv(core.View())) ==> Inv(core.View())
      ensures old(core.store.View()).Usable() && late == Commits ==> ok && core.store.View().Usable()
    {
      KeptBy(core.View(), SeeLateOrder(late));
      var blocked := core.store.BlockLate(id, late);
      ok := blocked.Done?;
      core.activity := if ok then core.activity.(blocked := true) else Free;
    }

    method RecordFinding(ghost s: System, ghost before: seq<Step>, id: OpId, row: Row, started: real,
                         completed: real, evidence: Evidence, commit: Commit)
      returns (r: Checked, ghost steps: seq<Step>)
      requires Runs(s, before) && Exec(s, before) == core.View() && NoCall(before) && Carries(before, evidence)
      requires core.activity.Checking? && core.activity.id == id && core.activity.row == row
      requires core.activity.started == started && core.now == completed
      requires Enabled(core.View(), RecordCheck(evidence, commit))
      modifies core, core.store
      ensures Runs(s, steps) && Exec(s, steps) == core.View() && NoCall(steps) && Carries(steps, evidence)
      ensures core.activity.Free? && (r == Recorded || r == StorageRefused)
      ensures old(Inv(core.View())) && old(core.store.View()).Usable() && commit == Commits ==> r == Recorded
    {
      NeverRefused(core.View(), evidence, commit);
      var stored := Write(id, row, started, completed, evidence, commit);
      Extend(s, before, RecordCheck(evidence, commit));
      steps := before + [RecordCheck(evidence, commit)];
      r := if stored.Done? then Recorded else StorageRefused;
    }

    /** The one record of a check, after which the mutex is free. */
    method Write(id: OpId, row: Row, started: real, completed: real, evidence: Evidence, commit: Commit)
      returns (stored: Status<()>)
      requires core.activity.Checking? && core.activity.id == id && core.activity.row == row
      requires core.activity.started == started && core.now == completed
      modifies core, core.store
      ensures core.View() == AfterRecord(old(core.View()), evidence, commit) && core.activity.Free?
      ensures stored == WithFinding(old(core.store.View()), id, row.state,
                                    FindingOf(core.store.environment, row, started, completed, evidence), commit).1
    {
      var f := FindingOf(core.store.environment, row, started, completed, evidence);
      stored := core.store.Record(id, row.state, f, commit);
      core.activity := Free;
    }
  }
}
