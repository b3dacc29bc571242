/**
 How slowly absence can be assumed: the spacing of recovery checks over every run,
 however errors, restarts and requested checks are interleaved with the negatives.
 */
module RecoverySchedule {
  import opened Wrappers
  import opened Journal
  import opened ExecutionStore
  import opened RecoveryCheck
  import opened Lifecycle
  import opened LifecycleInvariant
  import opened LifecycleSafety

  function DelayAfter(checks: seq<Check>): real
    requires checks != []
  {
    if checks[|checks| - 1].outcome == NOT_FOUND && Negatives(checks) >= 1
    then NegativeDelay(Negatives(checks)) else 0.0
  }

  predicate Ordered(checks: seq<Check>) {
    forall i | 0 <= i < |checks| :: checks[i].startedAt <= checks[i].completedAt
  }

  predicate Spaced(checks: seq<Check>) {
    forall i | 0 <= i < |checks| - 1 ::
      checks[i].completedAt + DelayAfter(checks[..i + 1]) <= checks[i + 1].startedAt
  }

  /** A row whose checks kept their distance, and whose next check will too. */
  predicate Paced(row: Row) {
    && Ordered(row.checks) && Spaced(row.checks)
    && (row.checks != [] ==>
          row.checks[|row.checks| - 1].completedAt + DelayAfter(row.checks) <= row.nextCheckAt)
  }

  predicate AbsenceCounted(row: Row) {
    AssumedAbsent(row) ==> Negatives(row.checks) >= 5
  }

  predicate AllPaced(s: System) {
    s.store.env == SIMULATE ==> forall id | id in s.store.db.rows :: Paced(s.store.db.rows[id])
  }

  lemma FindingPaces(row: Row, started: real, completed: real, e: Evidence)
    requires Paced(row) && row.nextCheckAt <= started <= completed
    ensures var f := PaperFinding(row, started, completed, e);
            var checks := row.checks + [f.check];
            && Ordered(checks) && Spaced(checks)
            && completed + DelayAfter(checks) <= f.nextCheckAt
  {
    var f := PaperFinding(row, started, completed, e);
    var checks := row.checks + [f.check];
    SeenGrows(row.checks, f.check);
    forall i | 0 <= i < |checks| - 1
      ensures checks[i].completedAt + DelayAfter(checks[..i + 1]) <= checks[i + 1].startedAt
    {
      assert checks[..i + 1] == row.checks[..i + 1];
      if i == |row.checks| - 1 {
        assert row.checks[..i + 1] == row.checks;
      }
    }
  }

  /** Nothing but a recorded check touches a row's checks or its schedule. */
  lemma ChangeKeepsChecks(s: System, step: Step, id: OpId, row: Row, next: Row)
    requires RowChange(s, step, id, row, next) && !step.RecordCheck?
    ensures next.checks == row.checks && next.nextCheckAt == row.nextCheckAt
    ensures next.recovery == row.recovery
  {
  }

  lemma RecordedChecks(s: System, evidence: Evidence, row: Row, next: Row)
    requires s.activity.Checking? && RecordChange(s, evidence, row, next)
    ensures var f := FindingOf(s.store.env, s.activity.row, s.activity.started, s.now, evidence);
            next.checks == row.checks + [f.check] && next.nextCheckAt == f.nextCheckAt
  {
  }

  lemma RecordPaces(s: System, evidence: Evidence, row: Row, next: Row)
    requires s.store.env == SIMULATE && s.activity.Checking? && s.activity.row == row
    requires Paced(row) && row.nextCheckAt <= s.activity.started <= s.now
    requires RecordChange(s, evidence, row, next)
    ensures Paced(next)
  {
    RecordedChecks(s, evidence, row, next);
    FindingPaces(row, s.activity.started, s.now, evidence);
  }

  lemma RecordCounts(s: System, evidence: Evidence, row: Row, next: Row)
    requires s.store.env == SIMULATE && s.activity.Checking? && AbsenceCounted(row)
    requires RecordChange(s, evidence, row, next)
    ensures AbsenceCounted(next)
  {
    var f := FindingOf(s.store.env, s.activity.row, s.activity.started, s.now, evidence);
    SeenGrows(row.checks, f.check);
  }

  lemma StepPaces(s: System, step: Step, id: OpId)
    requires Inv(s) && Enabled(s, step) && AllPaced(s) && s.store.env == SIMULATE
    requires id in After(s, step).store.db.rows
    ensures Paced(After(s, step).store.db.rows[id])
  {
    if id in s.store.db.rows {
      var row, next := s.store.db.rows[id], After(s, step).store.db.rows[id];
      RowEffect(s, step, id);
      if !step.RecordCheck? {
        ChangeKeepsChecks(s, step, id, row, next);
      } else if next != row {
        RecordPaces(s, step.evidence, row, next);
      }
    } else {
      NewRowIsAdmitted(s, step, id);
    }
  }

  lemma {:induction false} RunPaces(steps: seq<Step>)
    requires Runs(Start(SIMULATE), steps)
    ensures AllPaced(Exec(Start(SIMULATE), steps))
  {
    if steps != [] {
      var n := |steps| - 1;
      var s := Exec(Start(SIMULATE), steps[..n]);
      RunPaces(steps[..n]);
      StartSatisfies(SIMULATE);
      RunKeeps(Start(SIMULATE), steps[..n]);
      forall id | id in After(s, steps[n]).store.db.rows
        ensures Paced(After(s, steps[n]).store.db.rows[id])
      {
        StepPaces(s, steps[n], id);
      }
    }
  }

  lemma ChangeCounts(s: System, step: Step, id: OpId, row: Row, next: Row)
    requires RowChange(s, step, id, row, next) && s.store.env == SIMULATE && AbsenceCounted(row)
    ensures AbsenceCounted(next)
  {
    if next != row {
      if step.RecordCheck? {
        RecordCounts(s, step.evidence, row, next);
      } else {
        ChangeKeepsChecks(s, step, id, row, next);
      }
    }
  }

  lemma {:induction false} RunCounts(steps: seq<Step>, id: OpId)
    requires Runs(Start(SIMULATE), steps)
    requires id in Exec(Start(SIMULATE), steps).store.db.rows
    ensures AbsenceCounted(Exec(Start(SIMULATE), steps).store.db.rows[id])
  {
    if steps != [] {
      var n := |steps| - 1;
      var s := Exec(Start(SIMULATE), steps[..n]);
      StartSatisfies(SIMULATE);
      RunKeeps(Start(SIMULATE), steps[..n]);
      if id in s.store.db.rows {
        RunCounts(steps[..n], id);
        RowEffect(s, steps[n], id);
        ChangeCounts(s, steps[n], id, s.store.db.rows[id], After(s, steps[n]).store.db.rows[id]);
      } else {
        NewRowIsAdmitted(s, steps[n], id);
      }
    }
  }

  /** Check `k` is the `n`-th tagged negative. */
  predicate NthNegative(checks: seq<Check>, n: nat, k: nat) {
    k < |checks| && checks[k].outcome == NOT_FOUND && Negatives(checks[..k + 1]) == n
  }

  lemma {:induction false} Later(checks: seq<Check>, i: nat, j: nat)
    requires Ordered(checks) && Spaced(checks) && i < j < |checks|
    ensures checks[i].completedAt + DelayAfter(checks[..i + 1]) <= checks[j].startedAt
    decreases j - i
  {
    if i + 1 < j {
      Later(checks, i, j - 1);
      assert checks[j - 1].completedAt + DelayAfter(checks[..j]) <= checks[j].startedAt;
    }
  }

  lemma {:induction false} NegativesMonotone(checks: seq<Check>, i: nat, j: nat)
    requires i <= j <= |checks|
    ensures Negatives(checks[..i]) <= Negatives(checks[..j])
    decreases j
  {
    if i < j {
      assert checks[..j][..j - 1] == checks[..j - 1];
      NegativesMonotone(checks, i, j - 1);
    }
  }

  /** A history with at least `n` negatives has an n-th one. */
  lemma {:induction false} NegativeExists(checks: seq<Check>, n: nat) returns (k: nat)
    requires Negatives(checks) >= n >= 1
    ensures NthNegative(checks, n, k)
  {
    var i := |checks| - 1;
    assert checks[..i + 1] == checks;
    if checks[i].outcome == NOT_FOUND && Negatives(checks) == n {
      k := i;
    } else {
      k := NegativeExists(checks[..i], n);
      assert checks[..i][..k + 1] == checks[..k + 1];
    }
  }

  lemma GapBefore(checks: seq<Check>, n: nat, k: nat) returns (i: nat)
    requires Ordered(checks) && Spaced(checks)
    requires NthNegative(checks, n, k) && 2 <= n <= 5
    ensures i < k && NthNegative(checks, n - 1, i)
    ensures checks[i].completedAt + NEGATIVE_GAPS[n - 2] <= checks[k].startedAt
  {
    assert checks[..k + 1][..k] == checks[..k];
    i := NegativeExists(checks[..k], n - 1);
    assert checks[..k][..i + 1] == checks[..i + 1];
    Later(checks, i, k);
  }

  lemma NegativeGrows(checks: seq<Check>, a: nat, b: nat)
    requires a < b < |checks| && checks[b].outcome == NOT_FOUND
    ensures Negatives(checks[..a + 1]) < Negatives(checks[..b + 1])
  {
    NegativesMonotone(checks, a + 1, b);
    assert checks[..b + 1][..b] == checks[..b];
  }

  lemma NthNegativeUnique(checks: seq<Check>, n: nat, a: nat, b: nat)
    requires NthNegative(checks, n, a) && NthNegative(checks, n, b)
    ensures a == b
  {
    if a < b {
      NegativeGrows(checks, a, b);
    } else if b < a {
      NegativeGrows(checks, b, a);
    }
  }

  /**
   In every run, the fifth tagged negative of an operation starts at least forty
   seconds after the first one completed.
   */
  lemma FortySeconds(steps: seq<Step>, id: OpId, first: nat, fifth: nat)
    requires Runs(Start(SIMULATE), steps)
    requires id in Exec(Start(SIMULATE), steps).store.db.rows
    requires NthNegative(Exec(Start(SIMULATE), steps).store.db.rows[id].checks, 1, first)
    requires NthNegative(Exec(Start(SIMULATE), steps).store.db.rows[id].checks, 5, fifth)
    ensures var checks := Exec(Start(SIMULATE), steps).store.db.rows[id].checks;
            first < fifth
            && checks[first].completedAt + 40.0 <= checks[fifth].startedAt
  {
    var checks := Exec(Start(SIMULATE), steps).store.db.rows[id].checks;
    RunPaces(steps);
    StartSatisfies(SIMULATE);
    RunKeeps(Start(SIMULATE), steps);
    assert Paced(Exec(Start(SIMULATE), steps).store.db.rows[id]);
    var fourth := GapBefore(checks, 5, fifth);
    var third := GapBefore(checks, 4, fourth);
    var second := GapBefore(checks, 3, third);
    var one := GapBefore(checks, 2, second);
    NthNegativeUnique(checks, 1, one, first);
  }

  /** So absence is never assumed sooner than forty seconds after the first negative. */
  lemma AbsenceIsSlow(steps: seq<Step>, id: OpId) returns (first: nat, fifth: nat)
    requires Runs(Start(SIMULATE), steps)
    requires id in Exec(Start(SIMULATE), steps).store.db.rows
    requires AssumedAbsent(Exec(Start(SIMULATE), steps).store.db.rows[id])
    ensures var checks := Exec(Start(SIMULATE), steps).store.db.rows[id].checks;
            && NthNegative(checks, 1, first) && NthNegative(checks, 5, fifth)
            && checks[first].completedAt + 40.0 <= checks[fifth].startedAt
  {
    RunCounts(steps, id);
    var row := Exec(Start(SIMULATE), steps).store.db.rows[id];
    first := NegativeExists(row.checks, 1);
    fifth := NegativeExists(row.checks, 5);
    FortySeconds(steps, id, first, fifth);
  }
}
