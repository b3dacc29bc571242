/**
 What the mutation protocol guarantees over all of its runs: at most one broker
 call per operation, a journal that never understates, and a gate that stays shut
 while any outcome is uncertain and opens only on recorded evidence.
 */
module LifecycleSafety {
  import opened Wrappers
  import opened Journal
  import opened ExecutionStore
  import opened RecoveryCheck
  import opened Lifecycle
  import opened LifecycleInvariant

  // ------------------------------------------------------------ runs

  lemma {:induction false} RunsSplit(s: System, a: seq<Step>, b: seq<Step>)
    requires Runs(s, a + b)
    ensures Runs(s, a) && Runs(Exec(s, a), b)
    ensures Exec(s, a + b) == Exec(Exec(s, a), b)
    decreases |b|
  {
    if b == [] {
      assert a + b == a;
    } else {
      var n := |b| - 1;
      assert (a + b)[..|a + b| - 1] == a + b[..n];
      RunsSplit(s, a, b[..n]);
    }
  }

  lemma {:induction false} RunsJoin(s: System, a: seq<Step>, b: seq<Step>)
    requires Runs(s, a) && Runs(Exec(s, a), b)
    ensures Runs(s, a + b)
    ensures Exec(s, a + b) == Exec(Exec(s, a), b)
    decreases |b|
  {
    if b == [] {
      assert a + b == a;
    } else {
      var n := |b| - 1;
      assert (a + b)[..|a + b| - 1] == a + b[..n];
      RunsJoin(s, a, b[..n]);
    }
  }

  lemma LastEnabled(s: System, before: seq<Step>, step: Step)
    requires Runs(s, before + [step])
    ensures Runs(s, before) && Enabled(Exec(s, before), step)
    ensures Exec(s, before + [step]) == After(Exec(s, before), step)
  {
    assert (before + [step])[..|before|] == before;
  }

  lemma Extend(s: System, steps: seq<Step>, step: Step)
    requires Runs(s, steps) && Enabled(Exec(s, steps), step)
    ensures Runs(s, steps + [step])
    ensures Exec(s, steps + [step]) == After(Exec(s, steps), step)
  {
    assert (steps + [step])[..|steps|] == steps;
  }

  /** The step makes the broker mutation call of `id`, in time or late. */
  predicate Calls(step: Step, id: OpId) { step == Call(id) || step == LateCall(id) }

  function CallCount(steps: seq<Step>, id: OpId): nat {
    if steps == [] then 0
    else CallCount(steps[..|steps| - 1], id) + (if Calls(steps[|steps| - 1], id) then 1 else 0)
  }

  predicate NoCall(steps: seq<Step>) {
    forall k | 0 <= k < |steps| :: !steps[k].Call? && !steps[k].LateCall?
  }

  /** No process calls; only threads that had already outlived theirs may still do so. */
  predicate OnlyLate(steps: seq<Step>, late: set<OpId>) {
    forall k | 0 <= k < |steps| :: !steps[k].Call? && (steps[k].LateCall? ==> steps[k].id in late)
  }

  lemma CallsAdded(s: System, step: Step)
    requires Enabled(s, step)
    ensures After(s, step).calls == if step.Call? || step.LateCall? then s.calls + multiset{step.id} else s.calls
  {
  }

  lemma {:induction false} CallsCounted(env: Env, steps: seq<Step>, id: OpId)
    requires Runs(Start(env), steps)
    ensures Exec(Start(env), steps).calls[id] == CallCount(steps, id)
  {
    if steps != [] {
      var n := |steps| - 1;
      CallsCounted(env, steps[..n], id);
      CallsAdded(Exec(Start(env), steps[..n]), steps[n]);
    }
  }

  /** The broker mutation call is made at most once per operation, over every run. */
  lemma AtMostOnce(env: Env, steps: seq<Step>, id: OpId)
    requires Runs(Start(env), steps)
    ensures CallCount(steps, id) <= 1
  {
    CallsCounted(env, steps, id);
    StartSatisfies(env);
    RunKeeps(Start(env), steps);
    var calls := Exec(Start(env), steps).calls;
    if id in calls {
      assert calls[id] == 1;
    }
  }

  // ------------------------------------------------------------ rows over time

  /** What no step may change: the identity a caller's name was bound to. */
  predicate SameIdentity(a: Row, b: Row) {
    && a.epoch == b.epoch && a.account == b.account && a.kind == b.kind
    && a.canonical == b.canonical && a.request == b.request && a.tag == b.tag
  }

  predicate RowFollows(a: Row, b: Row) {
    && SameIdentity(a, b)
    && (a.state != ADMITTED ==> b.state != ADMITTED)
    && (a.marker ==> b.marker && b.merged == a.merged)
    && (a.recovery.Some? ==> b.recovery.Some?)
    && (a.brokerOrderId.Some? ==> b.brokerOrderId.Some?)
    && a.checks <= b.checks
  }

  /** The one row a storing step writes, and what retiring guards adds to the others. */
  predicate RowChange(s: System, step: Step, id: OpId, row: Row, next: Row) {
    || next == row
    || (step.Open? && row.state == DISPATCHING
        && next == row.(state := UNKNOWN_OUTCOME, disposition := POSSIBLY_SENT))
    || (step.MarkRow? && s.activity.Executing? && id == s.activity.id && row.state == ADMITTED
        && next == row.(state := DISPATCHING, disposition := IN_FLIGHT, marker := true,
                        merged := Some(step.merged)))
    || (step.Refuse? && s.activity.Executing? && id == s.activity.id
        && next == row.(state := REFUSED, disposition := NOT_SENT, receipt := None))
    || (step.StoreAnswer? && s.activity.Executing? && s.activity.stage.Answered?
        && AnswerChange(s.activity, id, row, next))
    || (step.RecordCheck? && s.activity.Checking? && id == s.activity.id
        && RecordChange(s, step.evidence, row, next))
  }

  /** A row whose call was answered, with all the broker said of its order. */
  function AnsweredRow(row: Row, a: Answer): Row {
    var receipt := if a.AckReadable? then Some(a.receipt) else a.evidence;
    var named := if receipt.Some? then receipt.value.orderId else None;
    row.(state := if a.NoAck? then UNKNOWN_OUTCOME else ACKNOWLEDGED,
         disposition := if a.NoAck? then POSSIBLY_SENT else ACKED,
         receipt := receipt, brokerOrderId := if named.Some? then named else row.brokerOrderId)
  }

  predicate AnswerChange(act: Activity, id: OpId, row: Row, next: Row)
    requires act.Executing? && act.stage.Answered?
  {
    var a := act.stage.answer;
    if id == act.id then
      var out := AnsweredRow(row, a);
      next == out || next == out.(observed := true)
    else
      !a.NoAck? && id in act.observed && row.kind == MODIFY && row.state == ACKNOWLEDGED
      && next == row.(observed := true)
  }

  predicate RecordChange(s: System, evidence: Evidence, row: Row, next: Row)
    requires s.activity.Checking?
  {
    var f := FindingOf(s.store.env, s.activity.row, s.activity.started, s.now, evidence);
    var checks := row.checks + [f.check];
    var checked := row.(checks := checks, nextCheckAt := f.nextCheckAt);
    if f.resolution.None? then next == checked
    else
      var r := Resolve(s.store.env, row, checks, f);
      r.Ok? && next == ResolvedRow(checked, r.value.0, r.value.1, f)
  }

  lemma StoredDb(s: System, commit: Commit, back: ReadBack)
    requires s.activity.Executing? && s.activity.stage.Answered?
    ensures var a := s.activity.stage.answer;
            var db := AfterStore(s, commit, back).store.db;
            || db == s.store.db
            || db == Outcome(s.store.db, s.activity.id, AnswerState(a), AnswerDisposition(a), AnswerReceipt(a),
                             AnswerReason(a), s.activity.observed)
  {
  }

  lemma StoreEffect(s: System, commit: Commit, back: ReadBack, id: OpId)
    requires Inv(s) && Enabled(s, StoreAnswer(commit, back)) && id in s.store.db.rows
    ensures var t := AfterStore(s, commit, back);
            && id in t.store.db.rows
            && (t.store.db.rows[id] == s.store.db.rows[id]
                || AnswerChange(s.activity, id, s.store.db.rows[id], t.store.db.rows[id]))
            && s.store.db.requirements <= t.store.db.requirements
  {
    StoredDb(s, commit, back);
  }

  lemma RefusedDb(s: System, commit: Commit, back: ReadBack)
    requires Inv(s) && Enabled(s, Refuse(commit, back))
    ensures s.activity.id in s.store.db.rows
    ensures var db := AfterRefuse(s, commit, back).store.db;
            || db == s.store.db
            || (&& s.store.db.rows[s.activity.id].state == ADMITTED
                && db == Outcome(s.store.db, s.activity.id, REFUSED, NOT_SENT, None, None, {}))
  {
  }

  lemma RefuseEffect(s: System, commit: Commit, back: ReadBack, id: OpId)
    requires Inv(s) && Enabled(s, Refuse(commit, back)) && id in s.store.db.rows
    ensures var t := AfterRefuse(s, commit, back);
            && id in t.store.db.rows
            && (t.store.db.rows[id] == s.store.db.rows[id]
                || (id == s.activity.id && s.store.db.rows[id].state == ADMITTED
                    && t.store.db.rows[id] == s.store.db.rows[id].(
                         state := REFUSED, disposition := NOT_SENT, receipt := None)))
            && s.store.db.requirements <= t.store.db.requirements
  {
    RefusedDb(s, commit, back);
  }

  lemma RecordEffect(s: System, evidence: Evidence, commit: Commit, id: OpId)
    requires Inv(s) && Enabled(s, RecordCheck(evidence, commit)) && id in s.store.db.rows
    ensures var t := AfterRecord(s, evidence, commit);
            && id in t.store.db.rows
            && (t.store.db.rows[id] == s.store.db.rows[id]
                || (id == s.activity.id && RecordChange(s, evidence, s.store.db.rows[id], t.store.db.rows[id])))
  {
    RecordReleases(s, evidence, commit);
  }

  lemma RecordReleases(s: System, evidence: Evidence, commit: Commit)
    requires Inv(s) && Enabled(s, RecordCheck(evidence, commit))
    ensures var t := AfterRecord(s, evidence, commit);
            var id := s.activity.id;
            var f := FindingOf(s.store.env, s.activity.row, s.activity.started, s.now, evidence);
            && id in s.store.db.rows && s.store.db.rows[id] == s.activity.row
            && (|| t.store.db == s.store.db
                || (f.resolution.None? && t.store.db.requirements == s.store.db.requirements
                    && id in t.store.db.rows
                    && t.store.db.rows == s.store.db.rows[id := t.store.db.rows[id]]
                    && RecordChange(s, evidence, s.activity.row, t.store.db.rows[id]))
                || (f.resolution.Some? && id in t.store.db.rows
                    && t.store.db.rows == s.store.db.rows[id := t.store.db.rows[id]]
                    && RecordChange(s, evidence, s.activity.row, t.store.db.rows[id])
                    && t.store.db.requirements ==
                         (set p | p in s.store.db.requirements && p.0 != id)))
  {
  }

  predicate Quiet(step: Step) {
    step.Tick? || step.Enter? || step.Prepare? || step.Call? || step.Answer?
    || step.BeginCheck? || step.LeaveCheck? || step.ReadFails? || step.Crash?
    || step.CloseStore? || step.LateCall?
  }

  lemma QuietEffect(s: System, step: Step)
    requires Enabled(s, step) && Quiet(step)
    ensures After(s, step).store.db == s.store.db
  {
  }

  lemma OpenEffect(s: System, epoch: Epoch, commit: Commit, id: OpId)
    requires id in s.store.db.rows
    ensures var t := AfterOpen(s, epoch, commit);
            && id in t.store.db.rows
            && (t.store.db.rows[id] == s.store.db.rows[id]
                || (s.store.db.rows[id].state == DISPATCHING
                    && t.store.db.rows[id] == s.store.db.rows[id].(
                         state := UNKNOWN_OUTCOME, disposition := POSSIBLY_SENT)))
            && s.store.db.requirements <= t.store.db.requirements
  {
  }

  lemma MarkEffect(s: System, merged: Request, commit: Commit, id: OpId)
    requires s.activity.Executing? && id in s.store.db.rows
    ensures var t := AfterMark(s, merged, commit);
            && id in t.store.db.rows
            && (t.store.db.rows[id] == s.store.db.rows[id]
                || (id == s.activity.id && s.store.db.rows[id].state == ADMITTED
                    && t.store.db.rows[id] == s.store.db.rows[id].(
                         state := DISPATCHING, disposition := IN_FLIGHT, marker := true,
                         merged := Some(merged))))
            && s.store.db.requirements == t.store.db.requirements
  {
  }

  lemma OtherEffect(s: System, step: Step, id: OpId)
    requires Enabled(s, step) && id in s.store.db.rows
    requires step.AdmitCaller? || step.ReviewRows? || step.SeeLateOrder?
    ensures id in After(s, step).store.db.rows
    ensures After(s, step).store.db.rows[id] == s.store.db.rows[id]
    ensures s.store.db.requirements <= After(s, step).store.db.requirements
  {
  }

  /** No step removes a row, and each changes rows in one of six ways. */
  lemma RowEffect(s: System, step: Step, id: OpId)
    requires Inv(s) && Enabled(s, step) && id in s.store.db.rows
    ensures id in After(s, step).store.db.rows
    ensures RowChange(s, step, id, s.store.db.rows[id], After(s, step).store.db.rows[id])
  {
    if Quiet(step) {
      QuietEffect(s, step);
    } else {
      match step
      case Open(epoch, commit) => OpenEffect(s, epoch, commit, id);
      case MarkRow(merged, commit) => MarkEffect(s, merged, commit, id);
      case StoreAnswer(commit, back) => StoreEffect(s, commit, back, id);
      case Refuse(commit, back) => RefuseEffect(s, commit, back, id);
      case RecordCheck(evidence, commit) => RecordEffect(s, evidence, commit, id);
      case _ => OtherEffect(s, step, id);
    }
  }

  lemma StoreAddsNoRow(s: System, commit: Commit, back: ReadBack)
    requires s.activity.Executing? && s.activity.stage.Answered? && s.activity.id in s.store.db.rows
    ensures AfterStore(s, commit, back).store.db.rows.Keys == s.store.db.rows.Keys
  {
    var a := s.activity.stage.answer;
    OutcomeRows(s.store.db, s.activity.id, AnswerState(a), AnswerDisposition(a), AnswerReceipt(a),
                AnswerReason(a), s.activity.observed);
  }

  lemma RefuseAddsNoRow(s: System, commit: Commit, back: ReadBack)
    requires s.activity.Executing? && s.activity.id in s.store.db.rows
    ensures AfterRefuse(s, commit, back).store.db.rows.Keys == s.store.db.rows.Keys
  {
    OutcomeRows(s.store.db, s.activity.id, REFUSED, NOT_SENT, None, None, {});
  }

  lemma OpenAddsNoRow(s: System, epoch: Epoch, commit: Commit)
    ensures AfterOpen(s, epoch, commit).store.db.rows.Keys == s.store.db.rows.Keys
  {
  }

  lemma MarkAddsNoRow(s: System, merged: Request, commit: Commit)
    requires s.activity.Executing? && s.activity.id in s.store.db.rows
    ensures AfterMark(s, merged, commit).store.db.rows.Keys == s.store.db.rows.Keys
  {
  }

  lemma PlainAddsNoRow(s: System, step: Step)
    requires Enabled(s, step) && (step.ReviewRows? || step.SeeLateOrder?)
    ensures After(s, step).store.db.rows == s.store.db.rows
  {
  }

  lemma OnlyAdmissionAddsRows(s: System, step: Step)
    requires Inv(s) && Enabled(s, step) && !step.AdmitCaller?
    ensures After(s, step).store.db.rows.Keys == s.store.db.rows.Keys
  {
    if Quiet(step) {
      QuietEffect(s, step);
    } else {
      match step
      case StoreAnswer(commit, back) => StoreAddsNoRow(s, commit, back);
      case Refuse(commit, back) => RefuseAddsNoRow(s, commit, back);
      case RecordCheck(evidence, commit) => RecordReleases(s, evidence, commit);
      case Open(epoch, commit) => OpenAddsNoRow(s, epoch, commit);
      case MarkRow(merged, commit) => MarkAddsNoRow(s, merged, commit);
      case _ => PlainAddsNoRow(s, step);
    }
  }

  /** A row comes into being only as the caller's own admission. */
  lemma NewRowIsAdmitted(s: System, step: Step, id: OpId)
    requires Inv(s) && Enabled(s, step)
    requires id !in s.store.db.rows && id in After(s, step).store.db.rows
    ensures step.AdmitCaller? && step.id == id
    ensures After(s, step).store.db.rows[id] == step.row && NewAdmission(step.row)
  {
    if !step.AdmitCaller? {
      OnlyAdmissionAddsRows(s, step);
    }
  }

  /** Requirements are only ever lifted by a recovery check, and only its own. */
  lemma RequirementEffect(s: System, step: Step, p: (OpId, Reason))
    requires Inv(s) && Enabled(s, step) && p in s.store.db.requirements
    ensures p !in After(s, step).store.db.requirements ==>
              && step.RecordCheck? && p.0 == s.activity.id && p.0 in s.store.db.rows
              && FindingOf(s.store.env, s.activity.row, s.activity.started, s.now,
                           step.evidence).resolution.Some?
              && p.0 in After(s, step).store.db.rows
              && RecordChange(s, step.evidence, s.store.db.rows[p.0], After(s, step).store.db.rows[p.0])
  {
    assert p.0 in s.store.db.rows;
    if Quiet(step) {
      QuietEffect(s, step);
    } else {
      match step
      case Open(epoch, commit) => OpenEffect(s, epoch, commit, p.0);
      case MarkRow(merged, commit) => MarkEffect(s, merged, commit, p.0);
      case StoreAnswer(commit, back) => StoreEffect(s, commit, back, p.0);
      case Refuse(commit, back) => RefuseEffect(s, commit, back, p.0);
      case RecordCheck(evidence, commit) => RecordReleases(s, evidence, commit);
      case _ => OtherEffect(s, step, p.0);
    }
  }

  lemma ChangeFollows(s: System, step: Step, id: OpId, row: Row, next: Row)
    requires RowSound(row) && RowChange(s, step, id, row, next)
    ensures RowFollows(row, next)
  {
  }

  lemma RowStep(s: System, step: Step, id: OpId)
    requires Inv(s) && Enabled(s, step) && id in s.store.db.rows
    ensures id in After(s, step).store.db.rows
    ensures RowFollows(s.store.db.rows[id], After(s, step).store.db.rows[id])
  {
    RowEffect(s, step, id);
    ChangeFollows(s, step, id, s.store.db.rows[id], After(s, step).store.db.rows[id]);
  }

  /** An admitted name stays bound to its request for ever, and never becomes fresh again. */
  lemma {:induction false} IdentityIsPermanent(s: System, steps: seq<Step>, id: OpId)
    requires Inv(s) && Runs(s, steps) && id in s.store.db.rows
    ensures id in Exec(s, steps).store.db.rows
    ensures RowFollows(s.store.db.rows[id], Exec(s, steps).store.db.rows[id])
  {
    if steps != [] {
      var n := |steps| - 1;
      IdentityIsPermanent(s, steps[..n], id);
      RunKeeps(s, steps[..n]);
      RowStep(Exec(s, steps[..n]), steps[n], id);
    }
  }

  /** Once its call has started, an operation is never recorded as refused or unsent. */
  lemma NeverUnderstated(env: Env, before: seq<Step>, call: Step, after: seq<Step>, id: OpId)
    requires Runs(Start(env), before + [call] + after) && Calls(call, id)
    ensures var j := Exec(Start(env), before + [call] + after).store.db;
            && id in j.rows && j.rows[id].marker
            && j.rows[id].state !in {ADMITTED, REFUSED}
            && j.rows[id].disposition != NOT_SENT
  {
    var mid := before + [call];
    RunsSplit(Start(env), mid, after);
    CallIsCounted(Start(env), before, call, id);
    CallsGrow(Exec(Start(env), mid), after, id);
    StartSatisfies(env);
    RunKeeps(Start(env), mid + after);
  }

  lemma CallIsCounted(s: System, before: seq<Step>, call: Step, id: OpId)
    requires Runs(s, before + [call]) && Calls(call, id)
    ensures id in Exec(s, before + [call]).calls
  {
    LastEnabled(s, before, call);
    CallsAdded(Exec(s, before), call);
  }

  lemma {:induction false} CallsGrow(s: System, steps: seq<Step>, id: OpId)
    requires Runs(s, steps) && id in s.calls
    ensures id in Exec(s, steps).calls
  {
    if steps != [] {
      var n := |steps| - 1;
      CallsGrow(s, steps[..n], id);
      CallsAdded(Exec(s, steps[..n]), steps[n]);
    }
  }

  // ------------------------------------------------------------ marks and calls

  /** Step `m` is the committed dispatch marker of operation `id`. */
  predicate MarkedAt(env: Env, steps: seq<Step>, m: nat, id: OpId)
    requires Runs(Start(env), steps)
  {
    && m < |steps| && steps[m].MarkRow? && steps[m].commit == Commits
    && Runs(Start(env), steps[..m]) && Runs(Start(env), steps[..m + 1])
    && var s := Exec(Start(env), steps[..m]);
       var t := Exec(Start(env), steps[..m + 1]);
       && s.activity.Executing? && s.activity.id == id
       && id in s.store.db.rows && !s.store.db.rows[id].marker
       && id in t.store.db.rows && t.store.db.rows[id].marker
       && t.store.db.rows[id].merged == Some(steps[m].merged)
  }

  lemma InFlightOrigin(s: System, step: Step, id: OpId)
    requires Inv(s) && Enabled(s, step) && InFlight(After(s, step), id) && !InFlight(s, id)
    ensures step.MarkRow? && step.commit == Commits
    ensures s.activity.Executing? && s.activity.id == id && id in s.store.db.rows
    ensures !s.store.db.rows[id].marker
    ensures After(s, step).store.db.rows[id].marker
    ensures After(s, step).store.db.rows[id].merged == Some(step.merged)
  {
    if !step.MarkRow? {
      NobodyElseMarks(s, step, id);
    }
  }

  lemma NobodyElseMarks(s: System, step: Step, id: OpId)
    requires Inv(s) && Enabled(s, step) && !step.MarkRow? && !InFlight(s, id)
    ensures !InFlight(After(s, step), id)
  {
  }

  /** Some thread, of the serving process or of one that closed its store, dispatches `id`. */
  predicate Underway(s: System, id: OpId) { InFlight(s, id) || id in s.orphans }

  lemma UnderwayOrigin(s: System, step: Step, id: OpId)
    requires Inv(s) && Enabled(s, step) && Underway(After(s, step), id) && !Underway(s, id)
    ensures InFlight(After(s, step), id) && !InFlight(s, id)
  {
    if id in After(s, step).orphans {
      OrphanComesFromFlight(s, step, id);
    }
  }

  lemma OrphanComesFromFlight(s: System, step: Step, id: OpId)
    requires Enabled(s, step) && id in After(s, step).orphans && id !in s.orphans
    ensures step.CloseStore? && InFlight(s, id)
  {
  }

  lemma MarkInPrefix(env: Env, steps: seq<Step>, n: nat, m: nat, id: OpId)
    requires n <= |steps| && Runs(Start(env), steps) && Runs(Start(env), steps[..n])
    requires MarkedAt(env, steps[..n], m, id)
    ensures MarkedAt(env, steps, m, id)
  {
    assert steps[..n][..m] == steps[..m] && steps[..n][..m + 1] == steps[..m + 1];
  }

  lemma {:induction false} MarkExists(env: Env, steps: seq<Step>, id: OpId) returns (m: nat)
    requires Runs(Start(env), steps)
    requires Underway(Exec(Start(env), steps), id)
    ensures MarkedAt(env, steps, m, id)
  {
    var n := |steps| - 1;
    var s := Exec(Start(env), steps[..n]);
    StartSatisfies(env);
    RunKeeps(Start(env), steps[..n]);
    if Underway(s, id) {
      m := MarkExists(env, steps[..n], id);
      MarkInPrefix(env, steps, n, m, id);
    } else {
      UnderwayOrigin(s, steps[n], id);
      InFlightOrigin(s, steps[n], id);
      m := n;
      assert steps[..n + 1] == steps;
    }
  }

  /** Every mutation call, timely or late, follows the one committed marker of its own operation. */
  lemma CallFollowsItsMark(env: Env, before: seq<Step>, call: Step, id: OpId)
    requires Runs(Start(env), before + [call]) && Calls(call, id)
    ensures Runs(Start(env), before)
    ensures exists m :: MarkedAt(env, before, m, id)
    ensures forall m, k :: MarkedAt(env, before, m, id) && MarkedAt(env, before, k, id) ==> m == k
  {
    RunsSplit(Start(env), before, [call]);
    assert (before + [call])[..|before|] == before;
    var m := MarkExists(env, before, id);
    forall m, k | MarkedAt(env, before, m, id) && MarkedAt(env, before, k, id)
      ensures m == k
    {
      if m < k {
        MarkOnce(env, before, m, k, id);
      } else if k < m {
        MarkOnce(env, before, k, m, id);
      }
    }
  }

  lemma MarkOnce(env: Env, steps: seq<Step>, m: nat, k: nat, id: OpId)
    requires Runs(Start(env), steps) && m < k
    requires MarkedAt(env, steps, m, id)
    ensures !MarkedAt(env, steps, k, id)
  {
    if MarkedAt(env, steps, k, id) {
      var first := steps[..m + 1];
      assert steps[..k] == first + steps[m + 1..k];
      StartSatisfies(env);
      RunKeeps(Start(env), first);
      RunsSplit(Start(env), first, steps[m + 1..k]);
      IdentityIsPermanent(Exec(Start(env), first), steps[m + 1..k], id);
    }
  }

  // ------------------------------------------------------------ truthful outcomes

  /** At step `k` the broker answered the call of `id`, while `id` held the mutex. */
  predicate AnsweredAt(s: System, steps: seq<Step>, k: nat, id: OpId, answer: Answer)
    requires Runs(s, steps)
  {
    && k < |steps| && Runs(s, steps[..k]) && steps[k] == Answer(answer)
    && var t := Exec(s, steps[..k]);
       t.activity.Executing? && t.activity.id == id && t.activity.stage == Called
  }

  lemma AnsweredInPrefix(s: System, steps: seq<Step>, n: nat, k: nat, id: OpId, answer: Answer)
    requires n <= |steps| && Runs(s, steps) && Runs(s, steps[..n]) && AnsweredAt(s, steps[..n], k, id, answer)
    ensures AnsweredAt(s, steps, k, id, answer)
  {
    assert steps[..n][..k] == steps[..k];
  }

  /** An answer that is about to be stored was given by the broker earlier in the run. */
  lemma {:induction false} AnswerOrigin(env: Env, steps: seq<Step>) returns (k: nat)
    requires Runs(Start(env), steps)
    requires var act := Exec(Start(env), steps).activity; act.Executing? && act.stage.Answered?
    ensures var act := Exec(Start(env), steps).activity;
            AnsweredAt(Start(env), steps, k, act.id, act.stage.answer)
  {
    var n := |steps| - 1;
    var s := Exec(Start(env), steps[..n]);
    if steps[n].Answer? {
      k := n;
    } else {
      KeepsAnswer(s, steps[n]);
      k := AnswerOrigin(env, steps[..n]);
      AnsweredInPrefix(Start(env), steps, n, k, s.activity.id, s.activity.stage.answer);
    }
  }

  lemma KeepsAnswer(s: System, step: Step)
    requires Enabled(s, step) && !step.Answer?
    requires After(s, step).activity.Executing? && After(s, step).activity.stage.Answered?
    ensures s.activity == After(s, step).activity
  {
  }

  /**
   A journal row says ACKNOWLEDGED only if the broker acknowledged the call of that very
   operation, in a step of the run in which the operation held the mutex; and it keeps
   what the broker said then.
   */
  lemma {:induction false} AcknowledgedWasAnswered(env: Env, steps: seq<Step>, id: OpId)
    returns (k: nat, answer: Answer)
    requires Runs(Start(env), steps)
    requires id in Exec(Start(env), steps).store.db.rows
    requires Exec(Start(env), steps).store.db.rows[id].state == ACKNOWLEDGED
    ensures AnsweredAt(Start(env), steps, k, id, answer) && !answer.NoAck?
    ensures var row := Exec(Start(env), steps).store.db.rows[id];
            && (answer.AckReadable? ==> row.receipt == Some(answer.receipt))
            && (answer.AckUnreadable? ==> row.receipt == answer.evidence)
  {
    var n := |steps| - 1;
    var s := Exec(Start(env), steps[..n]);
    StartSatisfies(env);
    RunKeeps(Start(env), steps[..n]);
    if id in s.store.db.rows && s.store.db.rows[id].state == ACKNOWLEDGED {
      k, answer := AcknowledgedWasAnswered(env, steps[..n], id);
      AcknowledgedKeepsReceipt(s, steps[n], id);
    } else {
      AcknowledgingStep(s, steps[n], id);
      answer := s.activity.stage.answer;
      k := AnswerOrigin(env, steps[..n]);
    }
    AnsweredInPrefix(Start(env), steps, n, k, id, answer);
  }

  /** Only storing an acknowledging answer of its own makes a row ACKNOWLEDGED. */
  lemma AcknowledgingStep(s: System, step: Step, id: OpId)
    requires Inv(s) && Enabled(s, step) && id in After(s, step).store.db.rows
    requires After(s, step).store.db.rows[id].state == ACKNOWLEDGED
    requires id in s.store.db.rows ==> s.store.db.rows[id].state != ACKNOWLEDGED
    ensures step.StoreAnswer? && s.activity.id == id
    ensures var a := s.activity.stage.answer;
            && !a.NoAck?
            && After(s, step).store.db.rows[id].receipt
               == if a.AckReadable? then Some(a.receipt) else a.evidence
  {
    if id in s.store.db.rows {
      RowEffect(s, step, id);
    } else {
      NewRowIsAdmitted(s, step, id);
    }
  }

  /** An acknowledged row keeps its receipt for as long as it is one. */
  lemma AcknowledgedKeepsReceipt(s: System, step: Step, id: OpId)
    requires Inv(s) && Enabled(s, step) && id in s.store.db.rows && id in After(s, step).store.db.rows
    requires s.store.db.rows[id].state == ACKNOWLEDGED && After(s, step).store.db.rows[id].state == ACKNOWLEDGED
    ensures After(s, step).store.db.rows[id].receipt == s.store.db.rows[id].receipt
  {
    RowEffect(s, step, id);
    assert RowSound(After(s, step).store.db.rows[id]) by {
      StepKeeps(s, step);
    }
  }

  /** A row that holds a receipt naming an order is bound to that very order, on every run. */
  lemma ReceiptNamesOrder(env: Env, steps: seq<Step>, id: OpId)
    requires Runs(Start(env), steps) && id in Exec(Start(env), steps).store.db.rows
    ensures var row := Exec(Start(env), steps).store.db.rows[id];
            row.receipt.Some? && row.receipt.value.orderId.Some? ==>
              row.brokerOrderId == row.receipt.value.orderId
  {
    StartSatisfies(env);
    RunKeeps(Start(env), steps);
  }

  // ------------------------------------------------------------ the gate

  /** Whether this operation's call may have happened with nobody knowing its outcome. */
  predicate Uncertain(s: System, id: OpId) {
    && id in s.store.db.rows
    && var row := s.store.db.rows[id];
       || (row.state == UNKNOWN_OUTCOME && !AssumedAbsent(row))
       || (row.state == DISPATCHING && !InFlight(s, id))
  }

  /**
   When a mutation call starts, no operation awaits review, no outcome is lost, and
   the caller's own row is the only one in flight.
   */
  lemma GateAtCall(env: Env, before: seq<Step>, id: OpId)
    requires Runs(Start(env), before + [Call(id)])
    ensures Runs(Start(env), before)
    ensures var s := Exec(Start(env), before);
            && GateHeld(s)
            && (forall a :: !Uncertain(s, a))
            && (forall a | a in s.store.db.rows :: s.store.db.rows[a].state == DISPATCHING <==> a == id)
  {
    RunsSplit(Start(env), before, [Call(id)]);
    assert (before + [Call(id)])[..|before|] == before;
    StartSatisfies(env);
    RunKeeps(Start(env), before);
    var s := Exec(Start(env), before);
    forall a
      ensures !Uncertain(s, a)
    {
      CallNeedsCertainty(s, id, a);
    }
  }

  lemma CallNeedsCertainty(s: System, id: OpId, a: OpId)
    requires Inv(s) && Enabled(s, Call(id))
    ensures !Uncertain(s, a)
  {
    assert InFlight(s, id) && GateHeld(s);
  }

  /**
   A call that stops being in flight is either durably acknowledged or uncertain,
   whatever happened to its answer, its commit or its process.
   */
  lemma FlightEnds(s: System, step: Step, id: OpId)
    requires Inv(s) && Enabled(s, step)
    requires InFlight(s, id) && id in s.calls && !InFlight(After(s, step), id)
    ensures id in After(s, step).store.db.rows
    ensures After(s, step).store.db.rows[id].state == ACKNOWLEDGED || Uncertain(After(s, step), id)
  {
    RowEffect(s, step, id);
  }

  /** Behind a shut gate nobody holds a fresh marker, so nobody calls and no thread is left behind. */
  lemma ShutGateStep(s: System, step: Step)
    requires Inv(s) && Enabled(s, step) && !InStage(s, {Marked})
    ensures !step.Call? && After(s, step).orphans <= s.orphans
    ensures step.LateCall? ==> step.id in s.orphans
  {
  }

  lemma UncertaintyShuts(s: System, id: OpId)
    requires Inv(s) && Uncertain(s, id)
    ensures !InStage(s, {Marked})
  {
    if InStage(s, {Marked}) {
      CallNeedsCertainty(s, s.activity.id, id);
    }
  }

  lemma UncertaintyStep(s: System, step: Step, id: OpId)
    requires Inv(s) && Enabled(s, step) && Uncertain(s, id)
    requires id in After(s, step).store.db.rows && After(s, step).store.db.rows[id].recovery.None?
    ensures Uncertain(After(s, step), id)
  {
    UncertaintyShuts(s, id);
    RowEffect(s, step, id);
    if InFlight(After(s, step), id) && !InFlight(s, id) {
      InFlightOrigin(s, step, id);
    }
  }

  /**
   From the moment an outcome is uncertain, across crashes and restarts, no process
   starts a mutation call for any operation until a recovery check resolves that very
   operation. The only calls still possible are those of threads that had already
   outlived their closed store, and nobody joins them.
   */
  lemma {:induction false} QuarantineUntilResolved(s: System, steps: seq<Step>, id: OpId)
    requires Inv(s) && Runs(s, steps) && Uncertain(s, id)
    requires id in Exec(s, steps).store.db.rows && Exec(s, steps).store.db.rows[id].recovery.None?
    ensures Uncertain(Exec(s, steps), id)
    ensures OnlyLate(steps, s.orphans) && Exec(s, steps).orphans <= s.orphans
  {
    if steps != [] {
      var n := |steps| - 1;
      var t := Exec(s, steps[..n]);
      RunKeeps(s, steps[..n]);
      IdentityIsPermanent(s, steps[..n], id);
      RowStep(t, steps[n], id);
      QuarantineUntilResolved(s, steps[..n], id);
      UncertaintyStep(t, steps[n], id);
      UncertaintyShuts(t, id);
      ShutGateStep(t, steps[n]);
      NoMoreCalls(steps, s.orphans);
    }
  }

  lemma NoMoreCalls(steps: seq<Step>, late: set<OpId>)
    requires steps != [] && !steps[|steps| - 1].Call? && OnlyLate(steps[..|steps| - 1], late)
    requires steps[|steps| - 1].LateCall? ==> steps[|steps| - 1].id in late
    ensures OnlyLate(steps, late)
  {
    forall k | 0 <= k < |steps| - 1
      ensures !steps[k].Call? && (steps[k].LateCall? ==> steps[k].id in late)
    {
      assert steps[k] == steps[..|steps| - 1][k];
    }
  }

  /** A thread's mark stays uncertain from the moment its store closes until recovery resolves it. */
  predicate Quarantined(s: System, id: OpId) {
    id in s.store.db.rows && (s.store.db.rows[id].recovery.None? ==> Uncertain(s, id))
  }

  lemma LeftBehind(s: System, step: Step, id: OpId)
    requires Inv(s) && Enabled(s, step) && step.CloseStore? && InFlight(s, id)
    ensures Quarantined(After(s, step), id)
  {
  }

  lemma QuarantineStep(s: System, step: Step, id: OpId)
    requires Inv(s) && Enabled(s, step) && Quarantined(s, id)
    ensures Quarantined(After(s, step), id)
  {
    RowStep(s, step, id);
    if After(s, step).store.db.rows[id].recovery.None? {
      UncertaintyStep(s, step, id);
    }
  }

  lemma {:induction false} OrphansQuarantined(env: Env, steps: seq<Step>, id: OpId)
    requires Runs(Start(env), steps) && id in Exec(Start(env), steps).orphans
    ensures Quarantined(Exec(Start(env), steps), id)
  {
    var n := |steps| - 1;
    var s := Exec(Start(env), steps[..n]);
    StartSatisfies(env);
    RunKeeps(Start(env), steps[..n]);
    if id in s.orphans {
      OrphansQuarantined(env, steps[..n], id);
      QuarantineStep(s, steps[n], id);
    } else {
      OrphanComesFromFlight(s, steps[n], id);
      LeftBehind(s, steps[n], id);
    }
  }

  /**
   A call made by a thread that outlived its closed store finds its row marked and,
   unless a recovery check has resolved that row already, still uncertain: no process
   can start a call of its own beside it.
   */
  lemma LateCallIsQuarantined(env: Env, before: seq<Step>, id: OpId)
    requires Runs(Start(env), before + [LateCall(id)])
    ensures Runs(Start(env), before)
    ensures var s := Exec(Start(env), before);
            && id in s.store.db.rows && s.store.db.rows[id].marker
            && (s.store.db.rows[id].recovery.None? ==>
                  Uncertain(s, id) && forall a :: !Enabled(s, Call(a)))
  {
    LastEnabled(Start(env), before, LateCall(id));
    StartSatisfies(env);
    RunKeeps(Start(env), before);
    OrphansQuarantined(env, before, id);
    NoCallBeside(Exec(Start(env), before), id);
  }

  lemma NoCallBeside(s: System, id: OpId)
    requires Inv(s) && Quarantined(s, id)
    ensures s.store.db.rows[id].recovery.None? ==> Uncertain(s, id) && forall a :: !Enabled(s, Call(a))
  {
    if Uncertain(s, id) {
      UncertaintyShuts(s, id);
    }
  }

  // ------------------------------------------------------------ gate release

  /** The only facts that may release an operation's review requirement. */
  predicate Justified(env: Env, before: Row, after: Row) {
    match after.recovery
    case None => false
    case Some(NOT_DISPATCHED) =>
      env == REAL && before.state == ADMITTED && !after.marker && after.state == REFUSED
    case Some(ASSUMED_ABSENT) =>
      && env == SIMULATE && after.kind == PLACE && after.tag.Some? && after.brokerOrderId.None?
      && Negatives(after.checks) >= 5 && !EverSeen(after.checks)
      && after.state == UNKNOWN_OUTCOME && before.recovery.None?
    case Some(_) =>
      after.receipt.Some? && after.facts.Some? && after.disposition == BROKER_ACCOUNTED
  }

  lemma {:induction false} SeenGrows(checks: seq<Check>, c: Check)
    ensures EverSeen(checks + [c]) <==> EverSeen(checks) || c.seen
    ensures Negatives(checks + [c]) == Negatives(checks) + (if c.outcome == NOT_FOUND then 1 else 0)
  {
    assert (checks + [c])[..|checks|] == checks;
    if EverSeen(checks) {
      var d :| d in checks && d.seen;
      assert d in checks + [c];
    }
    if c.seen {
      assert c in checks + [c];
    }
  }

  /** A requirement disappears only in a recovery check of its own operation, with cause. */
  lemma ReleaseIsJustified(s: System, step: Step, p: (OpId, Reason))
    requires Inv(s) && Enabled(s, step)
    requires p in s.store.db.requirements && p !in After(s, step).store.db.requirements
    ensures step.RecordCheck? && s.activity.id == p.0
    ensures p.0 in s.store.db.rows && p.0 in After(s, step).store.db.rows
    ensures Justified(s.store.env, s.store.db.rows[p.0], After(s, step).store.db.rows[p.0])
    ensures !LiveRow(s, s.store.db.rows[p.0])
  {
    RequirementEffect(s, step, p);
    assert ActivitySound(s) && RowSound(s.activity.row);
    var f := FindingOf(s.store.env, s.activity.row, s.activity.started, s.now, step.evidence);
    SeenGrows(s.activity.row.checks, f.check);
  }

  /** Recovery only ever writes operations whose executor is gone or has finished. */
  lemma LiveWorkUntouched(s: System, evidence: Evidence, commit: Commit)
    requires Inv(s) && Enabled(s, RecordCheck(evidence, commit))
    ensures s.activity.id in s.store.db.rows
    ensures !LiveRow(s, s.store.db.rows[s.activity.id]) && s.activity.id !in s.queued
    ensures forall a | a in s.store.db.rows && LiveRow(s, s.store.db.rows[a]) ::
              a in After(s, RecordCheck(evidence, commit)).store.db.rows
              && After(s, RecordCheck(evidence, commit)).store.db.rows[a] == s.store.db.rows[a]
  {
  }

  /** A check that saw an order for an assumed-absent operation has already shut the gate. */
  lemma LateSightingBlocks(s: System, evidence: Evidence, commit: Commit)
    requires Inv(s) && Enabled(s, RecordCheck(evidence, commit)) && s.store.env == SIMULATE
    requires AssumedAbsent(s.activity.row) && evidence.Seen()
    ensures (s.activity.id, LATE_ORDER_FOUND) in s.store.db.requirements
    ensures forall a :: !Enabled(s, Call(a))
  {
  }

  lemma LateStep(s: System, step: Step, id: OpId)
    requires Inv(s) && Enabled(s, step) && id in s.store.db.rows && s.store.env == SIMULATE
    requires AssumedAbsent(s.store.db.rows[id]) && (id, LATE_ORDER_FOUND) in s.store.db.requirements
    ensures id in After(s, step).store.db.rows
    ensures var row := After(s, step).store.db.rows[id];
            || (AssumedAbsent(row) && (id, LATE_ORDER_FOUND) in After(s, step).store.db.requirements)
            || (row.recovery == Some(LATE_BROKER_ORDER_FOUND) && row.receipt.Some? && row.facts.Some?)
  {
    RowEffect(s, step, id);
    RequirementEffect(s, step, (id, LATE_ORDER_FOUND));
  }

  lemma RecoveryStays(s: System, step: Step, id: OpId)
    requires Inv(s) && Enabled(s, step) && id in s.store.db.rows
    requires s.store.db.rows[id].recovery.Some? && !AssumedAbsent(s.store.db.rows[id])
    ensures id in After(s, step).store.db.rows && !AssumedAbsent(After(s, step).store.db.rows[id])
  {
    RowEffect(s, step, id);
  }

  /** An order seen after assumed absence shuts the gate until it is accounted for. */
  lemma {:induction false} LateOrderReblocks(s: System, steps: seq<Step>, id: OpId)
    requires Inv(s) && Runs(s, steps) && id in s.store.db.rows && s.store.env == SIMULATE
    requires AssumedAbsent(s.store.db.rows[id]) && (id, LATE_ORDER_FOUND) in s.store.db.requirements
    requires id in Exec(s, steps).store.db.rows && AssumedAbsent(Exec(s, steps).store.db.rows[id])
    ensures (id, LATE_ORDER_FOUND) in Exec(s, steps).store.db.requirements
    ensures OnlyLate(steps, s.orphans) && Exec(s, steps).orphans <= s.orphans
  {
    if steps != [] {
      var n := |steps| - 1;
      var t := Exec(s, steps[..n]);
      RunKeeps(s, steps[..n]);
      IdentityIsPermanent(s, steps[..n], id);
      if !AssumedAbsent(t.store.db.rows[id]) {
        RecoveryStays(t, steps[n], id);
        assert false;
      }
      LateOrderReblocks(s, steps[..n], id);
      LateStep(t, steps[n], id);
      assert !InStage(t, {Marked});
      ShutGateStep(t, steps[n]);
      NoMoreCalls(steps, s.orphans);
    }
  }

  // ------------------------------------------------------------ modification guards

  /** The order shows the quantity and price of the request; REAL asks only for those it has. */
  predicate Shows(env: Env, order: BrokerOrder, wanted: Request) {
    && (if wanted.qty.Some? then order.qty == wanted.qty else env == REAL)
    && (if wanted.price.Some? then order.price == wanted.price else env == REAL)
  }

  /**
   A modification that adds or restores exposure is called only while the order just read
   shows what every earlier acknowledged, unobserved modification of it asked for, and
   exactly those are taken as observed.
   */
  lemma ChainedModificationsAgree(env: Env, before: seq<Step>, id: OpId, g: OpId)
    requires Runs(Start(env), before + [Call(id)])
    ensures Runs(Start(env), before)
    ensures var s := Exec(Start(env), before);
            && s.activity.Executing? && id in s.store.db.rows
            && var row := s.store.db.rows[id];
               row.kind == MODIFY && (env == SIMULATE || row.request.op in {"NORMAL", "ENABLE"}) ==>
                 && (g in s.activity.observed <==>
                       && g in s.store.db.rows && IsGuard(s.store.db.rows[g])
                       && s.store.db.rows[g].account == row.account
                       && s.store.db.rows[g].request.orderId == row.request.orderId)
                 && (g in s.activity.observed ==>
                       && s.store.db.rows[g].merged.Some?
                       && Shows(env, s.activity.order, s.store.db.rows[g].merged.value))
  {
    LastEnabled(Start(env), before, Call(id));
    StartSatisfies(env);
    RunKeeps(Start(env), before);
    assert ActivitySound(Exec(Start(env), before));
  }

  predicate IsGuard(row: Row) {
    row.kind == MODIFY && row.state == ACKNOWLEDGED && !row.observed
  }

  /**
   A guard is retired outside recovery only by the very transaction that stores the
   acknowledgement of a successor that saw it; unknown and refused successors keep it.
   */
  lemma GuardOutlivesFailure(s: System, step: Step, g: OpId)
    requires Inv(s) && Enabled(s, step)
    requires g in s.store.db.rows && IsGuard(s.store.db.rows[g])
    requires !(step.RecordCheck? && s.activity.id == g)
    ensures g in After(s, step).store.db.rows
    ensures IsGuard(After(s, step).store.db.rows[g])
            || (&& step.StoreAnswer? && !s.activity.stage.answer.NoAck?
                && g in s.activity.observed
                && s.activity.id in After(s, step).store.db.rows
                && After(s, step).store.db.rows[s.activity.id].state == ACKNOWLEDGED)
  {
    RowEffect(s, step, g);
    if step.StoreAnswer? && After(s, step).store.db != s.store.db {
      AnswerStored(s, step.commit, step.back);
    }
  }

  lemma AnswerStored(s: System, commit: Commit, back: ReadBack)
    requires Inv(s) && Enabled(s, StoreAnswer(commit, back))
    requires AfterStore(s, commit, back).store.db != s.store.db
    ensures var t := AfterStore(s, commit, back);
            && s.activity.id in t.store.db.rows
            && t.store.db.rows[s.activity.id].state == AnswerState(s.activity.stage.answer)
  {
  }
}
