/**
 What a resolved operation's facts rest on, over every run: one observation that the broker
 really listed for it, with quantities that balance.
 */
module RecoveryEvidence {
  import opened Wrappers
  import opened Journal
  import opened ExecutionStore
  import opened RecoveryCheck
  import opened Lifecycle
  import opened LifecycleInvariant
  import opened LifecycleSafety
  import opened RecoveryAccounting

  /** A check's evidence was gathered from broker queries about the row it looked at. */
  ghost predicate Gathered(s: System, step: Step) {
    step.RecordCheck? && s.activity.Checking? ==>
      exists report :: step.evidence == Gather(s.store.env, s.activity.row, report)
  }

  ghost predicate AllGathered(s: System, steps: seq<Step>)
    requires Runs(s, steps)
  {
    forall k | 0 <= k < |steps| && Runs(s, steps[..k]) :: Gathered(Exec(s, steps[..k]), steps[k])
  }

  /** The row's receipt and facts are those of this observation of its order, and balance. */
  predicate RestsOn(row: Row, o: Observation) {
    && row.receipt == Some(Receipt(Some(o.orderId), o.status)) && row.brokerOrderId == Some(o.orderId)
    && Correlated(row, o)
    && row.facts.Some?
    && var facts := row.facts.value;
       && o.status == Some(facts.status) && o.filled == Some(facts.filled) && o.average == Some(facts.average)
       && o.qty.Some? && 0.0 <= facts.filled <= o.qty.value
       && facts.remaining == if facts.status in TERMINAL_BROKER then 0.0 else o.qty.value - facts.filled
  }

  /** An accounted check gathered an observation that carries everything it concludes. */
  lemma AccountedFrom(env: Env, row: Row, report: Report) returns (o: Observation)
    requires Gather(env, row, report).MatchAccounted?
    ensures report.Observed? && o in report.observations && Correlated(row, o)
    ensures var e := Gather(env, row, report);
            && e.receipt == Receipt(Some(o.orderId), o.status)
            && (row.brokerOrderId.Some? ==> row.brokerOrderId == Some(o.orderId))
            && o.status == Some(e.facts.status) && o.filled == Some(e.facts.filled)
            && o.average == Some(e.facts.average)
            && o.qty.Some? && 0.0 <= e.facts.filled <= o.qty.value
            && e.facts.remaining == if e.facts.status in TERMINAL_BROKER then 0.0 else o.qty.value - e.facts.filled
  {
    var matches := Matches(row, report.observations);
    o := matches[0];
    MatchesExact(row, report.observations);
    AcceptedIsAccounted(env, row, matches, report.held);
    assert o in matches;
  }

  /** A resolution with broker facts keeps the broker identity and rests on an observation. */
  lemma ResolvedRests(env: Env, row: Row, started: real, completed: real, report: Report, next: Row)
    returns (o: Observation)
    requires var e := Gather(env, row, report);
             var f := FindingOf(env, row, started, completed, e);
             && f.facts.Some? && f.resolution.Some?
             && exists state, disposition :: next == ResolvedRow(
                  row.(checks := row.checks + [f.check], nextCheckAt := f.nextCheckAt), state, disposition, f)
    ensures RestsOn(next, o) && report.Observed? && o in report.observations && Correlated(row, o)
    ensures row.brokerOrderId.Some? ==> next.brokerOrderId == row.brokerOrderId
  {
    o := AccountedFrom(env, row, report);
  }

  /** How a row comes to have facts: it kept them, or this step recorded an accounted check. */
  lemma FactsChange(s: System, step: Step, id: OpId, row: Row, next: Row)
    requires Inv(s) && Enabled(s, step) && id in s.store.db.rows && s.store.db.rows[id] == row
    requires RowChange(s, step, id, row, next) && Settled(row)
    ensures Settled(next)
    ensures next.facts.Some? ==> KeepsFacts(row, next) || Records(s, step, id, row, next)
  {
    if step.RecordCheck? {
      RecordedFacts(s, step, id, row, next);
    } else {
      OtherFacts(s, step, id, row, next);
    }
  }

  lemma OtherFacts(s: System, step: Step, id: OpId, row: Row, next: Row)
    requires Inv(s) && Enabled(s, step) && id in s.store.db.rows && s.store.db.rows[id] == row
    requires RowChange(s, step, id, row, next) && Settled(row) && !step.RecordCheck?
    ensures Settled(next) && (next.facts.Some? ==> KeepsFacts(row, next))
  {
  }

  lemma RecordedFacts(s: System, step: Step, id: OpId, row: Row, next: Row)
    requires Inv(s) && Enabled(s, step) && id in s.store.db.rows && s.store.db.rows[id] == row
    requires RowChange(s, step, id, row, next) && Settled(row) && step.RecordCheck?
    ensures Settled(next)
    ensures next.facts.Some? ==> KeepsFacts(row, next) || Records(s, step, id, row, next)
  {
  }

  predicate KeepsFacts(row: Row, next: Row) {
    && row.facts == next.facts && row.receipt == next.receipt && row.brokerOrderId == next.brokerOrderId
    && SameIdentity(row, next)
  }

  predicate Settled(row: Row) {
    row.facts.Some? ==> row.state in {RECONCILED, TERMINAL_ACCOUNTED}
  }

  predicate Records(s: System, step: Step, id: OpId, row: Row, next: Row) {
    && step.RecordCheck? && s.activity.Checking? && s.activity.id == id && s.activity.row == row
    && var f := FindingOf(s.store.env, row, s.activity.started, s.now, step.evidence);
       && f.resolution.Some? && f.facts.Some?
       && exists state, disposition :: next == ResolvedRow(
            row.(checks := row.checks + [f.check], nextCheckAt := f.nextCheckAt), state, disposition, f)
  }

  /**
   Every release of the gate with broker facts rests on an observation the broker listed for that
   operation: its identity is the one already recorded, if any, and its quantities balance.
   */
  lemma ReleaseRestsOnObservation(s: System, step: Step, p: (OpId, Reason)) returns (o: Observation)
    requires Inv(s) && Enabled(s, step) && Gathered(s, step)
    requires p in s.store.db.requirements && p !in After(s, step).store.db.requirements
    requires p.0 in After(s, step).store.db.rows && After(s, step).store.db.rows[p.0].facts.Some?
    ensures p.0 in s.store.db.rows
    ensures var row, next := s.store.db.rows[p.0], After(s, step).store.db.rows[p.0];
            && RestsOn(next, o) && Correlated(row, o)
            && (row.brokerOrderId.Some? ==> next.brokerOrderId == row.brokerOrderId)
  {
    RequirementEffect(s, step, p);
    var row, next := s.store.db.rows[p.0], After(s, step).store.db.rows[p.0];
    assert s.activity.row == row;
    o := RecordsRest(s, step, p.0, row, next);
  }

  lemma RecordsRest(s: System, step: Step, id: OpId, row: Row, next: Row) returns (o: Observation)
    requires Gathered(s, step) && Records(s, step, id, row, next)
    ensures RestsOn(next, o) && Correlated(row, o)
    ensures row.brokerOrderId.Some? ==> next.brokerOrderId == row.brokerOrderId
  {
    var report :| step.evidence == Gather(s.store.env, row, report);
    o := ResolvedRests(s.store.env, row, s.activity.started, s.now, report, next);
  }

  ghost predicate Founded(row: Row) {
    Settled(row) && (row.facts.Some? ==> exists o :: RestsOn(row, o))
  }

  lemma FoundedStep(s: System, step: Step, id: OpId)
    requires Inv(s) && Enabled(s, step) && Gathered(s, step)
    requires id in s.store.db.rows && Founded(s.store.db.rows[id])
    ensures id in After(s, step).store.db.rows && Founded(After(s, step).store.db.rows[id])
  {
    RowEffect(s, step, id);
    FoundedChange(s, step, id, s.store.db.rows[id], After(s, step).store.db.rows[id]);
  }

  lemma FoundedChange(s: System, step: Step, id: OpId, row: Row, next: Row)
    requires Inv(s) && Enabled(s, step) && Gathered(s, step) && id in s.store.db.rows && s.store.db.rows[id] == row
    requires RowChange(s, step, id, row, next) && Founded(row)
    ensures Founded(next)
  {
    FactsChange(s, step, id, row, next);
    if next.facts.Some? {
      if Records(s, step, id, row, next) {
        var o := RecordsRest(s, step, id, row, next);
      } else {
        var o :| RestsOn(row, o);
        assert RestsOn(next, o);
      }
    }
  }

  /**
   In every run whose checks gather their evidence from the broker's lists, each row that holds
   facts rests on one observation of its own order, for ever.
   */
  lemma {:induction false} FactsRestOnObservations(env: Env, steps: seq<Step>, id: OpId)
    requires Runs(Start(env), steps) && AllGathered(Start(env), steps)
    requires id in Exec(Start(env), steps).store.db.rows
    ensures var row := Exec(Start(env), steps).store.db.rows[id];
            Settled(row) && (row.facts.Some? ==> exists o :: RestsOn(row, o))
  {
    var n := |steps| - 1;
    var s := Exec(Start(env), steps[..n]);
    StartSatisfies(env);
    RunKeeps(Start(env), steps[..n]);
    GatheredPrefix(Start(env), steps, n);
    if id in s.store.db.rows {
      FactsRestOnObservations(env, steps[..n], id);
      FoundedStep(s, steps[n], id);
    } else {
      NewRowIsAdmitted(s, steps[n], id);
    }
  }

  lemma GatheredPrefix(s: System, steps: seq<Step>, n: nat)
    requires Runs(s, steps) && AllGathered(s, steps) && n < |steps| && Runs(s, steps[..n])
    ensures AllGathered(s, steps[..n]) && Gathered(Exec(s, steps[..n]), steps[n])
  {
    forall k | 0 <= k < n && Runs(s, steps[..n][..k])
      ensures Gathered(Exec(s, steps[..n][..k]), steps[..n][k])
    {
      assert steps[..n][..k] == steps[..k] && steps[..n][k] == steps[k];
    }
  }
}
