/**
 Which fields an acknowledged REAL modification leaves behind as a guard, and what
 that means for the next modification of the same order.
 */
module ModificationGuards {
  import opened Wrappers
  import opened Journal
  import opened ExecutionStore
  import opened RecoveryCheck
  import opened Lifecycle
  import opened LifecycleInvariant
  import opened LifecycleSafety

  // ------------------------------------------------------------ what a guard asks for

  /** An exposing modification guards exactly the order it asked the broker for. */
  lemma ExposingGuardMeaning(row: Row, before: BrokerOrder, now: BrokerOrder)
    requires row.kind == MODIFY && Exposing(REAL, row)
    ensures var qty, price := Coalesce(row.request.qty, before.qty), Coalesce(row.request.price, before.price);
            Agrees(REAL, MergedRequest(REAL, row, before), now)
            <==> (qty.None? || now.qty == qty) && (price.None? || now.price == price)
  {
  }

  /**
   Any other modification guards the quantity and price it named, and zero for each one it
   did not name, although the broker never set that field to zero.
   */
  lemma ReducingGuardMeaning(row: Row, before: BrokerOrder, now: BrokerOrder)
    requires row.kind == MODIFY && !Exposing(REAL, row)
    ensures Agrees(REAL, MergedRequest(REAL, row, before), now)
            <==> now.qty == Coalesce(row.request.qty, Some(0.0)) && now.price == Coalesce(row.request.price, Some(0.0))
  {
  }

  /**
   So for an order with a quantity and a price, a DISABLE or DELETE leaves it changeable exactly
   when its caller named the quantity and the price that the broker goes on showing.
   */
  lemma ReducingLeavesChangeable(row: Row, before: BrokerOrder, now: BrokerOrder)
    requires row.kind == MODIFY && !Exposing(REAL, row)
    requires now.qty.Some? && now.qty.value > 0.0 && now.price.Some? && now.price.value > 0.0
    ensures Agrees(REAL, MergedRequest(REAL, row, before), now)
            <==> row.request.qty == now.qty && row.request.price == now.price
  {
    ReducingGuardMeaning(row, before, now);
  }

  /** Every stored marker holds the request its operation was merged into, on every run. */
  lemma {:induction false} MarkedRowsAreMerged(env: Env, steps: seq<Step>, id: OpId)
    requires Runs(Start(env), steps)
    requires id in Exec(Start(env), steps).store.db.rows && Exec(Start(env), steps).store.db.rows[id].merged.Some?
    ensures var row := Exec(Start(env), steps).store.db.rows[id];
            exists order :: row.merged.value == MergedRequest(env, row, order)
  {
    var n := |steps| - 1;
    var s := Exec(Start(env), steps[..n]);
    StartSatisfies(env);
    RunKeeps(Start(env), steps[..n]);
    RunEnvironment(env, steps[..n]);
    if id in s.store.db.rows {
      if s.store.db.rows[id].merged.Some? {
        MarkedRowsAreMerged(env, steps[..n], id);
      }
      MergedStep(s, steps[n], id);
    } else {
      NewRowIsAdmitted(s, steps[n], id);
    }
  }

  lemma MergedStep(s: System, step: Step, id: OpId)
    requires Inv(s) && Enabled(s, step) && id in s.store.db.rows
    requires var row := s.store.db.rows[id];
             row.merged.Some? ==> exists order :: row.merged.value == MergedRequest(s.store.env, row, order)
    ensures id in After(s, step).store.db.rows
    ensures var row := After(s, step).store.db.rows[id];
            row.merged.Some? ==> exists order :: row.merged.value == MergedRequest(s.store.env, row, order)
  {
    RowEffect(s, step, id);
    var row, next := s.store.db.rows[id], After(s, step).store.db.rows[id];
    MergedChange(s, step, id, row, next);
    if row.merged.Some? {
      var order :| row.merged.value == MergedRequest(s.store.env, row, order);
      assert MergedRequest(s.store.env, next, order) == MergedRequest(s.store.env, row, order);
    } else if next.merged.Some? {
      assert next.merged.value == MergedRequest(s.store.env, next, s.activity.order);
    }
  }

  lemma MergedChange(s: System, step: Step, id: OpId, row: Row, next: Row)
    requires RowSound(row) && Enabled(s, step) && id in s.store.db.rows && s.store.db.rows[id] == row
    requires RowChange(s, step, id, row, next)
    ensures next.kind == row.kind && next.request == row.request
    ensures row.merged.Some? ==> next.merged == row.merged
    ensures row.merged.None? && next.merged.Some? ==>
              s.activity.Executing? && next.merged.value == MergedRequest(s.store.env, row, s.activity.order)
  {
  }

  lemma {:induction false} RunEnvironment(env: Env, steps: seq<Step>)
    requires Runs(Start(env), steps)
    ensures Exec(Start(env), steps).store.env == env
  {
    if steps != [] {
      var n := |steps| - 1;
      RunEnvironment(env, steps[..n]);
      EnvironmentFixed(Exec(Start(env), steps[..n]), steps[n]);
    }
  }

  /** The request differs from the caller's in nothing but a quantity or price the caller left out. */
  predicate SentFor(env: Env, row: Row, sent: Request) {
    && sent.(qty := row.request.qty, price := row.request.price) == row.request
    && (row.request.qty.Some? ==> sent.qty == row.request.qty)
    && (row.request.price.Some? ==> sent.price == row.request.price)
    && (row.kind in {PLACE, PLACE_COMBO} ==> sent == row.request)
    && (row.kind !in {PLACE, PLACE_COMBO} && !Exposing(env, row) ==>
          && (row.request.qty.None? ==> sent.qty == Some(0.0))
          && (row.request.price.None? ==> sent.price == Some(0.0)))
  }

  /** A modification that adds or restores exposure fills what its caller left out from the order it read. */
  lemma MarkedAsRead(s: System, merged: Request, commit: Commit)
    requires Inv(s) && Enabled(s, MarkRow(merged, commit))
    ensures var row := s.store.db.rows[s.activity.id];
            && SentFor(s.store.env, row, merged)
            && (Exposing(s.store.env, row) ==>
                  && (row.request.qty.None? ==> merged.qty == s.activity.order.qty)
                  && (row.request.price.None? ==> merged.price == s.activity.order.price))
  {
  }

  /**
   On every run, what is dispatched is what the caller named: a placement exactly as it was
   admitted, a change with every field its caller gave.
   */
  lemma SentAsNamed(env: Env, steps: seq<Step>, id: OpId)
    requires Runs(Start(env), steps)
    requires id in Exec(Start(env), steps).store.db.rows && Exec(Start(env), steps).store.db.rows[id].merged.Some?
    ensures var row := Exec(Start(env), steps).store.db.rows[id]; SentFor(env, row, row.merged.value)
  {
    MarkedRowsAreMerged(env, steps, id);
    var row := Exec(Start(env), steps).store.db.rows[id];
    var order :| row.merged.value == MergedRequest(env, row, order);
  }

  // ------------------------------------------------------------ a guard the broker does not show

  /** A cleanly acknowledged modification of one order, waiting to be shown by the broker. */
  predicate Standing(s: System, g: OpId, account: nat, orderId: nat) {
    && s.store.env == REAL
    && g in s.store.db.rows && !Pending(s.store.db, g)
    && var row := s.store.db.rows[g];
       && IsGuard(row) && row.recovery.None? && row.merged.Some?
       && row.account == account && row.request.orderId == orderId
  }

  /** Nobody inside the mutex has seen the broker show this guard. */
  predicate Unseen(s: System, g: OpId) {
    s.activity.Executing? ==> g !in s.activity.observed
  }

  /** The step reads the order for an exposing modification of it. */
  predicate ReadsOrder(s: System, step: Step, account: nat, orderId: nat) {
    && step.Prepare? && s.activity.Executing? && s.activity.id in s.store.db.rows
    && var row := s.store.db.rows[s.activity.id];
       Exposing(REAL, row) && row.account == account && row.request.orderId == orderId
  }

  /** Whenever the run reads this order, the broker shows something else than `merged`. */
  predicate NeverShown(s: System, steps: seq<Step>, account: nat, orderId: nat, merged: Request)
    requires Runs(s, steps)
  {
    forall k | 0 <= k < |steps| && Runs(s, steps[..k]) && ReadsOrder(Exec(s, steps[..k]), steps[k], account, orderId) ::
      !Agrees(REAL, merged, steps[k].order)
  }

  lemma NoNewRequirement(s: System, step: Step, g: OpId)
    requires Inv(s) && Enabled(s, step) && g in s.store.db.rows && !Pending(s.store.db, g)
    requires s.store.db.rows[g].state == ACKNOWLEDGED && s.store.db.rows[g].recovery.None?
    ensures !Pending(After(s, step).store.db, g)
  {
    if Quiet(step) {
      QuietEffect(s, step);
    } else {
      match step
      case Open(epoch, commit) => OpenRequires(s, epoch, commit, g);
      case StoreAnswer(commit, back) => StoreRequires(s, commit, back, g);
      case Refuse(commit, back) => RefuseRequires(s, commit, back, g);
      case RecordCheck(evidence, commit) => RecordReleases(s, evidence, commit);
      case ReviewRows(commit) => ReviewRequires(s, commit, g);
      case _ => PlainRequires(s, step, g);
    }
  }

  lemma OpenRequires(s: System, epoch: Epoch, commit: Commit, g: OpId)
    requires g in s.store.db.rows && !Pending(s.store.db, g) && s.store.db.rows[g].state == ACKNOWLEDGED
    ensures !Pending(AfterOpen(s, epoch, commit).store.db, g)
  {
  }

  lemma StoreRequires(s: System, commit: Commit, back: ReadBack, g: OpId)
    requires Inv(s) && Enabled(s, StoreAnswer(commit, back))
    requires g in s.store.db.rows && !Pending(s.store.db, g) && s.store.db.rows[g].state == ACKNOWLEDGED
    ensures !Pending(AfterStore(s, commit, back).store.db, g)
  {
    assert s.activity.id != g;
    StoreAddsNoOther(s, commit, back, g);
  }

  /** Storing an answer can raise a requirement only for its own operation. */
  lemma StoreAddsNoOther(s: System, commit: Commit, back: ReadBack, g: OpId)
    requires s.activity.Executing? && s.activity.stage.Answered? && s.activity.id in s.store.db.rows
    requires s.activity.id != g && !Pending(s.store.db, g)
    ensures !Pending(AfterStore(s, commit, back).store.db, g)
  {
    var a := s.activity.stage.answer;
    OutcomeRows(s.store.db, s.activity.id, AnswerState(a), AnswerDisposition(a), AnswerReceipt(a),
                AnswerReason(a), s.activity.observed);
  }

  lemma RefuseRequires(s: System, commit: Commit, back: ReadBack, g: OpId)
    requires Enabled(s, Refuse(commit, back)) && !Pending(s.store.db, g)
    ensures !Pending(AfterRefuse(s, commit, back).store.db, g)
  {
  }

  lemma ReviewRequires(s: System, commit: Commit, g: OpId)
    requires g in s.store.db.rows && !Pending(s.store.db, g) && s.store.db.rows[g].state == ACKNOWLEDGED
    ensures !Pending(WithReview(s.store, commit).0.db, g)
  {
  }

  lemma PlainRequires(s: System, step: Step, g: OpId)
    requires Inv(s) && Enabled(s, step) && g in s.store.db.rows && !Pending(s.store.db, g)
    requires s.store.db.rows[g].state == ACKNOWLEDGED && s.store.db.rows[g].recovery.None?
    requires step.AdmitCaller? || step.MarkRow? || step.SeeLateOrder?
    ensures !Pending(After(s, step).store.db, g)
  {
  }

  lemma StandingStep(s: System, step: Step, g: OpId, account: nat, orderId: nat)
    requires Inv(s) && Enabled(s, step) && Standing(s, g, account, orderId) && Unseen(s, g)
    ensures Standing(After(s, step), g, account, orderId)
    ensures After(s, step).store.db.rows[g] == s.store.db.rows[g]
  {
    RowEffect(s, step, g);
    NoNewRequirement(s, step, g);
    EnvironmentFixed(s, step);
    StandingUnchanged(s, step, g, account, orderId, After(s, step).store.db.rows[g]);
  }

  lemma StandingUnchanged(s: System, step: Step, g: OpId, account: nat, orderId: nat, next: Row)
    requires Inv(s) && Standing(s, g, account, orderId) && Unseen(s, g)
    requires RowChange(s, step, g, s.store.db.rows[g], next)
    ensures next == s.store.db.rows[g]
  {
  }

  lemma UnseenStep(s: System, step: Step, g: OpId, account: nat, orderId: nat)
    requires Inv(s) && Enabled(s, step) && Standing(s, g, account, orderId) && Unseen(s, g)
    requires ReadsOrder(s, step, account, orderId) ==> !Agrees(REAL, s.store.db.rows[g].merged.value, step.order)
    ensures Unseen(After(s, step), g)
  {
    if step.Prepare? {
      var row := s.store.db.rows[s.activity.id];
      assert g in Guards(s, row) <==> row.account == account && row.request.orderId == orderId;
    }
  }

  /**
   As long as the broker does not show what an acknowledged modification left behind, that
   guard is never retired, across every restart and recovery, and no exposing modification
   of its order is in flight again.
   */
  lemma {:induction false} GuardHoldsUntilShown(s: System, steps: seq<Step>, g: OpId, account: nat, orderId: nat)
    requires Inv(s) && Runs(s, steps) && Standing(s, g, account, orderId) && Unseen(s, g)
    requires NeverShown(s, steps, account, orderId, s.store.db.rows[g].merged.value)
    ensures var t := Exec(s, steps);
            && Standing(t, g, account, orderId) && Unseen(t, g) && t.store.db.rows[g] == s.store.db.rows[g]
            && forall id | InFlight(t, id) ::
                 id in t.store.db.rows && !Targets(t.store.db.rows[id], account, orderId)
  {
    if steps != [] {
      var n := |steps| - 1;
      var t := Exec(s, steps[..n]);
      forall k | 0 <= k < n && Runs(s, steps[..n][..k])
                 && ReadsOrder(Exec(s, steps[..n][..k]), steps[..n][k], account, orderId)
        ensures !Agrees(REAL, s.store.db.rows[g].merged.value, steps[..n][k].order)
      {
        assert steps[..n][..k] == steps[..k] && steps[..n][k] == steps[k];
      }
      GuardHoldsUntilShown(s, steps[..n], g, account, orderId);
      RunKeeps(s, steps[..n]);
      StandingStep(t, steps[n], g, account, orderId);
      UnseenStep(t, steps[n], g, account, orderId);
      StepKeeps(t, steps[n]);
    }
    NotInFlight(Exec(s, steps), g, account, orderId);
  }

  /** The row is an exposing modification of this order. */
  predicate Targets(row: Row, account: nat, orderId: nat) {
    Exposing(REAL, row) && row.account == account && row.request.orderId == orderId
  }

  lemma NotInFlight(s: System, g: OpId, account: nat, orderId: nat)
    requires Inv(s) && Standing(s, g, account, orderId) && Unseen(s, g)
    ensures forall id | InFlight(s, id) ::
              id in s.store.db.rows && !Targets(s.store.db.rows[id], account, orderId)
  {
    if s.activity.Executing? && InFlight(s, s.activity.id) {
      var row := s.store.db.rows[s.activity.id];
      assert Targets(row, account, orderId) ==> g in Guards(s, row);
    }
  }

  // ------------------------------------------------------------ the failing runs, and exactly when

  /** One operation from its caller to its stored acknowledgement, with nothing going wrong. */
  function Acknowledge(id: OpId, row: Row, order: BrokerOrder, receipt: Receipt): seq<Step> {
    [AdmitCaller(id, row.epoch, row, Commits), Enter(id), Prepare(order),
     MarkRow(MergedRequest(REAL, row, order), Commits), Call(id),
     Answer(AckReadable(receipt)), StoreAnswer(Commits, Readable)]
  }

  /** A process that serves: nothing pending, nobody inside the mutex. */
  predicate Serving(s: System, epoch: Epoch) {
    && s.running && s.activity.Free? && s.queued == {} && s.store.env == REAL && s.store.epoch == epoch
    && GateOpen(s)
  }

  function AckedRow(row: Row, order: BrokerOrder, receipt: Receipt): Row {
    OutcomeRow(row.(marker := true, merged := Some(MergedRequest(REAL, row, order))),
               ACKNOWLEDGED, ACKED, Some(receipt))
  }

  lemma Opened(epoch: Epoch)
    ensures var steps := [Open(epoch, Commits), ReviewRows(Commits)];
            && Runs(Start(REAL), steps)
            && Serving(Exec(Start(REAL), steps), epoch) && Exec(Start(REAL), steps).store.db.rows == map[]
  {
    var first := Open(epoch, Commits);
    Extend(Start(REAL), [], first);
    Extend(Start(REAL), [] + [first], ReviewRows(Commits));
    assert [] + [first] + [ReviewRows(Commits)] == [first, ReviewRows(Commits)];
  }

  /** Admission and the mutex: the operation waits in the first stage of its dispatch. */
  lemma Entering(s: System, id: OpId, row: Row)
    requires Serving(s, row.epoch) && NewAdmission(row) && id !in s.store.db.rows
    ensures var steps := [AdmitCaller(id, row.epoch, row, Commits), Enter(id)];
            && Runs(s, steps)
            && Exec(s, steps) == s.(store := s.store.(db := s.store.db.(rows := s.store.db.rows[id := row])),
                                    activity := Executing(id, Entered, NO_ORDER, {}))
  {
    var first := AdmitCaller(id, row.epoch, row, Commits);
    Extend(s, [], first);
    Extend(s, [] + [first], Enter(id));
    assert [] + [first] + [Enter(id)] == [first, Enter(id)];
    assert s.queued + {id} - {id} == s.queued;
  }

  /** From the mutex to the committed marker, for an operation that reads no order. */
  lemma Marking(s: System, id: OpId, row: Row, order: BrokerOrder)
    requires s.running && s.store.env == REAL && GateOpen(s) && s.activity == Executing(id, Entered, NO_ORDER, {})
    requires id in s.store.db.rows && s.store.db.rows[id] == row && row.state == ADMITTED && !Exposing(REAL, row)
    ensures var merged := MergedRequest(REAL, row, order);
            var steps := [Prepare(order), MarkRow(merged, Commits)];
            var marked := row.(state := DISPATCHING, disposition := IN_FLIGHT, marker := true, merged := Some(merged));
            && Runs(s, steps)
            && Exec(s, steps) == s.(store := s.store.(db := s.store.db.(rows := s.store.db.rows[id := marked])),
                                    activity := Executing(id, Marked, order, {}))
  {
    var first, second := Prepare(order), MarkRow(MergedRequest(REAL, row, order), Commits);
    Extend(s, [], first);
    Extend(s, [] + [first], second);
    assert [] + [first] + [second] == [first, second];
  }

  lemma Calling(s: System, id: OpId, order: BrokerOrder, receipt: Receipt)
    requires s.running && s.activity == Executing(id, Marked, order, {})
    ensures var steps := [Call(id), Answer(AckReadable(receipt))];
            && Runs(s, steps)
            && Exec(s, steps) == s.(activity := Executing(id, Answered(AckReadable(receipt)), order, {}),
                                    calls := s.calls + multiset{id})
  {
    Extend(s, [], Call(id));
    Extend(s, [] + [Call(id)], Answer(AckReadable(receipt)));
    assert [] + [Call(id)] + [Answer(AckReadable(receipt))] == [Call(id), Answer(AckReadable(receipt))];
  }

  lemma Storing(s: System, id: OpId, row: Row, order: BrokerOrder, receipt: Receipt)
    requires s.running && s.store.Usable()
    requires s.activity == Executing(id, Answered(AckReadable(receipt)), order, {})
    requires id in s.store.db.rows && s.store.db.rows[id] == row
    ensures Enabled(s, StoreAnswer(Commits, Readable))
    ensures After(s, StoreAnswer(Commits, Readable))
            == s.(store := s.store.(db := s.store.db.(rows := s.store.db.rows[
                              id := OutcomeRow(row, ACKNOWLEDGED, ACKED, Some(receipt))])),
                  activity := Free)
  {
    var rows := s.store.db.rows[id := OutcomeRow(row, ACKNOWLEDGED, ACKED, Some(receipt))];
    assert RetireObserved(rows, {}) == rows;
    assert s.store.db.requirements + {} == s.store.db.requirements;
  }

  /** From the marker to the stored acknowledgement. */
  lemma Answering(s: System, id: OpId, row: Row, order: BrokerOrder, receipt: Receipt)
    requires s.running && s.store.Usable() && s.activity == Executing(id, Marked, order, {})
    requires id in s.store.db.rows && s.store.db.rows[id] == row
    ensures var steps := [Call(id), Answer(AckReadable(receipt)), StoreAnswer(Commits, Readable)];
            && Runs(s, steps)
            && Exec(s, steps)
               == s.(store := s.store.(db := s.store.db.(rows := s.store.db.rows[
                                 id := OutcomeRow(row, ACKNOWLEDGED, ACKED, Some(receipt))])),
                     activity := Free, calls := s.calls + multiset{id})
  {
    Calling(s, id, order, receipt);
    var called := [Call(id), Answer(AckReadable(receipt))];
    Storing(Exec(s, called), id, row, order, receipt);
    Extend(s, called, StoreAnswer(Commits, Readable));
    assert called + [StoreAnswer(Commits, Readable)]
           == [Call(id), Answer(AckReadable(receipt)), StoreAnswer(Commits, Readable)];
  }

  /** Nothing stops a modification that reads no order: it reaches its acknowledgement. */
  lemma Acknowledged(s: System, id: OpId, row: Row, order: BrokerOrder, receipt: Receipt)
    requires Serving(s, row.epoch) && NewAdmission(row) && id !in s.store.db.rows && !Exposing(REAL, row)
    ensures var steps := Acknowledge(id, row, order, receipt);
            && Runs(s, steps) && Serving(Exec(s, steps), row.epoch)
            && Exec(s, steps).store.db.rows == s.store.db.rows[id := AckedRow(row, order, receipt)]
  {
    Entering(s, id, row);
    var a := [AdmitCaller(id, row.epoch, row, Commits), Enter(id)];
    var t := Exec(s, a);
    Marking(t, id, row, order);
    var b := [Prepare(order), MarkRow(MergedRequest(REAL, row, order), Commits)];
    var u := Exec(t, b);
    Answering(u, id, u.store.db.rows[id], order, receipt);
    var c := [Call(id), Answer(AckReadable(receipt)), StoreAnswer(Commits, Readable)];
    RunsJoin(s, a, b);
    RunsJoin(s, a + b, c);
    assert a + b + c == Acknowledge(id, row, order, receipt);
  }

  /** A fresh process acknowledges one operation and then takes up another. */
  function SuccessorRun(id: OpId, row: Row, order: BrokerOrder, receipt: Receipt, next: OpId, successor: Row)
    : seq<Step>
  {
    [Open(row.epoch, Commits), ReviewRows(Commits)] + Acknowledge(id, row, order, receipt)
    + [AdmitCaller(next, successor.epoch, successor, Commits), Enter(next)]
  }

  lemma SuccessorEnters(id: OpId, row: Row, order: BrokerOrder, receipt: Receipt, next: OpId, successor: Row)
    requires NewAdmission(row) && NewAdmission(successor) && next != id && successor.epoch == row.epoch
    requires row.kind == MODIFY && !Exposing(REAL, row)
    ensures var steps := SuccessorRun(id, row, order, receipt, next, successor);
            && Runs(Start(REAL), steps)
            && var t := Exec(Start(REAL), steps);
               && t.running && t.store.env == REAL && GateOpen(t)
               && t.activity == Executing(next, Entered, NO_ORDER, {})
               && t.store.db.rows == map[id := AckedRow(row, order, receipt), next := successor]
  {
    Opened(row.epoch);
    var a := [Open(row.epoch, Commits), ReviewRows(Commits)];
    var s := Exec(Start(REAL), a);
    Acknowledged(s, id, row, order, receipt);
    var b := Acknowledge(id, row, order, receipt);
    Entering(Exec(s, b), next, successor);
    RunsJoin(Start(REAL), a, b);
    RunsJoin(Start(REAL), a + b, [AdmitCaller(next, successor.epoch, successor, Commits), Enter(next)]);
  }

  /**
   The exact condition, in runs that exist: after an acknowledged DISABLE or DELETE, a successor
   that adds exposure gets past its check for the order the broker then shows if and only if that
   order has the quantity and price the DISABLE or DELETE named, zero standing for each it left out.
   */
  lemma SuccessorPassesExactly(id: OpId, row: Row, order: BrokerOrder, receipt: Receipt,
                               next: OpId, successor: Row, shown: BrokerOrder)
    requires NewAdmission(row) && NewAdmission(successor) && next != id && successor.epoch == row.epoch
    requires row.kind == MODIFY && !Exposing(REAL, row)
    requires Targets(successor, row.account, row.request.orderId)
    ensures var steps := SuccessorRun(id, row, order, receipt, next, successor);
            && Runs(Start(REAL), steps)
            && var t := Exec(Start(REAL), steps);
               && Standing(t, id, row.account, row.request.orderId) && Unseen(t, id)
               && (Enabled(t, Prepare(shown)) <==>
                     && shown.qty == Coalesce(row.request.qty, Some(0.0))
                     && shown.price == Coalesce(row.request.price, Some(0.0)))
  {
    SuccessorEnters(id, row, order, receipt, next, successor);
    var t := Exec(Start(REAL), SuccessorRun(id, row, order, receipt, next, successor));
    ReducingGuardMeaning(row, order, shown);
    assert Guards(t, successor) == {id};
  }

  /** A modification of order 7 as its caller admits it. */
  function Modification(op: string, qty: Option<real>, price: Option<real>): Row {
    Row("epoch", 1, MODIFY, op, Request(7, op, "", "", "", qty, price, map[], []), None,
        ADMITTED, PENDING_CHECKS, None, false, None, None, false, None, 0.0, [], None)
  }

  /**
   Inputs on which the code fails: the broker shows 100 at 10 before and after, and an ENABLE is
   refused after a DISABLE that named nothing, and after one that named only the quantity.
   One that named both fields leaves the order changeable.
   */
  lemma DisableThenEnable(receipt: Receipt)
    ensures var shown := BrokerOrder(Some(100.0), Some(10.0));
            var enable := Modification("ENABLE", None, None);
            var none := Modification("DISABLE", None, None);
            var one := Modification("DISABLE", Some(100.0), None);
            var both := Modification("DISABLE", Some(100.0), Some(10.0));
            var blank := SuccessorRun("a", none, shown, receipt, "b", enable);
            var half := SuccessorRun("a", one, shown, receipt, "b", enable);
            var full := SuccessorRun("a", both, shown, receipt, "b", enable);
            && Runs(Start(REAL), blank) && !Enabled(Exec(Start(REAL), blank), Prepare(shown))
            && Runs(Start(REAL), half) && !Enabled(Exec(Start(REAL), half), Prepare(shown))
            && Runs(Start(REAL), full) && Enabled(Exec(Start(REAL), full), Prepare(shown))
  {
    var shown := BrokerOrder(Some(100.0), Some(10.0));
    var enable := Modification("ENABLE", None, None);
    SuccessorPassesExactly("a", Modification("DISABLE", None, None), shown, receipt, "b", enable, shown);
    SuccessorPassesExactly("a", Modification("DISABLE", Some(100.0), None), shown, receipt, "b", enable, shown);
    SuccessorPassesExactly("a", Modification("DISABLE", Some(100.0), Some(10.0)), shown, receipt, "b", enable, shown);
  }
}
