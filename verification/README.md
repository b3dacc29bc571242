# Order execution of the Moomoo MCP server: a model and its proofs

The server lets a caller place, change and cancel broker orders by a name of its own. This
project models the machinery that makes such a call safe to repeat and safe to lose, and
proves what it promises over every run.

- **Journalled execution** (`Journal`, `ExecutionStore`, `Lifecycle`, `LifecycleInvariant`,
  `LifecycleSafety`, `LifecycleProgress`, `Executor`, `PaperExecution`, `RealExecution`). A
  named operation is admitted, marked, called once, and its outcome stored; a commit may raise
  with the old or the new rows in place, the process may crash between any two steps, a thread
  may outlive the store it marked in, and the broker may answer anything. `Lifecycle` is the
  system of all these steps; the classes are the code, proved to take only such steps.
- **Recovery** (`RecoveryCheck`, `Recovery`, `RecoverySchedule`, `RecoveryAccounting`,
  `RecoveryEvidence`, `ModificationGuards`). Which evidence may open the gate that an
  uncertain outcome shut, how slowly absence is assumed, and how sightings of an order are
  accounted for.
- **Just-in-time unlocking** (`GatewayLock`, `TradeService`). Writers, lock requests and
  reconnects over one mutex: relocked or halted.
- **Quota** (`RateLimit`, `RateLimitHistory`, `ProviderRequestLimiter`, `BrokerDispatch`,
  `DispatchLease`, `WorkerLease`, `AdmissionPlan`). Rolling windows over permits that do not
  age, leases that cancellation may not take from a protected mutation, and plans that
  suffice.
- **Smaller algorithms** (`TradeEvents`, `TradeEventHistory`, `QuerySnapshots`,
  `QueryPaging`, `Digits`, `DecimalPrice`, `InstrumentRules`, `Supervisor`).

`dafny verify dfyconfig.toml` checks everything. Time is in seconds as `real`, except in the
quota modules, which use whole milliseconds as the bucket does.

One result is negative. An acknowledged modification blocks a later exposing one of the same
order until the broker shows what it set; but a DISABLE or DELETE stores zero for each of
quantity and price that its caller left out
(`src/moomoo_mcp/services/trade_service.py:2481-2484`), whatever the order itself goes on
showing. For an order with a quantity and a price, such an operation leaves the order changeable
if and only if its caller named both, with the values the broker goes on showing
(`ModificationGuards.ReducingLeavesChangeable`). `ModificationGuards.DisableThenEnable` gives
inputs that fail, `ModificationGuards.SuccessorPassesExactly` the exact condition in runs that
exist, and `ModificationGuards.GuardHoldsUntilShown` says that otherwise the order stays
unchangeable across every restart and recovery.

## Model

| member | source | states |
|---|---|---|
| `LifecycleInvariant.RunKeeps` | src/moomoo_mcp/services/execution_store.py:185-202 | every state that any interleaving of opening, admission, marking, calling, answering, storing, refusing, recovery checks, late sightings, crashes and threads that outlive their closed store reaches satisfies the durable and process invariants |
| `LifecycleInvariant.StepKeeps` | src/moomoo_mcp/services/execution_store.py:324-428 | each single step keeps them, whichever way its commit ended |
| `LifecycleSafety.AtMostOnce` | src/moomoo_mcp/services/paper_execution.py:249-329 | over every run the broker mutation call is made at most once per operation name, timely calls and calls of a thread that outlived its closed store together |
| `LifecycleSafety.CallFollowsItsMark` | src/moomoo_mcp/services/real_execution.py:333-350 | every mutation call, timely or late, is preceded by exactly one committed marker of the same operation |
| `LifecycleSafety.MarkOnce` | src/moomoo_mcp/services/execution_store.py:370-381 | a row is marked for dispatch at most once, ever |
| `LifecycleSafety.IdentityIsPermanent` | src/moomoo_mcp/services/execution_store.py:324-368 | an admitted row is never removed, never changes its identity and never returns to ADMITTED |
| `LifecycleSafety.RowEffect` | src/moomoo_mcp/services/execution_store.py:383-428 | each step leaves a row as it was or changes it in one of the six ways the store has |
| `LifecycleSafety.RequirementEffect` | src/moomoo_mcp/services/execution_store.py:430-449 | a review requirement disappears only in a recovery record of its own operation |
| `LifecycleSafety.NeverUnderstated` | src/moomoo_mcp/services/real_execution.py:405-454 | once a call has started, in time or late, its row has the marker and is never REFUSED or NOT_SENT in any later state |
| `LifecycleSafety.GateAtCall` | src/moomoo_mcp/services/paper_execution.py:284-306 | when the serving process starts a call nothing awaits review, no outcome is unstored, and no other row is DISPATCHING |
| `LifecycleSafety.FlightEnds` | src/moomoo_mcp/services/paper_execution.py:381-428 | a call stops being in flight only by a durable acknowledgement or by becoming uncertain, whatever failed |
| `LifecycleSafety.QuarantineUntilResolved` | src/moomoo_mcp/services/paper_execution.py:73-79 | from an uncertain outcome on, through crashes and restarts, no process starts a call until a recovery check resolves that very operation; the only calls left are those of threads that had already outlived their closed store |
| `LifecycleSafety.LateCallIsQuarantined` | src/moomoo_mcp/services/trade_service.py:870-875 | closing the store does not stop a thread that has committed its marker; when it calls, its row is marked and, unless a recovery check has resolved that row already, still uncertain, so no process can start a call beside it |
| `LifecycleSafety.ReleaseIsJustified` | src/moomoo_mcp/services/execution_store.py:498-632 | what a lifted requirement proves: REAL not-dispatched without marker, accounted facts with a receipt, or an absence with five negatives, a tag and no sighting |
| `LifecycleSafety.LiveWorkUntouched` | src/moomoo_mcp/services/real_recovery.py:319-329 | a recovery record writes only a row that is not live work of the current process |
| `LifecycleSafety.LateSightingBlocks` | src/moomoo_mcp/services/paper_recovery.py:224-300 | a check that saw an order for an assumed-absent operation has shut the gate before it records |
| `LifecycleSafety.LateOrderReblocks` | src/moomoo_mcp/services/execution_store.py:462-468 | after such a sighting no process starts a call in any run until the order is accounted for; only threads that had already outlived their closed store still may |
| `LifecycleSafety.ChainedModificationsAgree` | src/moomoo_mcp/services/paper_execution.py:430-451 | an exposing modification is called only while the order just read shows the quantity and price of every earlier acknowledged, unobserved modification of that order in that account, and exactly those count as observed |
| `LifecycleSafety.GuardOutlivesFailure` | src/moomoo_mcp/services/execution_store.py:421-428 | a guard is retired only by the stored acknowledgement of a successor that saw it, or by recovery; unknown or refused successors keep it |
| `RecoverySchedule.RunPaces` | src/moomoo_mcp/services/paper_recovery.py:233-299 | in every SIMULATE run each row's checks keep the distance its negatives demand, and its next check is scheduled no earlier |
| `RecoverySchedule.FortySeconds` | src/moomoo_mcp/services/paper_recovery.py:21 | the fifth negative check starts at least forty seconds after the first completed, however other checks are interleaved |
| `RecoverySchedule.AbsenceIsSlow` | src/moomoo_mcp/services/execution_store.py:498-632 | so an operation assumed absent has such a first and fifth negative forty seconds apart |
| `RecoverySchedule.RunCounts` | src/moomoo_mcp/services/execution_store.py:498-632 | absence is never recorded with fewer than five negatives |
| `ExecutionStore.ExecutionStore.constructor` | src/moomoo_mcp/services/execution_store.py:185-202 | opening rewrites in-flight rows of earlier processes to an unknown outcome and raises their requirements, or leaves a poisoned store |
| `ExecutionStore.ExecutionStore.AdmitOperation` | src/moomoo_mcp/services/execution_store.py:324-368 | admission is one transaction: replay of the same identity, conflict, refusal, or one new ADMITTED row |
| `ExecutionStore.ExecutionStore.Mark` | src/moomoo_mcp/services/execution_store.py:370-381 | the dispatch marker is one transaction over an ADMITTED row |
| `ExecutionStore.ExecutionStore.StoreOutcome` | src/moomoo_mcp/services/execution_store.py:383-428 | an outcome, its review requirement and the guards its acknowledgement retires are one transaction |
| `ExecutionStore.ExecutionStore.Record` | src/moomoo_mcp/services/execution_store.py:498-632 | a recovery check and its resolution are one transaction that re-reads the row it judged |
| `ExecutionStore.ExecutionStore.BlockLate` | src/moomoo_mcp/services/execution_store.py:462-468 | a late order shuts the gate by itself, before anything else about it is written |
| `ExecutionStore.ExecutionStore.ReviewAll` | src/moomoo_mcp/services/execution_store.py:430-440 | reviewing in-flight rows adds a requirement for each and opens the store for work |
| `ExecutionStore.ExecutionStore.Lookup` | src/moomoo_mcp/services/execution_store.py:303-305 | a failing read poisons the store instead of answering that nothing is there |
| `Executor.Executor.CheckGuards` | src/moomoo_mcp/services/paper_execution.py:430-451 | the loop over earlier modifications accepts exactly when all agree, and returns exactly the ones observed |
| `Executor.Executor.MarkDispatch` | src/moomoo_mcp/services/execution_store.py:370-381 | the marker step of the protocol, committed or not |
| `Executor.Executor.StoreOutcome` | src/moomoo_mcp/services/paper_execution.py:381-428 | a failed store of an outcome blocks the executor until restart and keeps the identity it must answer for |
| `PaperExecution.PaperExecution.ClearAndMark` | src/moomoo_mcp/services/paper_execution.py:284-318 | everything between the mutex and the marker either reaches a committed marker or refuses without a call |
| `RealExecution.RealExecution.Execute` | src/moomoo_mcp/services/real_execution.py:243-331 | the same for the REAL executor, whose callback marks inside the service call |
| `RealExecution.RealExecution.BeforeDispatch` | src/moomoo_mcp/services/real_execution.py:333-350 | the callback either commits the marker behind an open gate or refuses, and neither way makes a call |
| `RealExecution.RealExecution.Conclude` | src/moomoo_mcp/services/real_execution.py:405-454 | without a marker the end is a refusal; with one it is what the call was observed to do |
| `Recovery.RecoveryWorker.ShutIfLate` | src/moomoo_mcp/services/paper_recovery.py:224-300 | the gate is shut in its own transaction before a late order is recorded |
| `PaperExecution.PaperExecution.Execute` | src/moomoo_mcp/services/paper_execution.py:229-379 | a whole execution is a run of the protocol: a bound name answers for its own request and conflicts with any other; a new one is called, once, exactly when nothing hinders it; the reported state is what the SDK answered, and the row holds its receipt |
| `PaperExecution.PaperExecution.Classify` | src/moomoo_mcp/services/paper_execution.py:319-379 | a raised call or a non-OK reply acknowledges nothing; an OK one is acknowledged even when its receipt cannot be converted, with the identifier read before |
| `LifecycleSafety.AcknowledgedWasAnswered` | src/moomoo_mcp/services/paper_execution.py:319-379 | over every run a row is ACKNOWLEDGED only if the broker acknowledged the call of that very operation while it held the mutex, and it holds the receipt that answer gave, or what was read before the receipt failed to convert |
| `LifecycleSafety.ReceiptNamesOrder` | src/moomoo_mcp/services/execution_store.py:383-428 | over every run a row whose receipt names an order is bound to exactly that order |
| `LifecycleProgress.GateAfterAnswer` | src/moomoo_mcp/services/paper_execution.py:381-428 | the gate is open after a dispatch exactly when the outcome is committed and read back and the broker acknowledged with a receipt that converts |
| `LifecycleProgress.OutcomeKept` | src/moomoo_mcp/services/real_execution.py:405-454 | an outcome blocks its executor until restart exactly when its commit failed or it cannot be read back; only a raise makes the store unusable |
| `LifecycleProgress.GateAfterRefusal` | src/moomoo_mcp/services/real_execution.py:405-454 | a refusal leaves the gate as it was, unless its commit is lost or, in REAL, the row cannot be read back |
| `LifecycleProgress.OpeningReviews` | src/moomoo_mcp/services/execution_store.py:185-202 | opening makes exactly the operations left in doubt await review, besides those that already did |
| `LifecycleProgress.GateAfterOpening` | src/moomoo_mcp/services/execution_store.py:430-449 | so a new process dispatches again exactly when its predecessors left nothing to review |
| `LifecycleProgress.ResolvesExactly` | src/moomoo_mcp/services/execution_store.py:498-632 | on a working store a check lifts the requirements of its operation exactly when its evidence is accounted, the REAL operation never got its marker, or it is the fifth tagged negative of an unseen simulated placement |
| `LifecycleProgress.ResolvedAs` | src/moomoo_mcp/services/execution_store.py:498-632 | what the resolved row then holds: state, resolution, receipt, facts and broker order of that evidence |
| `LifecycleProgress.NextCheck` | src/moomoo_mcp/services/paper_recovery.py:233-299 | how long the operation is left alone after a check, in seconds, for each kind of evidence |
| `LifecycleProgress.ChecksTell` | src/moomoo_mcp/services/paper_recovery.py:233-299 | the check it adds: its times, whether an order was seen, and whether it counts as a negative |
| `LifecycleProgress.DueExactly` | src/moomoo_mcp/services/execution_store.py:451-460 | which operations may be checked: those whose time has come and that await review or are assumed absent |
| `LifecycleProgress.AcknowledgementRetires` | src/moomoo_mcp/services/execution_store.py:421-428 | storing an acknowledgement retires exactly the modifications its dispatch saw and leaves its own to be observed |
| `LifecycleProgress.CommitEndings` | src/moomoo_mcp/services/execution_store.py:255-264 | a raising commit leaves the old or the new rows and a store that stores nothing any more |
| `Recovery.RecoveryWorker.Check` | src/moomoo_mcp/services/paper_recovery.py:224-300 | a recovery check is a run of the protocol that makes no mutation call; which of its six answers it gives is decided exactly, and on a sound working journal a due operation is recorded with what the accounting of the broker lists concludes |
| `RecoveryEvidence.ReleaseRestsOnObservation` | src/moomoo_mcp/services/real_recovery.py:309-365 | when checks gather their evidence from the broker lists, every release with broker facts rests on one listed observation correlated to the row: its identity is the one already recorded, filled is between zero and the quantity, and remaining follows the status |
| `RecoveryEvidence.FactsRestOnObservations` | src/moomoo_mcp/services/execution_store.py:498-632 | and over every such run each row that holds facts goes on resting on such an observation |
| `RecoveryAccounting.MatchesExact` | src/moomoo_mcp/services/real_recovery.py:75-88 | the correlated sightings are exactly those with the target identity or the persisted tag |
| `RecoveryAccounting.GatherEvidence` | src/moomoo_mcp/services/paper_recovery.py:236-262 | the evidence of a check as computed: a failed query, no match, invalid, pending or accounted |
| `RecoveryAccounting.GatheredExactly` | src/moomoo_mcp/services/paper_recovery.py:224-262 | which of its five answers a check gathers: failed queries, no order of its own in the lists, or what accounting for those says |
| `RecoveryAccounting.AccountAnyOrder` | src/moomoo_mcp/services/paper_recovery.py:120-222 | acceptance, resolution, facts, and the identity and status of the receipt do not depend on the order or the repetition of the sightings |
| `RecoveryAccounting.AcceptedIsAccounted` | src/moomoo_mcp/services/real_recovery.py:157-307 | acceptance implies one broker identity, agreement of any two sightings on every compared field (legs instead of code and side for a combo), filled between zero and quantity, and the remaining quantity the status demands |
| `RecoveryAccounting.AccountedExactly` | src/moomoo_mcp/services/real_recovery.py:157-307 | exactly when the lists confirm a placement, end a mutation, or show a modification as it was to leave a live order, sighting by sighting, and when they leave the question open |
| `RecoveryAccounting.PositionsAccounted` | src/moomoo_mcp/services/real_recovery.py:131-155 | the facts carry the total of the holdings of exactly the codes the order is about |
| `RecoveryAccounting.LegIsExact` | src/moomoo_mcp/services/real_recovery.py:91-130 | a leg is readable exactly when all of its parts are, and two readable legs have one identity only if nothing differs |
| `RecoveryAccounting.ConfirmedPlacementMatches` | src/moomoo_mcp/services/real_recovery.py:218-265 | a placement or combo placement is confirmed only by an order with exactly its quantity and price, its code and side or its legs, and in REAL its order type and optional parameters |
| `RecoveryAccounting.AccountFor` | src/moomoo_mcp/services/real_recovery.py:157-307 | the accounting with its loops over sightings, legs, optional parameters and positions computes the order-free specification |
| `RecoveryAccounting.ReadLegs` | src/moomoo_mcp/services/real_recovery.py:90-129 | the leg list is read exactly when it is nonempty and every leg is readable, and then leg by leg |
| `RecoveryAccounting.SumPositions` | src/moomoo_mcp/services/real_recovery.py:141-153 | holdings are summed exactly when each is of that code, of the account and numeric, and the sum is their total |
| `RecoveryAccounting.HoldingsAdd` | src/moomoo_mcp/services/real_recovery.py:141-153 | the sum over two lists joined is the sum of their sums |
| `RecoveryAccounting.LiveTargetIsNotSuccess` | src/moomoo_mcp/services/paper_recovery.py:120-222 | finding the still-live target of a cancellation never accounts for the cancellation |
| `RecoveryAccounting.CheckSightings` | src/moomoo_mcp/services/paper_recovery.py:120-160 | walking the sightings one by one decides exactly that they tell one story |
| `ModificationGuards.MarkedRowsAreMerged` | src/moomoo_mcp/services/trade_service.py:2481-2570 | over every run the stored request of a marked row is its own request, merged over the order read or completed with zeros |
| `ModificationGuards.SentAsNamed` | src/moomoo_mcp/services/trade_service.py:2440-2570 | over every run what is dispatched is what the caller named: a placement exactly as admitted, a change with every field its caller gave, zero for what a reducing one left out |
| `ModificationGuards.MarkedAsRead` | src/moomoo_mcp/services/trade_service.py:2486-2530 | an exposing modification fills what its caller left out from the order it read |
| `ModificationGuards.ExposingGuardMeaning` | src/moomoo_mcp/services/trade_service.py:2486-2530 | a NORMAL or ENABLE modification leaves a guard that a later order satisfies exactly when it shows the merged quantity and price |
| `ModificationGuards.ReducingGuardMeaning` | src/moomoo_mcp/services/trade_service.py:2481-2484 | any other modification leaves a guard that a later order satisfies exactly when it shows the fields the caller named and zero for each one left out |
| `ModificationGuards.ReducingLeavesChangeable` | src/moomoo_mcp/services/real_execution.py:370-403 | so a DISABLE or DELETE leaves an order changeable exactly when its caller named the quantity and price the broker goes on showing |
| `ModificationGuards.SuccessorPassesExactly` | src/moomoo_mcp/services/real_execution.py:370-403 | in runs that exist: after an acknowledged DISABLE or DELETE an exposing successor gets past its check if and only if the order shows those fields |
| `ModificationGuards.DisableThenEnable` | src/moomoo_mcp/services/trade_service.py:2481-2484 | concrete inputs: ENABLE is refused after DISABLE without fields and after DISABLE with only the quantity, and passes after DISABLE with both |
| `ModificationGuards.GuardHoldsUntilShown` | src/moomoo_mcp/services/execution_store.py:307-322 | over every run: while reads of that order show something else, a guard is never retired and no exposing modification of its order is in flight |
| `GatewayLock.RelockedOrHalted` | src/moomoo_mcp/services/trade_service.py:1486-1636 | with a stored credential, whenever the mutex is free every unlock the gateway accepted is followed in the run by a lock it accepted, or the service is halted |
| `GatewayLock.UnmanagedUnlocksByHand` | src/moomoo_mcp/services/trade_service.py:1316-1360 | without one, every accepted unlock was a manual request |
| `TradeService.TradeService.UnlockTrade` | src/moomoo_mcp/services/trade_service.py:1316-1360 | a manual unlock is refused without a gateway request when a credential is stored |
| `TradeService.TradeService.DispatchWrite` | src/moomoo_mcp/services/trade_service.py:1486-1636 | the write as code is a run of the lock system; it reaches its one broker call exactly when nothing refuses it, and then the outcome is decided by how that call ended; an accepted unlock is followed by the relock as the last step |
| `GatewayLock.HaltHolds` | src/moomoo_mcp/services/trade_service.py:1362-1395 | while no successful lock request happens a halt stays, and no exposure-adding REAL call starts, queued writes included |
| `GatewayLock.HaltedExactly` | src/moomoo_mcp/services/trade_service.py:1638-1658 | over every run the service is halted exactly when some relock after a managed write was refused and no lock request has succeeded since |
| `GatewayLock.RefusedRelockStopsExposure` | src/moomoo_mcp/services/trade_service.py:1597-1658 | over every run, no step after a refused relock starts a REAL exposure-adding call before a lock request succeeds |
| `GatewayLock.HaltRefusesExactly` | src/moomoo_mcp/services/trade_service.py:1486-1636 | from a free mutex a write can be carried to its broker call unless it is REAL, exposure-adding and the service is halted: cancellations pass |
| `TradeService.TradeService.RelockAfterWrite` | src/moomoo_mcp/services/trade_service.py:1638-1658 | the relock never raises; its failure is recorded as a halt that keeps the start of an earlier halt |
| `TradeService.TradeService.LockNow` | src/moomoo_mcp/services/trade_service.py:1362-1395 | an explicit lock is the only thing that clears a halt, and only when the gateway accepted it |
| `TradeService.TradeService.EnforceGatewayLock` | src/moomoo_mcp/services/trade_service.py:747-792 | the lock at rest never waits for the mutex, never raises and never clears a halt |
| `TradeService.TradeService.RecordLockResult` | src/moomoo_mcp/services/trade_service.py:186-199 | a refused lock leaves the halt; an accepted one clears it |
| `RateLimit.GrantedPermitStarts` | src/moomoo_mcp/services/rate_limit.py:203-218 | a permit that is still held always starts, after any delay, and starting takes one from it and nothing from any other permit |
| `RateLimit.ReserveKeeps` | src/moomoo_mcp/services/rate_limit.py:132-164 | logged starts plus pending weight never exceed the budget, whatever is asked |
| `RateLimitHistory.WindowBound` | src/moomoo_mcp/services/rate_limit.py:104-119 | over every run of reserve, wait, start and release, no closed window of the interval holds more than `calls` starts |
| `RateLimitHistory.RealWindowBound` | src/moomoo_mcp/services/rate_limit.py:43-45 | hence no real interval as long as the window does either, although the stamps are floored to milliseconds |
| `RateLimitHistory.PacedStarts` | src/moomoo_mcp/services/rate_limit.py:104-119 | in a paced pool any two starts are more than the minimum interval apart in real time |
| `RateLimitHistory.PermitsConserved` | src/moomoo_mcp/services/rate_limit.py:62-80 | per reservation, granted weight equals started plus released plus remaining |
| `RateLimitHistory.GrantedExactly` | src/moomoo_mcp/services/rate_limit.py:132-165 | over every run a reservation is granted exactly when it is first in line and the starts of the closed window ending now, the permits held and its weight fit the budget; a paced pool also waits for a single permit and its spacing; a grant leaves exactly its weight |
| `RateLimitHistory.StartNeverLacksCapacity` | src/moomoo_mcp/services/rate_limit.py:203-218 | neither of the two not-available errors of a start can occur in any run |
| `RateLimitHistory.RunKeeps` | src/moomoo_mcp/services/rate_limit.py:132-223 | the bucket always holds exactly the starts that can still matter |
| `ProviderRequestLimiter.ProviderRequestLimiter.TryReserve` | src/moomoo_mcp/services/rate_limit.py:132-164 | the locked method computes the value form: ticket order, pacing, weight and capacity |
| `ProviderRequestLimiter.ProviderRequestLimiter.Start` | src/moomoo_mcp/services/rate_limit.py:203-218 | the method computes the value form; a held permit starts and a used or released one is refused |
| `ProviderRequestLimiter.ProviderRequestLimiter.Release` | src/moomoo_mcp/services/rate_limit.py:220-223 | the method computes the value form and leaves nothing held |
| `ProviderRequestLimiter.ProviderRequestLimiter.Acquire` | src/moomoo_mcp/services/rate_limit.py:173-201 | waiting is granted exactly when nobody was in line and some look before the deadline finds room; the ticket always leaves the line |
| `ProviderRequestLimiter.SpendAt` | src/moomoo_mcp/services/rate_limit.py:203-218 | using the permit at a position removes or decrements exactly that permit |
| `RateLimit.ReleaseKeeps` | src/moomoo_mcp/services/rate_limit.py:220-223 | release is idempotent and takes exactly the unused weight of that reservation off the pending total |
| `BrokerDispatch.SharedPoolsAgree` | src/moomoo_mcp/services/broker_dispatch.py:177-251 | operations that share a pool have one budget, so it does not matter which of them created the limiter |
| `BrokerDispatch.OnePoolExactly` | src/moomoo_mcp/services/broker_dispatch.py:513-523 | which requests draw on one pool: one operation, both placements or both maximum-tradable queries, and one account where the budget is an account budget |
| `BrokerDispatch.PublishedFrequency` | src/moomoo_mcp/services/broker_dispatch.py:524-541 | no thirty real seconds of a pool hold more starts than the published number of calls |
| `BrokerDispatch.OrderPathFrequency` | src/moomoo_mcp/services/broker_dispatch.py:177-253 | that number and the pacing on the order path |
| `BrokerDispatch.QuotaExactly` | src/moomoo_mcp/services/broker_dispatch.py:497-512 | which calls need quota, which do not, and when an account is missing |
| `BrokerDispatch.Merged` | src/moomoo_mcp/services/broker_dispatch.py:543-550 | merging keeps one entry per pool with the total weight asked of it |
| `DispatchLease.ProtectedCallStarts` | src/moomoo_mcp/services/broker_dispatch.py:586-607 | under protection the next call starts, on a permit already held, reserving nothing |
| `DispatchLease.ProtectedNeverRefused` | src/moomoo_mcp/services/broker_dispatch.py:275-323 | from protection on, whatever others reserve and whenever the lease is cancelled, no call of the mutation is refused |
| `DispatchLease.AdmittedNeverRefused` | src/moomoo_mcp/services/broker_dispatch.py:553-608 | a mutation admitted with its whole bundle is never refused, whatever other callers do, unless it is cancelled before it is protected |
| `DispatchLease.RelockAlwaysHasItsPermit` | src/moomoo_mcp/services/trade_service.py:1473-1484 | after a just-in-time unlock was dispatched, the write and then the relock can start |
| `DispatchLease.RunKeeps` | src/moomoo_mcp/services/broker_dispatch.py:553-584 | until protection a live bundle has its full weight; from protection on it has what the remaining calls need |
| `DispatchLease.CancelReturnsPermits` | src/moomoo_mcp/services/broker_dispatch.py:318-323 | cancelling gives back every unprotected permit and no protected one |
| `DispatchLease.CancelledCallNeverStarts` | src/moomoo_mcp/services/broker_dispatch.py:295-300 | without protection a cancelled lease starts nothing |
| `DispatchLease.NothingKept` | src/moomoo_mcp/services/broker_dispatch.py:553-571 | once the mutation has left and its lease is closed, no permit it ever held is still pending |
| `WorkerLease.WorkerLease.CancelPending` | src/moomoo_mcp/services/broker_dispatch.py:318-323 | the method marks the lease cancelled and releases exactly the slots outside the protected pools |
| `WorkerLease.WorkerLease.Start` | src/moomoo_mcp/services/broker_dispatch.py:295-300 | a start is refused exactly when the lease is cancelled and the pool unprotected; otherwise it is the limiter's start |
| `WorkerLease.WorkerLease.Protect` | src/moomoo_mcp/services/broker_dispatch.py:302-306 | protection is refused exactly when the lease is already cancelled |
| `WorkerLease.WorkerLease.Finish` | src/moomoo_mcp/services/broker_dispatch.py:312-316 | finishing closes the lease and releases every slot |
| `AdmissionPlan.PrepareTradeCall` | src/moomoo_mcp/services/admission.py:282-380 | every admitted new mutation gets a plan that covers, pool by pool, each timed call and reservation its service method makes, and leaves no permit unused |
| `AdmissionPlan.WritePool` | src/moomoo_mcp/services/admission.py:170-405 | which pool a write draws on |
| `AdmissionPlan.UsesCounted` | src/moomoo_mcp/services/admission.py:170-405 | how many calls of each operation an admitted mutation makes |
| `AdmissionPlan.AdmittedMutations` | src/moomoo_mcp/services/admission.py:170-405 | which mutations are admitted |
| `AdmissionPlan.PaperPlanFits` | src/moomoo_mcp/services/paper_execution.py:453-559 | the same for the three paper mutations |
| `AdmissionPlan.RealPlanFits` | src/moomoo_mcp/services/trade_service.py:2405-2570 | the same for REAL placement, combo, modification and cancellation, with or without managed unlocking |
| `AdmissionPlan.StoppedEarly` | src/moomoo_mcp/services/broker_dispatch.py:553-571 | a mutation that stops anywhere has reserved nothing new either |
| `AdmissionPlan.ProtectedSectionEnough` | src/moomoo_mcp/services/trade_service.py:1473-1484 | the bundle protected around a dispatch is exactly what its unlock, write and relock use |
| `TradeEventHistory.ChainedReads` | src/moomoo_mcp/services/trade_events.py:159-219 | gap-free chained reads return exactly the matching events after the first cursor, in strictly increasing order, for any limits and any appends, expiries, closes and other reads in between |
| `TradeEventHistory.FromAFreshBuffer` | src/moomoo_mcp/services/trade_events.py:109-219 | a reader that was there from the start, saw no gap and is told there is no more holds exactly the matching events the process ever accepted, in order |
| `TradeEventHistory.YoungIsKept` | src/moomoo_mcp/services/trade_events.py:109-157 | over every run an event younger than the retention is lost to nothing but as many newer events as the ring holds |
| `TradeEventHistory.ArrivalRecorded` | src/moomoo_mcp/services/trade_events.py:113-157 | while the buffer is open exactly the attributable rows become events, each the next one |
| `TradeEventHistory.PageReports` | src/moomoo_mcp/services/trade_events.py:185-219 | the latest number, the oldest retained one and the reconnects a page reports |
| `TradeEvents.RecordedRows` | src/moomoo_mcp/services/trade_events.py:113-157 | which rows become events |
| `TradeEvents.PayloadCarries` | src/moomoo_mcp/services/trade_events.py:113-157 | what an event carries of its row, field by field |
| `TradeEvents.IdentifierExact` | src/moomoo_mcp/services/trade_events.py:41-52 | an identifier is accepted exactly when it is a positive whole number and keeps its value |
| `TradeEventHistory.GapReportIsExact` | src/moomoo_mcp/services/trade_events.py:191-214 | a gap is reported exactly when some sequence after the cursor is no longer retained |
| `TradeEventHistory.CleanPage` | src/moomoo_mcp/services/trade_events.py:185-214 | a page without a gap is the matching history from the cursor to the next cursor, also after a restart of the epoch |
| `TradeEventHistory.StepKeeps` | src/moomoo_mcp/services/trade_events.py:109-157 | retained sequences are always one interval that ends with the latest |
| `TradeEventHistory.MatchingIsComplete` | src/moomoo_mcp/services/trade_events.py:194-203 | the reference history: every matching event of the range and nothing else |
| `TradeEvents.TradeEventBuffer.Append` | src/moomoo_mcp/services/trade_events.py:113-157 | the row loop records exactly the attributable rows, in order, unless the buffer is closed |
| `TradeEvents.TradeEventBuffer.Read` | src/moomoo_mcp/services/trade_events.py:159-219 | which arguments are refused, and the page a valid read answers |
| `TradeEvents.ExactIdentifier` | src/moomoo_mcp/services/trade_events.py:41-51 | an accepted identifier is a positive decimal number in digits |
| `QueryPaging.PagesReadAreTheRows` | src/moomoo_mcp/services/query_snapshots.py:81-150 | following the cursors reads a prefix of the original rows, and all of them when no cursor is left, whatever is stored, expired or evicted meanwhile |
| `QueryPaging.FollowAnswers` | src/moomoo_mcp/services/query_snapshots.py:128-150 | a continuation of a retained snapshot always answers with its next page; one of a missing snapshot is always an error |
| `QuerySnapshots.PagesAreTheRows` | src/moomoo_mcp/services/query_snapshots.py:66-79 | the pages of a snapshot concatenate to its rows |
| `QuerySnapshots.CursorRoundTrip` | src/moomoo_mcp/services/query_snapshots.py:70-74 | parsing a printed cursor gives back its key and position |
| `QuerySnapshots.ContinuedExactly` | src/moomoo_mcp/services/query_snapshots.py:128-150 | a cursor is answered exactly for the query its rows were stored under, at the end of one of its pages, for a caller who may see them |
| `QuerySnapshots.PageIsFull` | src/moomoo_mcp/services/query_snapshots.py:66-79 | a page is as long as asked unless the rows end first, and says how many there are |
| `QuerySnapshots.EvictedNoMore` | src/moomoo_mcp/services/query_snapshots.py:81-127 | eviction stops as soon as there is room |
| `QuerySnapshots.StoredIsFound` | src/moomoo_mcp/services/query_snapshots.py:81-127 | a stored result is found under its key |
| `QuerySnapshots.StoredKeeps` | src/moomoo_mcp/services/query_snapshots.py:115-126 | after a store there are at most sixteen snapshots and sixteen megabytes |
| `QuerySnapshots.UnexpiredExact` | src/moomoo_mcp/services/query_snapshots.py:59-63 | expiry removes exactly the entries whose time has come |
| `QuerySnapshots.QuerySnapshots.Create` | src/moomoo_mcp/services/query_snapshots.py:81-126 | what is stored, refused or answered in one page, with the byte count equal to the sum of the sizes |
| `QuerySnapshots.QuerySnapshots.ContinuePage` | src/moomoo_mcp/services/query_snapshots.py:128-150 | each continuation error and the page otherwise |
| `QuerySnapshots.QuerySnapshots.Measure` | src/moomoo_mcp/services/query_snapshots.py:94-104 | the streaming size count stops exactly when the bound is passed |
| `DecimalPrice.CanonicalDecides` | src/moomoo_mcp/services/execution_identity.py:130-135 | two accepted price texts have equal canonical text exactly when they denote the same number |
| `DecimalPrice.CanonicalIsStable` | src/moomoo_mcp/services/execution_identity.py:115-135 | canonical text is accepted, denotes the same number and is its own canonical text |
| `DecimalPrice.CanonicalForm` | src/moomoo_mcp/services/execution_identity.py:131-135 | canonical text is the whole part without leading zeros and the fraction without trailing zeros |
| `DecimalPrice.AcceptedExactly` | src/moomoo_mcp/services/execution_identity.py:115-128 | exactly the positive decimal texts of at most 64 characters are accepted, each as the number it writes |
| `InstrumentRules.GridTestIsExact` | src/moomoo_mcp/services/instrument_rules.py:130-139 | for any digits and any exponent the digit test refuses exactly the non-multiples of ten to the minus places |
| `InstrumentRules.ValidateOrder` | src/moomoo_mcp/services/instrument_rules.py:96-147 | an order is accepted exactly when its type is documented, its quantity is a positive whole number, and each price is absent, an allowed zero, or a positive multiple of its step |
| `InstrumentRules.UsEquityGrid` | src/moomoo_mcp/services/instrument_rules.py:66-75 | a US stock or fund trades in cents from one dollar up and in hundredths of cents below |
| `InstrumentRules.BelowOneExact` | src/moomoo_mcp/services/instrument_rules.py:46-95 | the test that avoids huge powers is the comparison of the written number with one |
| `InstrumentRules.OtherGrids` | src/moomoo_mcp/services/instrument_rules.py:46-95 | everywhere else the grid is hundredths for US derivatives and mainland equities and thousandths for the rest |
| `InstrumentRules.NoGrid` | src/moomoo_mcp/services/instrument_rules.py:46-95 | no price is accepted for an unverified class or a code without a market |
| `Supervisor.Supervisor.RestartWindowBound` | src/moomoo_mcp/supervisor.py:364-388 | no half-open window holds more than the maximum number of restarts the supervisor ever scheduled |
| `Supervisor.Supervisor.OnGatewayExit` | src/moomoo_mcp/supervisor.py:364-388 | the gateway is given up exactly when its restarts of the last window reached the maximum; else it is due after a delay for their number |
| `Supervisor.DelayDoubles` | src/moomoo_mcp/supervisor.py:364-388 | the delay starts at the backoff, doubles with every recent restart and stops at its bound |
| `Supervisor.Supervisor.Reap` | src/moomoo_mcp/supervisor.py:338-362 | reaping ends the run only for the server or an unrecoverable gateway; otherwise the gateway is tracked or due, never both |
| `Supervisor.Supervisor.Tick` | src/moomoo_mcp/supervisor.py:290-311 | a pass that goes on respawns the gateway exactly when its scheduled time has come, keeps it due otherwise, and ends only for an exit or a stop |
| `Supervisor.Supervisor.Shutdown` | src/moomoo_mcp/supervisor.py:390-406 | shutdown forgets exactly the children that were reported, and is done once no child is left |

## Left out

- SQLite: pragmas, schema migration, file locks, integrity probes and the ordering of `recovery_rows`. A transaction is an atomic update whose commit may raise with either the old or the new rows in place.
- The executors' methods are proved without interference inside one method; interference between callers, recovery and crashes is in the step system of `Lifecycle`, of which each method is proved to be a run. A name that another caller admits between the second lookup and the insert is therefore no branch of `AdmitNew`.
- A `BaseException` that is not an `Exception` is a process crash.
- Freshness of generated names: epochs, order tags and snapshot keys are assumed never to repeat.
- The SDK, pandas frames, JSON text and asyncio timers: broker answers are arbitrary values, the encoded size of a result is given as its chunks.
- Broker texts are taken as already stripped, and a modification name as already upper-cased.
- Receipts compare as values, not as texts with different spellings of one number.
- `AdmissionPlan.Uses` lists the timed calls of each service method by hand: that the executors make exactly these is read off the code, not proved from their methods.
- RecoveryAccounting.MatchesExact: an order id is a number, so a request id with leading zeros correlates here and not in the code.
- Trading policy, trading controls, account resolution and order validation outside the price grid: each is a choice that may refuse before the marker.
- Gateway unlocks that failed or raised, and the SDK's own replay of an unlock on reconnect: the code cannot know what the gateway did.
- ProviderRequestLimiter.ProviderRequestLimiter.Acquire: the waiting loop is proved without other callers acting between two looks, because it has no state of its own there; their interleaving is in `RateLimitHistory`. The estimate `retry_after` is not modelled.
- A reservation is the number of a permit in its limiter rather than an object; its `remaining` is what the pending list says.
- QuerySnapshots.CursorRoundTrip: cursors are ASCII; other Unicode decimal digits that Python accepts in a position are not.
- The recursion of request canonicalisation over nested values, `differing_fields` and the request fingerprint: only the price field is more than a copy.
- `validate_order_session` and the session rules, `canonical_real_request` and the identity helpers: small branches over given values.
- Supervisor.Supervisor.Shutdown: that the operating system reports every killed child is the caller's list of reports; signals, fork and exec are events.
- Read deadlines, health probes, detached read workers, the HTTP server, grants, deployment and the market-data wrappers.
