# Verified model of the execution path

A Dafny model of the protocols that move money in the trading backend, with proofs about every run of them.

| file | what it models |
|---|---|
| `Messaging.dfy`, `OutboxRelay.dfy` | the shared outbox, its polling query, and one tick of the opportunity-service relay |
| `Uuid.dfy` | what a `uuid` column makes of a text |
| `RelayOutcome.dfy` | what a delivery, and a drained queue, does to rows and opportunities, said outright |
| `RelayLiveness.dfy` | which rows the relay gets past, and which keep it for ever |
| `RelayService.dfy` | the relay as an object over tables updated in place |
| `RelayReplicas.dfy` | several relay processes, crashes and other writers |
| `ExecutionDb.dfy` | the execution-orchestrator tables, each database transaction one atomic step, from the creation of a plan on |
| `LegInvariants.dfy`, `LegEvents.dfy`, `LegHistory.dfy` | what every transaction keeps, what the outbox owes, and whole runs |
| `LegOutcomes.dfy` | when each of those transactions commits and what it leaves, said outright; the reservation of a plan over a run |
| `BeginGate.dfy` | which live plans the cost gate keeps from beginning unvalued |
| `MarkSentProtocol.dfy` | concurrent `markSent` callers between their two commits |
| `LegsService.dfy` | the legs service, the on-chain proof writer, plan completion and the reaper as one object |
| `AutoDriver.dfy`, `AutoDriverWorker.dfy` | the leg auto-driver: what a tick does, and the worker that does it |
| `CapitalLedger.dfy`, `CapitalService.dfy` | reservations under a ceiling, lazy and swept expiry; the service, the loaded entity and the sweeper as objects |
| `CapitalOutcomes.dfy` | what the capital service records and answers, said outright; what the active sum is made of |
| `Settlement.dfy`, `SettlementRelay.dfy` | delivery of settlement rows with retries; the relay worker and the positions service as objects |
| `SettlementProtocol.dfy` | overlapping and crashing drains |
| `EndToEnd.dfy` | from a run of the execution service to the release of its capital |
| `NonceQueue.dfy` | the per-wallet promise chain, and the pending count of each wallet on each chain |
| `PriceImpact.dfy`, `TradeCost.dfy`, `Playbook.dfy` | exact price arithmetic, the cost estimate and its gate, venue keys |

State is modelled twice where the source changes it in place: a class whose methods assign fields, loop and roll
back as the source does, and a function on values that each method's postcondition ties it to (`View()` or
`Tables()` of the new state is the function of the old one). What those functions do is said once more, without
going by them, in `RelayOutcome`, `LegOutcomes` and `CapitalOutcomes` and beside the other functions. Whole runs are sequences of such steps. What the
environment decides, such as answers, crashes, timeouts, times, interleavings and what other callers commit in
between, is an argument, and the theorems hold for every value of it.

Token amounts are unbounded integers, as bigints are. USD amounts and quantities are reals; a JavaScript number
that is NaN or infinite is a value of its own. Bigint division truncates toward zero. A transaction that throws
changes nothing.

## What the proofs found

- A risk decision whose plan reference is no UUID, such as `plan-phase0`, makes the relay's lookup throw. The
  transaction is undone, no attempt is counted, and that row and all rows behind it stay as they are for ever
  (`RelayLiveness.UndeliverableStopsRelay`). So does a decision id that is no UUID once the opportunity exists, and
  a paper row for as long as its POST throws. Nothing else does: a fetchable row closes in the end if and only if
  no such row stands before it and it is none itself (`RelayLiveness.ClosedIff`).
- The pre-trade cost gate reads `config.legs` only. A live plan that is configured by `dexSwaps` or by its own
  venue key begins with live legs whose costs were never valued, at every floor
  (`BeginGate.LegacyLivePlanBeginsUnvalued`). The gate does its work if and only if every leg that begins has an
  entry of its own and of its own type there (`BeginGate.LiveBeginValuedIff`).
- A fill is confirmed under the key `portfolio:fill:<leg>`, and the LegFilled payload has no instrument key; the
  portfolio service asks for a UUID and a non-empty instrument key. With request validation on, as its entry
  point sets it up, every LegFilled row fails for ever, and once a full batch of them is open no later ended
  plan's capital is released (`Settlement.ValidationStarvesRelease`). The exact condition for a row is
  `Settlement.ProcessedIff`, and for the capital of an ended plan `EndToEnd.EndedPlanFreesCapitalIff`. With
  validation off the same holds of fills whose quantity has too many digits or an exponent, and of no others.
- A reserve that is retried while its reservation is active is rejected whenever the ceiling has no room for the
  amount a second time (`CapitalLedger.RetriedReserve`): the gate comes before the unique index.
- The reaper's recovery branch is unreachable, because the proof row commits together with the move to `sent`
  (`LegHistory.ReaperAlwaysFails`); so a leg whose broadcast landed but whose last transaction was lost fails.
- The comment on the price impact says that it is never understated. For a quote at or below spot it is, unless
  the spot output is a whole number of raw units and the impact a whole number of basis points
  (`PriceImpact.UnderstatesIff`); it falls short by less than 1 + 10000 / (fair + 1) basis points
  (`PriceImpact.ImpactBracketsExact`), which for small outputs can hide all of it
  (`PriceImpact.SmallOutputsHideImpact`).
- A broadcast that is accepted after its timeout can repeat a nonce (`NonceQueue.LateBroadcastRepeatsNonce`). The
  nonces of every wallet on every chain are consecutive in all runs if and only if broadcasts do not time out
  (`NonceQueue.ConsecutiveIffNoTimeouts`); in a single run a late acceptance does no harm as long as its nonce is
  still the pending count (`NonceQueue.ConsecutiveIffNeverStale`).
- A paper row can be both processed and dead-lettered exactly when the paper attempt limit is below one
  (`RelayReplicas.NeverBothIff`).
- The 422 for a bridge leg without parameters is raised inside the `try` and reaches the caller as a 503, which
  says that the leg is submitting and will be recovered. With this cause it never is; with any other the
  reply is right if and only if others have left the leg submitting (`LegsService.UnavailableIff`).
- A DEX leg whose notional is not a finite number, with its gas valued and its pool cached, is an exact estimate
  that costs nothing: added to any plan it changes neither the total nor the answer of the gate
  (`TradeCost.BoundlessNotionalIsFree`). An allowed plan's total counts every leg's cost if and only if there is no
  such leg, nor one with a modeled slippage of that kind (`TradeCost.EveryCostCountsIff`). A bridge fee that is not
  finite is caught, and blocks the plan.
- The plan total falls short of its component totals when a leg has a component that is not finite beside one
  that is (`TradeCost.TotalsAgreeIff`).
- The LegFilled payload names no chain and no token at its top level, so that the relay prices every fill at 0:
  positions that the relay writes never count against the capital ceiling (`EndToEnd.PositionsHaveNoNotional`).
- The comment in the auto-driver says that a halt stops the whole tick. It ends the pass over one plan, and the
  tick goes on with the next one (`AutoDriver.TickGoesOnAfterHalt`); it is the last that the tick does if and only
  if every later plan meets a halt, too, at its first live leg, or is no longer executing
  (`AutoDriver.HaltEndsTickIff`).

## Model

| member | source | states |
|---|---|---|
| Messaging.FetchLockedOutboxBatch | packages/messaging/src/outbox-poll.ts:25-57 | at most `limit` open rows of the asked types in ascending id order, none skipped that has a lower id than a returned one, and all of them when fewer than `limit` are returned |
| Messaging.FetchOneIsHead | packages/messaging/src/outbox-poll.ts:46-52 | with limit 1 the least matching id is returned, or nothing matches |
| RelayOutcome.HeadIff | apps/opportunity-service/src/outbox-relay.service.ts:78-83 | an iteration takes the first row that is open and asks for a decision or a paper promotion |
| OutboxRelay.IterateAtHead | apps/opportunity-service/src/outbox-relay.service.ts:75-141 | one iteration changes the head row only; a queued decision either stays with nothing else changed, or leaves the queue with its decision applied; a row left open by an iteration that does not throw has used one attempt and is below its limit |
| OutboxRelay.IterateConserves | apps/opportunity-service/src/outbox-relay.service.ts:75-141 | no iteration, committed or rolled back, changes what the drained queue will come to |
| OutboxRelay.RelayRefinesFold | apps/opportunity-service/src/outbox-relay.service.ts:75-274 | once nothing is fetchable, the opportunities are one left fold over the queued well-formed decisions in id order, whatever the batch sizes, retries, failed and thrown POSTs, rollbacks and paper rows |
| RelayOutcome.DrainedOutcome | apps/opportunity-service/src/outbox-relay.service.ts:75-274 | once nothing is fetchable, every opportunity named by a queued decision that can be stored is `risk_checked` with the id of the last one, its version has grown by the number of them that were not in place, and all others are untouched |
| RelayOutcome.QueuedIff | apps/opportunity-service/src/outbox-relay.service.ts:214-221 | those decisions are the ones of the open, well-formed RiskDecisionIssued rows |
| RelayOutcome.DeliveryChecksOpportunity | apps/opportunity-service/src/outbox-relay.service.ts:222-273 | a decision delivered for the first time claims its message, processes its row and leaves its opportunity `risk_checked` with its id and one more version, or as it was when it was in place; no other changes |
| RelayOutcome.MissingOpportunityCounts | apps/opportunity-service/src/outbox-relay.service.ts:237-260 | a missing opportunity counts one attempt, with nothing else changed, and dead-letters the row if and only if that reaches the limit |
| RelayOutcome.MissingOpportunityRetries | apps/opportunity-service/src/outbox-relay.service.ts:237-260 | a decision whose opportunity does not come is retried until the limit and not longer |
| RelayOutcome.DuplicateGoesByWhatIsInPlace | apps/opportunity-service/src/outbox-relay.service.ts:279-328 | a message claimed before is processed if its decision is in place and dead-lettered if it is not |
| RelayOutcome.MalformedIsDeadLettered | apps/opportunity-service/src/outbox-relay.service.ts:84-96 | what is no well-formed decision or promotion is dead-lettered at once |
| RelayOutcome.PaperGoesByPost | apps/opportunity-service/src/outbox-relay.service.ts:112-196 | a paper row is processed after an accepted POST, and counts one attempt after a declined one |
| RelayOutcome.TickIsIterations | apps/opportunity-service/src/outbox-relay.service.ts:75-141 | a tick is its iterations up to the first that throws, or until nothing is fetchable, and ends by an error if and only if the last one throws |
| RelayOutcome.ThrowsIff | apps/opportunity-service/src/outbox-relay.service.ts:78-140 | what makes an iteration throw |
| RelayOutcome.ThrownLeavesNothing | apps/opportunity-service/src/outbox-relay.service.ts:78-140 | an iteration that throws changes no table |
| RelayOutcome.WellFormedIff | apps/opportunity-service/src/outbox-relay.service.ts:358-414 | the text fields that a decision and a promotion must have |
| OutboxRelay.IterateDecreases | apps/opportunity-service/src/outbox-relay.service.ts:75-141 | an iteration that finds a row and does not throw strictly lowers the sum of max(1, limit - attempts) over open rows |
| RelayLiveness.ClosedIff | apps/opportunity-service/src/outbox-relay.service.ts:75-274 | after as many crash-free ticks as that measure, a fetchable row is closed if and only if neither it nor an earlier one blocks: a decision that cannot be delivered always does, a well-formed paper row while the paper service does not answer |
| RelayLiveness.DrainsIff | apps/opportunity-service/src/outbox-relay.service.ts:75-274 | the queue drains, with the fold applied, if and only if no row blocks |
| RelayLiveness.UndeliverableStopsRelay | apps/opportunity-service/src/outbox-relay.service.ts:232-235 | a decision that cannot be delivered keeps its row, and all rows behind it, with their state and attempts, over any ticks with any answers and crashes |
| RelayLiveness.PlanPhase0IsUndeliverable | apps/risk-service/src/risk/dto/evaluate-risk-request.dto.ts:23-26 | a decision with the plan reference `plan-phase0` is one of those |
| OutboxRelay.ClosesInIdOrder | apps/opportunity-service/src/outbox-relay.service.ts:75-141 | a lone relay closes rows in strictly increasing id order |
| OutboxRelay.ClosedIdsComplete | apps/opportunity-service/src/outbox-relay.service.ts:75-141 | every fetchable row that is closed in the end is one of the rows closed in that order |
| RelayService.OutboxRelayService.ProcessBatchInner | apps/opportunity-service/src/outbox-relay.service.ts:75-141 | the loop over locked transactions leaves the tables exactly as the tick function does, ends early on an empty queue, and ends by an error exactly when a transaction or a POST throws |
| RelayService.OutboxRelayService.DispatchLockedRow | apps/opportunity-service/src/outbox-relay.service.ts:198-274 | the in-place dispatch comes to the dispatch function, and throws exactly when the lookup or the save of the decision does, with its claim undone |
| RelayService.OutboxRelayService.DeliverDecision | apps/opportunity-service/src/outbox-relay.service.ts:221-274 | claim, lookup, release or save in place come to the delivery function; a plan reference that is no UUID throws, and so does a decision id that is none where it is saved |
| RelayService.OutboxRelayService.FinishDuplicateInboxDelivery | apps/opportunity-service/src/outbox-relay.service.ts:279-328 | a message claimed before is processed only if its decision is in place, retried while the opportunity is missing, and dead-lettered otherwise; it throws exactly when the plan reference is no UUID |
| RelayService.OutboxRelayService.FinalizePaperPromotionRelayAttempt | apps/opportunity-service/src/outbox-relay.service.ts:143-196 | the guarded updates after a POST, and the unguarded dead-letter after a failed one |
| RelayService.OutboxRelayService.TryClaimInboxMessage | packages/messaging/src/inbox.ts:9-30 | the claim succeeds exactly when the key is new, and the key is there afterwards |
| RelayService.OutboxRelayService.ReleaseInboxClaim | apps/opportunity-service/src/outbox-relay.service.ts:345-356 | removes that one claim |
| RelayService.OutboxRelayService.MarkRowDeadLetter | apps/opportunity-service/src/outbox-relay.service.ts:330-343 | marks that one row |
| RelayReplicas.ExactlyOnceEffect | apps/opportunity-service/src/outbox-relay.service.ts:102-274 | from an empty inbox, with any number of processes, crashes and other writers, the claims are exactly the processed decisions, and a processed paper row has had a successful POST |
| RelayReplicas.DuplicateDeliveryUnreachable | apps/opportunity-service/src/outbox-relay.service.ts:279-328 | no fetchable row is ever found claimed, so the duplicate branch is not reached |
| RelayReplicas.ClosedStaysClosed | apps/opportunity-service/src/outbox-relay.service.ts:102-196 | closed rows never reopen and keep their identity |
| RelayReplicas.NeverBothIff | apps/opportunity-service/src/outbox-relay.service.ts:143-196 | no row is ever both processed and dead-lettered, in any run, if and only if the paper attempt limit is at least one |
| RelayReplicas.RaceMarksBoth | apps/opportunity-service/src/outbox-relay.service.ts:143-196 | two processes on one paper row, and a limit below one, mark it both ways |
| ExecutionDb.LegDefs | apps/execution-orchestrator/src/legs/legs.service.ts:200-238 | the legs to create: nothing at all when an entry is null; else the entries of `config.legs` in order if there are any, and otherwise between 1 and 16 legacy DEX legs with the indexes from 0, as many as the configured count where that is in range |
| ExecutionDb.CreatedLegs | apps/execution-orchestrator/src/legs/legs.service.ts:206-236 | creation adds one leg per definition under consecutive ids and keeps every other leg |
| ExecutionDb.FindTx | apps/execution-orchestrator/src/execution/on-chain-transaction.service.ts:77-91 | finds a row with the hash if and only if there is one |
| LegOutcomes.CreatesPlannedPlan | apps/execution-orchestrator/src/plans/plans.service.ts:63-73 | a plan is created if and only if its id is new and the targets of its multi-leg configuration are positive; it is planned, in version 1, without a reservation |
| LegOutcomes.LinkStoresReservation | apps/execution-orchestrator/src/plans/plans.service.ts:87-139 | a link commits if and only if the plan is planned and the checks pass, and stores the reservation it was given |
| LegOutcomes.ArmAnnounces | apps/execution-orchestrator/src/plans/plans.service.ts:141-230 | arming commits if and only if the plan is reserved and the checks pass, and its event carries the reservation |
| LegOutcomes.ReservationIsLinked | apps/execution-orchestrator/src/plans/plans.service.ts:87-139 | over any run from an empty database at most one link of a plan succeeds; before that the plan is planned, and from then on it carries the reservation given to that link |
| LegOutcomes.DefinitionsOf | apps/execution-orchestrator/src/legs/legs.service.ts:197-237 | the entries of a multi-leg configuration of version 1, or as many DEX legs of quantity 10 as configured, between 1 and 16 |
| LegOutcomes.BeginsIff | apps/execution-orchestrator/src/legs/legs.service.ts:168-341 | a plan begins if and only if it is armed, without legs and null entries, and has no bridge leg and no leg on one of the five DEX venues, or no completed estimate, or an available one whose known net profit meets the floor |
| LegOutcomes.ExtractionOrder | apps/execution-orchestrator/src/execution/venue-factory.service.ts:69-111 | the venue key of the leg entry, else of the legacy entry, else of the plan, where an empty one counts as none |
| LegOutcomes.BridgeParamsOrder | apps/execution-orchestrator/src/execution/bridge/bridge-adapter-factory.service.ts:50-115 | bridge parameters of the leg entry if complete, else of the legacy entry that names a bridge, else of the plan's defaults |
| LegOutcomes.ReservesIff | apps/execution-orchestrator/src/legs/legs.service.ts:454-514 | the first transaction reserves if and only if the plan is executing, the leg is its own and created, and with the kill-switch on it is no bridge leg and not on one of the five DEX venues; it is then submitting, and otherwise nothing changes |
| LegOutcomes.SubmitErrorsMove | apps/execution-orchestrator/src/legs/legs.service.ts:600-667 | a submitting leg fails, or is rejected, timed out or failed as the venue says, and any other is left alone |
| LegOutcomes.BroadcastIsRecorded | apps/execution-orchestrator/src/legs/legs.service.ts:521-582 | with a new hash, a submitting leg is sent under its order id, its on-chain row is there with the status, and the confirmed or failed event |
| LegOutcomes.AcknowledgesIff | apps/execution-orchestrator/src/legs/legs.service.ts:669-707 | only a sent leg of the plan is acknowledged |
| LegOutcomes.FillsIff | apps/execution-orchestrator/src/legs/legs.service.ts:734-890 | a new fill commits if and only if the leg is acknowledged or partially filled, a known version is right, and a partial quantity rises and does not exceed the target; with everything it leaves behind |
| LegOutcomes.RepeatedFillIsAnswered | apps/execution-orchestrator/src/legs/legs.service.ts:742-752 | a repeated key is answered with the leg |
| LegOutcomes.Refusals | apps/execution-orchestrator/src/legs/legs.service.ts:521-795 | the error of each refused call: not found before conflict, and a bad request for a partial fill without a quantity; nothing changes |
| LegOutcomes.PlanCompletesIff | apps/execution-orchestrator/src/plans/plans.service.ts:236-293 | a plan completes if and only if it is executing, has legs, and all of them are filled |
| LegOutcomes.PlanFailsIff | apps/execution-orchestrator/src/plans/plans.service.ts:328-418 | a plan fails if and only if it is armed or executing, and exactly its created, submitting and partially filled legs with it |
| LegOutcomes.ReaperMovesOn | apps/execution-orchestrator/src/legs/stuck-plan-reaper.worker.ts:232-271 | a submitting leg goes to sent with a confirmed transaction on record and to failed without one |
| LegInvariants.StepEvolves | apps/execution-orchestrator/src/legs/legs.service.ts:371-890 | whatever the transaction, each leg keeps still or makes one allowed move with one more version; new legs are created ones |
| LegInvariants.StepPlansEvolve | apps/execution-orchestrator/src/plans/plans.service.ts:236-418 | whatever the transaction, each plan keeps its configuration and reservation and keeps still or makes one allowed move |
| LegInvariants.StepQuantities | apps/execution-orchestrator/src/legs/legs.service.ts:769-799 | filled quantities stay within targets, and at the target exactly when filled |
| LegEvents.StepEvents | apps/execution-orchestrator/src/execution/dex-outbox-events.service.ts:107-160 | every transaction keeps the outbox at exactly the events that the tables call for |
| LegHistory.ReachableStates | apps/execution-orchestrator/src/legs/legs.service.ts:528-890 | from an empty database, with plans created, linked and armed along the way: quantity at target exactly when filled; one LegFilled row per filled leg and no other; unique hashes, each with the one terminal event of its status; one end event per ended plan, and one arming event per plan past arming; plans past `planned` carry a reservation; completed plans have all legs filled; payloads stay true |
| LegHistory.ReaperAlwaysFails | apps/execution-orchestrator/src/legs/stuck-plan-reaper.worker.ts:232-300 | a submitting leg never has a confirmed transaction on record, so that reaping it fails it |
| LegHistory.SentIsAtomic | apps/execution-orchestrator/src/legs/legs.service.ts:521-597 | nothing changes, or that one leg moves from submitting to sent with its order id, and with on-chain data the row and its one event are there too; applying it again changes nothing |
| LegHistory.VersionCountsTransitions | apps/execution-orchestrator/src/legs/legs.service.ts:371-890 | over any run, the version grows by the number of transitions of the leg |
| LegHistory.FillCommits | apps/execution-orchestrator/src/legs/legs.service.ts:734-827 | a fill changes the tables exactly when it passes every check; it then raises the quantity to the target or the given value and records its key; otherwise only a repeated key is answered with the leg |
| LegHistory.OneFillPerVersion | apps/execution-orchestrator/src/legs/legs.service.ts:744-752 | over any run, at most one fill commits per known version |
| LegHistory.RepeatedFillsChangeNothing | apps/execution-orchestrator/src/legs/legs.service.ts:734-827 | repeats of committed keyed fills, anywhere later in a run and with any other arguments, leave all tables as without them |
| LegHistory.BeginsOnce | apps/execution-orchestrator/src/legs/legs.service.ts:168-194 | over any run, a plan begins at most once, and never again once begun or ended |
| LegHistory.BeginIsAtomicAndGated | apps/execution-orchestrator/src/legs/legs.service.ts:168-341 | a begin is refused with nothing changed, or the armed plan is executing with exactly one created leg per definition; a live plan with an estimate begins only as the gate allows |
| BeginGate.LiveBeginValuedIff | apps/execution-orchestrator/src/legs/legs.service.ts:283-341 | a plan with a live leg begins on a completed estimate only with every leg valued, whatever the sources answer and whatever the floor, if and only if every leg that begins has an entry of its own type in `config.legs` |
| BeginGate.OwnEntriesIff | apps/execution-orchestrator/src/cost/trade-cost-estimator.service.ts:84-101 | plans of the multi-leg builder meet that condition, and legacy plans do if and only if `config.legs` covers their legs with DEX entries |
| BeginGate.LegacyLivePlanBeginsUnvalued | apps/execution-orchestrator/src/execution/venue-factory.service.ts:90-108 | an armed plan with nothing but a live venue key of its own gets an empty estimate and begins a live leg at every floor |
| BeginGate.LiveBeginMeetsFloor | apps/execution-orchestrator/src/legs/legs.service.ts:330-341 | a live plan with a known gross profit begins only if what its estimated totals leave of it meets the floor |
| LegHistory.RunSwept | apps/execution-orchestrator/src/plans/plans.service.ts:350-367 | over any run, a failed plan never has a created or a submitting leg |
| LegHistory.HaltStopsExactlyLiveLegs | apps/execution-orchestrator/src/legs/legs.service.ts:497-510 | with the kill-switch on, a leg is reserved if and only if it would be with it off and is not live; a refused call changes nothing |
| MarkSentProtocol.AtMostOneBroadcast | apps/execution-orchestrator/src/legs/legs.service.ts:371-514 | over every interleaving of callers, errors, crashes, reaper and plan failures: a leg is broadcast at most once, and only after its single reservation |
| MarkSentProtocol.EndedPlanReservesNothing | apps/execution-orchestrator/src/legs/legs.service.ts:479-483 | once a plan has failed or completed, no call reserves any of its legs |
| MarkSentProtocol.RunIsDbRun | apps/execution-orchestrator/src/legs/legs.service.ts:371-514 | every run of the protocol is a run of transactions, so that what holds after all of those holds here |
| MarkSentProtocol.BroadcastRecordedIff | apps/execution-orchestrator/src/legs/legs.service.ts:521-582 | a successful broadcast gets its row and event exactly when the leg is still submitting at the last transaction |
| MarkSentProtocol.SubmissionOutcome | apps/execution-orchestrator/src/legs/legs.service.ts:381-417 | no call is made exactly for a bridge leg whose parameters are missing, and a bridge transfer comes without on-chain data |
| LegsService.LegsService.BeginExecution | apps/execution-orchestrator/src/legs/legs.service.ts:168-341 | the in-place begin, with its writes undone on a null entry or a closed gate, comes to the atomic step |
| LegsService.LegsService.InsertLegs | apps/execution-orchestrator/src/legs/legs.service.ts:206-236 | the creation loop inserts the legs of all definitions, or stops at a null entry and says so |
| LegsService.LegsService.BeginMarkSent | apps/execution-orchestrator/src/legs/legs.service.ts:454-514 | the first transaction: plan, state and kill-switch checks, then `submitting` |
| LegsService.LegsService.SubmitInTry | apps/execution-orchestrator/src/legs/legs.service.ts:381-417 | the body of the `try`: a bridge leg without parameters is failed there and the 422 is thrown there; otherwise the venue or bridge answer |
| LegsService.LegsService.MarkSent | apps/execution-orchestrator/src/legs/legs.service.ts:371-448 | the whole call, for every answer to the submission and anything committed meanwhile |
| LegsService.MarkSentIsRun | apps/execution-orchestrator/src/legs/legs.service.ts:371-448 | the whole call is a run of the protocol with any events of others while it broadcasts, other first transactions, submissions and crashes among them; it broadcasts once if it has reserved its leg and has what it needs, and not otherwise |
| LegsService.UnavailableIff | apps/execution-orchestrator/src/legs/legs.service.ts:381-444 | whatever others commit meanwhile, a call that has reserved answers 503 if and only if the submission was transient or bridge parameters are missing, 422 never for the latter, and with the leg otherwise; a leg still submitting at the last transaction moves as the answer says and any other stays; after a 503 the leg is submitting exactly when others have left it so and bridge parameters were not the reason |
| LegsService.LegsService.CreatePlan | apps/execution-orchestrator/src/plans/plans.service.ts:63-73 | a planned plan under a fresh id |
| LegsService.LegsService.LinkReservation | apps/execution-orchestrator/src/plans/plans.service.ts:87-139 | a planned plan that passes its checks is reserved, with its reservation |
| LegsService.LegsService.ArmPlan | apps/execution-orchestrator/src/plans/plans.service.ts:141-230 | a reserved plan that passes its checks is armed, with one outbox row that says so |
| LegsService.LegsService.CompleteMarkSent | apps/execution-orchestrator/src/legs/legs.service.ts:521-597 | the last transaction, with proof row and event |
| LegsService.LegsService.PersistWithOutcome | apps/execution-orchestrator/src/execution/on-chain-transaction.service.ts:77-119 | inserts unless the hash is known, and returns the row that is there |
| LegsService.LegsService.WriteOutboxRow | apps/execution-orchestrator/src/execution/dex-outbox-events.service.ts:107-160 | inserts unless a row of that type and entity exists |
| LegsService.LegsService.FailSubmittingLeg | apps/execution-orchestrator/src/legs/legs.service.ts:600-627 | fails the leg if it is submitting, and does nothing otherwise |
| LegsService.LegsService.ApplyTerminalSubmitError | apps/execution-orchestrator/src/legs/legs.service.ts:632-667 | moves a submitting leg to the state that the venue names, and returns the leg as it is otherwise |
| LegsService.LegsService.MarkAcknowledged | apps/execution-orchestrator/src/legs/legs.service.ts:669-707 | acknowledges a sent leg, and refuses any other |
| LegsService.LegsService.ApplyFillInTransaction | apps/execution-orchestrator/src/legs/legs.service.ts:709-890 | the fill transaction, whose insert is proved never to find its key taken |
| LegsService.LegsService.ApplyFill | apps/execution-orchestrator/src/legs/legs.service.ts:709-928 | the fill and the completion check that follows a committed one |
| LegsService.LastFillCompletes | apps/execution-orchestrator/src/plans/plans.service.ts:236-293 | a fill call completes its executing plan if and only if it commits, fills its leg, and the other legs are filled; the plan then gets one more completion row, with its reservation |
| LegsService.LegsService.TryComplete | apps/execution-orchestrator/src/plans/plans.service.ts:236-305 | the completion transaction |
| LegsService.LegsService.FailUnfinishedLegs | apps/execution-orchestrator/src/plans/plans.service.ts:350-367 | the sweep fails exactly the created, submitting and partially filled legs of the plan |
| LegsService.LegsService.MarkPlanFailed | apps/execution-orchestrator/src/plans/plans.service.ts:328-418 | the failure transaction, with its sweep and its event |
| LegsService.LegsService.ReapStuckLeg | apps/execution-orchestrator/src/legs/stuck-plan-reaper.worker.ts:232-271 | the reaper's transaction on one leg |
| AutoDriver.PlanPassDisciplined | apps/execution-orchestrator/src/legs/leg-auto-driver.worker.ts:221-338 | in a pass over a plan, `markSent` is called in non-decreasing leg index, a halt is the last thing seen, a leg is acknowledged only right after its own call and when read as sent, and only legs whose own key is live are driven |
| AutoDriver.AcknowledgedIff | apps/execution-orchestrator/src/legs/leg-auto-driver.worker.ts:254-313 | a leg is acknowledged if and only if its call has reserved it and ended in time without throwing, and it is then read as sent |
| AutoDriver.UndisturbedLegIsFilled | apps/execution-orchestrator/src/legs/leg-auto-driver.worker.ts:254-327 | a created leg of an executing plan, sent with nobody else at work and taken by the venue, is acknowledged and filled in full |
| AutoDriver.ClearPassCallsLiveLegs | apps/execution-orchestrator/src/legs/leg-auto-driver.worker.ts:221-252 | a pass over an executing plan with clear halt checks calls exactly its live legs |
| AutoDriver.TickCallsFirstPlan | apps/execution-orchestrator/src/legs/leg-auto-driver.worker.ts:189-219 | a tick with clear halt checks calls every live created leg that it reads of its first plan, if that is executing |
| AutoDriver.HaltEndsTickIff | apps/execution-orchestrator/src/legs/leg-auto-driver.worker.ts:212-252 | after a halt in one plan the tick does nothing more if and only if every later plan is no longer executing or meets a halt at its first live leg |
| AutoDriver.TickGoesOnAfterHalt | apps/execution-orchestrator/src/legs/leg-auto-driver.worker.ts:243-252 | a tick that halts in its first plan sends the live leg of its second, whose own check is clear |
| AutoDriver.DrivenLegIsCovered | apps/execution-orchestrator/src/legs/legs.service.ts:497-504 | a leg driven as live is live in the transaction too, however late, so that with the kill-switch on the call reserves nothing |
| Playbook.DriverKeyIsExtracted | apps/execution-orchestrator/src/execution/venue-factory.service.ts:69-111 | a live key in the leg's own entry is the key that the transaction extracts |
| LegOutcomes.DriverReadsEntry | apps/execution-orchestrator/src/legs/leg-auto-driver.worker.ts:226-236 | the auto-driver reads the key of the leg entry alone |
| AutoDriver.DriverBroadcastsOnce | apps/execution-orchestrator/src/legs/leg-auto-driver.worker.ts:162-338 | a corollary of `AtMostOneBroadcast`: over any number of ticks with timeouts that leave calls running, no leg is broadcast twice |
| AutoDriver.SortIsStable | apps/execution-orchestrator/src/legs/leg-auto-driver.worker.ts:231-232 | the sorted legs are ordered by leg index, and those of each index are the given ones in the given order |
| AutoDriver.OldestIds | apps/execution-orchestrator/src/legs/leg-auto-driver.worker.ts:189-200 | at most the limit, created legs only, oldest first with ties broken by id, and none passed over that is older than a returned one |
| AutoDriver.GroupByPlan | apps/execution-orchestrator/src/legs/leg-auto-driver.worker.ts:201-210 | one bucket per plan, by first appearance, each with exactly the legs of its plan in order |
| AutoDriverWorker.LegAutoDriverWorker.SendLeg | apps/execution-orchestrator/src/legs/leg-auto-driver.worker.ts:255-327 | the raced call, the second look, acknowledge and fill have the events and actions of the specified pass |
| AutoDriverWorker.LegAutoDriverWorker.DrivePlanLegs | apps/execution-orchestrator/src/legs/leg-auto-driver.worker.ts:221-338 | the loop over the sorted legs has the events and actions of the specified pass, and is disciplined |
| AutoDriverWorker.LegAutoDriverWorker.DrivePendingLegs | apps/execution-orchestrator/src/legs/leg-auto-driver.worker.ts:189-219 | query, grouping and the loop over plans have the events of the specified tick |
| AutoDriverWorker.LegAutoDriverWorker.RunCycle | apps/execution-orchestrator/src/legs/leg-auto-driver.worker.ts:162-187 | a tick acts only if no other runs, there is no shutdown and it is switched on, and leaves its flag as it was |
| CapitalLedger.LedgerSafety | apps/capital-service/src/capital/capital.service.ts:103-249 | active reservations and open positions never exceed the ceiling; one CapitalReserved row per reservation; version 1 while active and 2 after; no correlation id active twice; a row changes once at most |
| CapitalOutcomes.ReserveRecords | apps/capital-service/src/capital/capital.service.ts:103-181 | a reserve is accepted if and only if the ceiling has room for it and its correlation id is not active; the row and its event carry the amount and the time asked for, and the counted total rises by exactly the amount |
| CapitalOutcomes.ActiveSumIsRequested | apps/capital-service/src/capital/capital.service.ts:103-181 | after any run from an empty ledger the active sum is that of the requested amounts of the accepted reserves that are neither released nor expired |
| CapitalOutcomes.NotAllAccepted | apps/capital-service/src/capital/capital.service.ts:120-140 | reserves whose amounts do not fit under the ceiling together are not all accepted |
| CapitalOutcomes.ReleaseFrees | apps/capital-service/src/capital/capital.service.ts:220-249 | a release makes an active reservation that is not due released, answers a released one as it is, and refuses any other unchanged |
| CapitalOutcomes.RepeatedReleaseAnswersAlike | apps/capital-service/src/capital/capital.service.ts:220-249 | a release repeated at any time answers as the first did |
| CapitalOutcomes.ExpiryOutcome | packages/persistence/src/capital-reservation-expiry.ts:9-22 | a read saves an active reservation that is due as expired, and the sweep does once it is past due |
| CapitalOutcomes.UnknownIsNotFound | apps/capital-service/src/capital/capital.service.ts:199-249 | an unknown reservation is not found |
| CapitalLedger.RetriedReserve | apps/capital-service/src/capital/capital.service.ts:70-147 | a reserve repeated while active changes nothing, and returns the existing row if and only if the ceiling has room for the amount again |
| CapitalLedger.ReserveReturnsActiveRow | apps/capital-service/src/capital/capital.service.ts:70-101 | with anything committed between attempt and lookup, a returned row is active for the correlation id |
| CapitalLedger.SweepsChangeNoAnswer | apps/capital-service/src/capital/capital.service.ts:199-249 | under a monotone clock, sweeps inserted anywhere into reads and releases change no answer |
| CapitalLedger.LazyAndSweptAgree | apps/capital-service/src/capital/capital-reservation-sweeper.worker.ts:82-117 | the same, and the active sum is never higher with sweeps |
| CapitalLedger.RepeatedReleasesChangeNothing | apps/capital-service/src/capital/capital.service.ts:220-249 | repeating found releases at any later times leaves the ledger as without the repeats |
| CapitalLedger.ReleaseSettles | apps/capital-service/src/capital/capital.service.ts:220-249 | any answer but "not found" means that the reservation is terminal or expired, and releasing such a one changes nothing |
| CapitalLedger.FindActive | apps/capital-service/src/capital/capital.service.ts:86-95 | finds an active row of the correlation id if and only if there is one |
| CapitalService.MaterializeCapitalReservationExpiryIfNeeded | packages/persistence/src/capital-reservation-expiry.ts:9-22 | expires the loaded row in place exactly when it is active and due, and says whether it did |
| CapitalService.CapitalService.AttemptReserve | apps/capital-service/src/capital/capital.service.ts:103-181 | the reserve transaction: gate first, unique index second |
| CapitalService.CapitalService.Reserve | apps/capital-service/src/capital/capital.service.ts:70-101 | attempt, lookup and second attempt, with anything committed in between |
| CapitalService.CapitalService.GetById | apps/capital-service/src/capital/capital.service.ts:199-215 | the read that saves a lazy expiry |
| CapitalService.CapitalService.Release | apps/capital-service/src/capital/capital.service.ts:220-249 | the release, whose save of an expiry is undone by the exception after it |
| CapitalService.CapitalService.ExpireStale | apps/capital-service/src/capital/capital-reservation-sweeper.worker.ts:92-103 | expires the stale active rows, and counts exactly the rows it changes |
| CapitalService.CapitalReservationSweeperWorker.RunSweep | apps/capital-service/src/capital/capital-reservation-sweeper.worker.ts:82-117 | sweeps unless one is running, the worker shuts down or the transaction fails; the count is exact and the flag restored |
| Settlement.Batch | apps/execution-orchestrator/src/legs/settlement-relay.worker.ts:109-127 | the oldest open rows up to the batch size |
| Settlement.DrainCounts | apps/execution-orchestrator/src/legs/settlement-relay.worker.ts:103-144 | a drain returns the number of rows that it has marked as processed |
| Settlement.AnsweredAfterBusy | apps/execution-orchestrator/src/legs/fill-outbound.service.ts:46-64 | busy answers are tried again, and the reply is the status that the receiver gives to the first attempt that is answered |
| Settlement.GivesUpIff | apps/execution-orchestrator/src/legs/fill-outbound.service.ts:46-64 | the reply is transient if and only if every attempt was busy, and an error if and only if one was lost after busy ones only |
| Settlement.DeliveredIff | apps/execution-orchestrator/src/legs/settlement-relay.worker.ts:150-232 | a row is delivered if and only if it needs no request, or is answered with success, or a release with a conflict |
| Settlement.FillServed | apps/portfolio-service/src/positions/positions.service.ts:41-81 | a fill confirmed before changes nothing, one that cannot be added fails with nothing changed, and any other adds its quantity and price to its one position, under one more version, and is confirmed |
| Settlement.StorableBounds | apps/portfolio-service/src/positions/add-decimal-string.ts:5-16 | quantities can be added from 0.000001 on, below which an exponent is written, and up to 20 digits before the point |
| Settlement.ValidationRefuses | apps/portfolio-service/src/positions/dto/confirm-fill.dto.ts:4-38 | with request validation on, no fill of the relay changes anything |
| Settlement.ReleaseServed | apps/capital-service/src/capital/capital.service.ts:220-249 | a release frees an active reservation that is not due, finds a released one released, and is refused otherwise |
| Settlement.ProcessedIff | apps/execution-orchestrator/src/legs/settlement-relay.worker.ts:103-144 | with receivers that answer one of four attempts after busy ones only, and each leg filled once, an open row is processed in the end if and only if it is not poison and fewer poison rows than the batch holds are open before it; poison are fills refused by validation or whose quantity cannot be stored, and ended plans whose reservation does not exist |
| Settlement.SettledIff | apps/execution-orchestrator/src/legs/settlement-relay.worker.ts:103-198 | after enough such drains, a reservation is settled if and only if it was not active, its time is up, or one of the open rows that name it has fewer poison rows before it than the batch holds |
| Settlement.FillKeyIsNoUuid | apps/portfolio-service/src/positions/dto/confirm-fill.dto.ts:36-37 | the key that the relay sends is never a UUID |
| Settlement.ValidationStarvesRelease | apps/execution-orchestrator/src/legs/fill-outbound.service.ts:142-156 | with request validation on, a full batch of open LegFilled rows keeps an ended plan behind them from ever being settled |
| SettlementProtocol.EffectivelyOnce | apps/execution-orchestrator/src/legs/settlement-relay.worker.ts:103-198 | over overlapping drains, lost answers, crashes and other clients: a processed row has had its effect, so that its reservation is released, expired or past its expiry; and positions hold each confirmed fill once |
| SettlementProtocol.NotionalIsFirstServed | apps/portfolio-service/src/positions/positions.service.ts:41-81 | over any run, the notional of a position grows by that of the first served delivery of each fill and by no other, which is 0 for a fill without a token |
| EndToEnd.PositionsHaveNoNotional | apps/execution-orchestrator/src/legs/fill-outbound.service.ts:167-170 | after any run of the relay on rows of the execution service, those added meanwhile among them, every position has the notional 0, whatever the price oracle says |
| SettlementProtocol.LeavesSumOnce | apps/execution-orchestrator/src/legs/fill-outbound.service.ts:200-226 | over any run, a reservation leaves the active sum at most once, and does not change after that |
| SettlementProtocol.DrainIsRun | apps/execution-orchestrator/src/legs/settlement-relay.worker.ts:103-144 | a drain with retries and a failing mark is a run of the protocol |
| SettlementRelay.PositionsService.ConfirmFill | apps/portfolio-service/src/positions/positions.service.ts:41-81 | creates the position on its first fill, adds to it, skips a fill confirmed before, and throws with everything undone when the quantity has an exponent or too many digits |
| SettlementRelay.SettlementRelayWorker.FetchWithRetry | apps/execution-orchestrator/src/legs/fill-outbound.service.ts:46-64 | up to four attempts, retrying transient answers only, whether or not the request was served |
| SettlementRelay.SettlementRelayWorker.Deliver | apps/execution-orchestrator/src/legs/settlement-relay.worker.ts:150-198 | success is a 2xx, or a 409 on a release; a plan without a reservation succeeds with no request |
| SettlementRelay.SettlementRelayWorker.DrainBatch | apps/execution-orchestrator/src/legs/settlement-relay.worker.ts:103-144 | the loop over the batch delivers and marks row by row, ends at a failed mark, counts what it delivered, and does nothing during shutdown |
| EndToEnd.ProcessedMeansFreed | apps/execution-orchestrator/src/legs/settlement-relay.worker.ts:16-34 | after any run of the execution service, an ended plan has a settlement row that names the reservation given to its one successful link, and after any run of the relay that row is processed only if that reservation counts no more |
| EndToEnd.EndedPlanFreesCapitalIff | apps/execution-orchestrator/src/legs/settlement-relay.worker.ts:103-198 | after any run of the execution service and enough drains with receivers that answer, the reservation that an ended plan was linked with is settled if and only if it was not active, its time is up, or fewer refused fills than a batch holds stand before a row of it |
| EndToEnd.StorableTargetsFreeCapital | apps/execution-orchestrator/src/legs/settlement-relay.worker.ts:103-198 | with validation off and target quantities that can be stored, the capital that an ended plan was linked with is freed |
| EndToEnd.PublishedInitial | apps/execution-orchestrator/src/legs/legs.service.ts:829-890 | the settlement rows of any run name distinct legs, as the relay's accounting needs |
| EndToEnd.FillRowsCarryTargets | apps/execution-orchestrator/src/legs/legs.service.ts:860-867 | each fill row carries its leg's target, no instrument key and no token |
| NonceQueue.OneAtATimeInOrder | apps/execution-orchestrator/src/execution/nonce-manager.service.ts:226-245 | in every reachable state one task per address at most is running, and all earlier calls of a started one are over |
| NonceQueue.TaskOutcome | apps/execution-orchestrator/src/execution/nonce-manager.service.ts:162-245 | a task starts once the tail before it has resolved, broadcasts with the pending count of its account, and fails on a failed read or a timeout |
| NonceQueue.AcceptanceOutcome | apps/execution-orchestrator/src/execution/nonce-manager.service.ts:162-224 | a broadcast settles its task as it ends and counts if it is accepted, and one that has timed out counts at most once |
| NonceQueue.AllCallsFinish | apps/execution-orchestrator/src/execution/nonce-manager.service.ts:233-245 | from every reachable state all calls can finish even if every remaining task fails |
| NonceQueue.TaskStepsUseWork | apps/execution-orchestrator/src/execution/nonce-manager.service.ts:233-245 | every step of a task, failed or not, uses up some of the finite work left |
| NonceQueue.AcceptedAreConsecutive | apps/execution-orchestrator/src/execution/nonce-manager.service.ts:162-224 | if no broadcast is accepted after its timeout, the accepted nonces of every address on every chain count up without gap or repetition |
| NonceQueue.ConsecutiveIffNoTimeouts | apps/execution-orchestrator/src/execution/nonce-manager.service.ts:162-224 | nonces are consecutive in every run of the manager if and only if broadcasts do not time out |
| NonceQueue.ConsecutiveIffNeverStale | apps/execution-orchestrator/src/execution/nonce-manager.service.ts:162-224 | over any run, those nonces are consecutive if and only if none is accepted, in time or late, that is not the pending count of its account at that moment |
| NonceQueue.LateBroadcastRepeatsNonce | apps/execution-orchestrator/src/execution/nonce-manager.service.ts:199-215 | a run of ten events in which a timed-out broadcast repeats nonce 0 |
| NonceQueue.NonceManagerService.Serialize | apps/execution-orchestrator/src/execution/nonce-manager.service.ts:233-245 | chains onto the stored tail of the address and becomes the tail |
| PriceImpact.ImpactMeaning | apps/execution-orchestrator/src/cost/trade-cost-estimator.service.ts:607-614 | the whole basis points lost against the fair output, in 0..9999, and 0 when nothing is lost |
| PriceImpact.ImpactAntitone | apps/execution-orchestrator/src/cost/trade-cost-estimator.service.ts:607-614 | a better quote never raises the impact |
| PriceImpact.ImpactBracketsExact | apps/execution-orchestrator/src/cost/trade-cost-estimator.service.ts:598-614 | the computed impact is at most the exact rational one, which is below computed + 1 + 10000 / (fair + 1) |
| PriceImpact.EstimateV3Correct | apps/execution-orchestrator/src/cost/trade-cost-estimator.service.ts:576-614 | there is an estimate exactly when quote and fair output are positive, and it brackets the exact impact in both swap directions |
| PriceImpact.UnderstatesIff | apps/execution-orchestrator/src/cost/trade-cost-estimator.service.ts:572-614 | the estimate is below the exact impact if and only if the quote is at or below spot and one of the two divisions is inexact |
| PriceImpact.SmallOutputsHideImpact | apps/execution-orchestrator/src/cost/trade-cost-estimator.service.ts:572-573 | an input with impact above 1111 basis points that is reported as 0 |
| PriceImpact.SpotRoundTrip | apps/execution-orchestrator/src/cost/trade-cost-estimator.service.ts:598-606 | converting there and back at spot never yields more than was put in, and loses less than one unit of each token |
| PriceImpact.RoundTripThreshold | apps/execution-orchestrator/src/execution/venue-quote.service.ts:77-106 | the reported figure reaches a threshold exactly when the gain does, and its negative exactly when the loss does |
| PriceImpact.RoundTripIff | apps/execution-orchestrator/src/execution/venue-quote.service.ts:77-106 | a round trip is quoted if and only if the amount is positive, buying is quoted at a positive output, and selling exactly that output is |
| PriceImpact.QuoteAsks | apps/execution-orchestrator/src/execution/venue-quote.service.ts:33-57 | which quoter is asked on which venue, with the direction and the amount passed on |
| TradeCost.EstimateDexLegCost | apps/execution-orchestrator/src/cost/trade-cost-estimator.service.ts:207-315 | unavailable exactly when gas is not valued; exact exactly when every source answered; each component and the total as the sources give them |
| TradeCost.DexCostInNumbers | apps/execution-orchestrator/src/cost/trade-cost-estimator.service.ts:235-300 | of a notional of 10000 USD a basis point of slippage or pool fee is one USD, and a leg without a notional costs its gas |
| TradeCost.SlippageSource | apps/execution-orchestrator/src/cost/trade-cost-estimator.service.ts:245-298 | the basis points are those of the V3 quote, of the constant product, or of the leg's tolerance or 50 |
| TradeCost.EstimateBridgeLegCost | apps/execution-orchestrator/src/cost/trade-cost-estimator.service.ts:321-391 | unavailable exactly when the bridge fee is not valued at a finite number; exact exactly when the gas is valued too; components and total |
| TradeCost.EstimatePlanCost | apps/execution-orchestrator/src/cost/trade-cost-estimator.service.ts:84-137 | one estimate per non-null entry, in order, summed up |
| TradeCost.Sum | apps/execution-orchestrator/src/cost/trade-cost-estimator.service.ts:672-678 | the sum of the finite values |
| TradeCost.EstimatesAreConsistent | apps/execution-orchestrator/src/cost/trade-cost-estimator.service.ts:207-391 | the total of every leg estimate is the sum of its four components |
| TradeCost.TotalsDiffer | apps/execution-orchestrator/src/cost/trade-cost-estimator.service.ts:103-107 | the component totals exceed the plan total by exactly the finite components of legs whose total is not finite |
| TradeCost.TotalsAgreeIff | apps/execution-orchestrator/src/cost/trade-cost-estimator.service.ts:103-107 | for non-negative costs the totals agree if and only if no such component is above zero |
| TradeCost.ConfidenceIsJoin | apps/execution-orchestrator/src/cost/trade-cost-estimator.service.ts:680-688 | plan confidence is the least level above those of all legs |
| TradeCost.GateMonotone | apps/execution-orchestrator/src/cost/trade-cost-estimator.service.ts:152-193 | adding a leg of non-negative cost anywhere never turns a blocked plan into an allowed one |
| TradeCost.AllowedMeansValued | apps/execution-orchestrator/src/cost/trade-cost-estimator.service.ts:152-193 | in an allowed plan every DEX leg's gas is valued, and every bridge fee at a finite number |
| TradeCost.EveryCostCountsIff | apps/execution-orchestrator/src/cost/trade-cost-estimator.service.ts:84-193 | the total of an allowed plan counts every leg's cost if and only if no DEX leg has a notional, or a tolerance that its slippage is modeled from, that is not finite; it is then the sum of the component totals |
| TradeCost.BoundlessNotionalIsFree | apps/execution-orchestrator/src/cost/trade-cost-estimator.service.ts:235-315 | a DEX leg whose notional is not finite, with gas and a cached pool, is exact, and added anywhere changes neither the plan total nor the answer of the gate |
| TradeCost.EvaluatePlanGate | apps/execution-orchestrator/src/cost/trade-cost-estimator.service.ts:152-193 | allowed exactly when no reason is given, and each reason exactly when its condition holds |
| TradeCost.AllowedIff | apps/execution-orchestrator/src/cost/trade-cost-estimator.service.ts:152-193 | a plan is allowed if and only if every leg is valued and a known net profit is at the floor or above |
| TradeCost.FindPoolForLeg | apps/execution-orchestrator/src/cost/trade-cost-estimator.service.ts:520-554 | a pool exactly when an eligible one is cached; it is eligible, the most liquid of its tier when a tier is asked for, and the first match otherwise |
| TradeCost.EligibleIff | apps/execution-orchestrator/src/cost/trade-cost-estimator.service.ts:530-551 | a pool of the two tokens, in either order and letter case, and of the fee tier asked for, where a tier of 3000 is 30 basis points |

## Left out

- The Kafka bridge beside the settlement relay, which shares the `processed_at` column of its rows: it is taken to be off.
- Row locks, isolation levels and savepoints below the transaction: a transaction is one atomic step. That includes `attemptReserve`, whose locks cover existing rows only.
- HTTP, RPC, Redis, audit records, metrics, logging, timers and environment parsing: answers, failures and times are arguments.
- Row ids are natural numbers handed out in increasing order, and creation time orders rows as their ids do. Rows of one transaction, such as the legs of a plan, share their creation time, and the database may return those in any order; here ids break the tie.
- Rounding of USD values and their decimal strings, and the per-leg cost columns and the plan's stored breakdown.
- The checks by HTTP before a plan is linked or armed are one answer, and the fields of a bridge leg's parameters are one flag that says whether they are complete.
- A cost estimator that throws, as on an amount that is no integer: the code then begins the plan without a gate, as it does here when there is no estimate.
- What PostgreSQL does with a transaction after an insert that finds its key taken: here the claim is a "no" and the transaction goes on, as the code's comment has it. `RelayReplicas.DuplicateDeliveryUnreachable` shows that the relay never gets there.
- Venue and bridge adapters, kill-switch, price oracle, slippage and quoter services: each is its answer.
- The `relayGate` promise that keeps the ticks of one relay process apart: a lone relay runs ticks one after the other, and `RelayReplicas` lets processes overlap.
- The confirmation poller for pending transactions, and `planHasPendingOnChainTx`, which only keeps the reaper from failing some plans: any plan may be failed at any time.
- The opportunity callbacks after a settled plan, which are best effort and block nothing.
- Fills of one position that only together exceed the 20 digits of its quantity: each can be stored by itself, and adding them up would throw.
- Raw UPDATE statements with RETURNING are taken to answer with the rows that their annotations say; the relay's attempt counts and the sweeper's count rest on it.
- Closing a position, and the simulated portfolio failure: positions only grow here.
- `acquireNextNonce`, which no code calls, and the drift gauge.
- The asynchronous part of `withBroadcastLock` is steps of a state machine, not a method: only `serialize` changes the manager's own field.
- A sell leg after a failed buy leg: `drivePlanLegs` goes on to later legs, so no order between fills is claimed.
- MarkSentProtocol.AtMostOneBroadcast: a bridge or venue that submits twice inside one call is not modelled.
- PriceImpact.EstimateV3Correct: like `PriceImpact.UnderstatesIff`, for positive prices only; for a price of zero the code divides by zero when token1 goes in, and no estimate is made.
- AutoDriver.DriverBroadcastsOnce: the ids of `markSent` calls are given by the script; an id in use stands for a refused call.
