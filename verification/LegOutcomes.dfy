/** What each transaction of the execution service does, said outright: when it commits, and which row it leaves
    in which state (legs.service.ts, plans.service.ts, stuck-plan-reaper.worker.ts). Nothing here goes by the
    functions that make the decision or the change. */
module LegOutcomes {
  import opened Prelude
  import opened Playbook
  import opened ExecutionDb
  import opened LegInvariants
  import TradeCost

  /** The leg's own venue key: of its entry in `config.legs`, else of its entry in `config.dexSwaps`, else of the
      plan. A key that is empty counts as none, and so does an entry that is missing or null. */
  lemma ExtractionOrder(config: Config, i: int)
    ensures var key := ExtractVenueKey(Some(config), i);
            var inLegs := config.legs.Some? && 0 <= i < |config.legs.value| && config.legs.value[i].LegEntry?
                          && config.legs.value[i].venueKey.Some? && config.legs.value[i].venueKey.value != "";
            var inSwaps := config.dexSwaps.Some? && 0 <= i < |config.dexSwaps.value|
                           && config.dexSwaps.value[i].SwapEntry?
                           && config.dexSwaps.value[i].swapVenueKey.Some?
                           && config.dexSwaps.value[i].swapVenueKey.value != "";
            && (inLegs ==> key == config.legs.value[i].venueKey)
            && (!inLegs && inSwaps ==> key == config.dexSwaps.value[i].swapVenueKey)
            && (!inLegs && !inSwaps && config.venueKey != Some("") ==> key == config.venueKey)
            && (!inLegs && !inSwaps && config.venueKey == Some("") ==> key == None)
    ensures ExtractVenueKey(None, i) == None
  {
  }

  /** The auto-driver looks at the leg entry alone. */
  lemma DriverReadsEntry(config: Option<Config>, i: int)
    ensures var entry := config.Some? && config.value.legs.Some? && 0 <= i < |config.value.legs.value|
                         && config.value.legs.value[i] != NullEntry;
            DriverVenueKey(config, i) == if entry then config.value.legs.value[i].venueKey else None
  {
  }

  /** Where bridge parameters come from: the leg entry, if it is a bridge leg or names a bridge and is complete;
      else the legacy entry, if it names a bridge, complete or not; else the plan's defaults. */
  lemma BridgeParamsOrder(config: Config, i: int)
    ensures var has := HasBridgeParams(Some(config), i);
            var inLegs := config.legs.Some? && 0 <= i < |config.legs.value| && config.legs.value[i].LegEntry?
                          && config.legs.value[i].bridge.complete
                          && (config.legs.value[i].legType == Bridge
                              || config.legs.value[i].bridge.key !in {None, Some("")});
            var inSwaps := config.dexSwaps.Some? && 0 <= i < |config.dexSwaps.value|
                           && config.dexSwaps.value[i].SwapEntry?
                           && config.dexSwaps.value[i].swapBridge.key !in {None, Some("")};
            && (inLegs ==> has)
            && (!inLegs && inSwaps ==> (has <==> config.dexSwaps.value[i].swapBridge.complete))
            && (!inLegs && !inSwaps ==> (has <==> config.bridgeDefaults.Some? && config.bridgeDefaults.value.complete))
    ensures !HasBridgeParams(None, i)
  {
  }

  /** One of the five DEX venues. */
  predicate IsDexVenue(key: Option<string>)
  {
    || key == Some("uniswap-v2") || key == Some("uniswap-v3") || key == Some("sushiswap")
    || key == Some("pancakeswap-v2") || key == Some("biswap")
  }

  // ----- plans before they begin -----

  /** Nothing but the one plan changes. */
  ghost predicate OnlyPlan(db: Db, after: Db, planId: nat)
  {
    && planId in after.plans
    && after.plans == db.plans[planId := after.plans[planId]]
    && after.legs == db.legs && after.nextLegId == db.nextLegId
    && after.fills == db.fills && after.onChain == db.onChain
  }

  /** A plan is created if and only if its id is new and every leg of its multi-leg configuration has a positive
      target; it is planned, in version 1, without a reservation. */
  lemma CreatesPlannedPlan(db: Db, planId: nat, config: Option<Config>)
    ensures var (after, reply) := CreatePlan(db, planId, config);
            var multi := config.Some? && config.value.schemaVersion == 1 && config.value.legs.Some?;
            var positive := multi ==> forall i :: 0 <= i < |config.value.legs.value| ==>
                                        config.value.legs.value[i].LegEntry? ==>
                                          config.value.legs.value[i].targetQuantity > 0.0;
            if planId in db.plans || !positive then after == db && reply == Refused(BadRequest)
            else
              && reply == Nothing && OnlyPlan(db, after, planId) && after.outbox == db.outbox
              && after.plans[planId] == Plan(Planned, 1, config, None)
  {
  }

  /** A link commits if and only if the plan is planned and the checks pass; it stores the reservation it was
      given. */
  lemma LinkStoresReservation(db: Db, planId: nat, reservationId: nat, checksPass: bool)
    ensures var (after, reply) := LinkReservation(db, planId, reservationId, checksPass);
            && (reply == Nothing <==> planId in db.plans && db.plans[planId].state == Planned && checksPass)
            && (reply != Nothing ==>
                  after == db && reply == Refused(if planId in db.plans then Conflict else NotFound))
            && (reply == Nothing ==>
                  && OnlyPlan(db, after, planId) && after.outbox == db.outbox
                  && after.plans[planId].state == Reserved
                  && after.plans[planId].reservationId == Some(reservationId)
                  && after.plans[planId].config == db.plans[planId].config
                  && after.plans[planId].entityVersion == db.plans[planId].entityVersion + 1)
  {
  }

  /** Arming commits if and only if the plan is reserved, with a reservation, and the checks pass; its event
      carries that reservation. */
  lemma ArmAnnounces(db: Db, planId: nat, checksPass: bool)
    ensures var (after, reply) := ArmPlan(db, planId, checksPass);
            && (reply == Nothing <==> planId in db.plans && db.plans[planId].state == Reserved
                                      && db.plans[planId].reservationId.Some? && checksPass)
            && (reply != Nothing ==>
                  after == db && reply == Refused(if planId in db.plans then Conflict else NotFound))
            && (reply == Nothing ==>
                  var version := db.plans[planId].entityVersion + 1;
                  && OnlyPlan(db, after, planId)
                  && after.plans[planId] == db.plans[planId].(state := Armed, entityVersion := version)
                  && after.outbox ==
                     db.outbox + [OutboxEvent(PlanArming(planId), 0.0, version, db.plans[planId].reservationId)])
  {
  }

  // ----- beginExecution -----

  /** The definitions of a plan: the entries of its multi-leg configuration, if it has one of version 1 with any
      entries, and otherwise as many DEX legs of quantity 10 as configured, at least one and at most 16. */
  lemma DefinitionsOf(config: Option<Config>, legacyCount: int)
    ensures var multi := config.Some? && config.value.schemaVersion == 1
                         && config.value.legs.Some? && config.value.legs.value != [];
            var defs := LegDefs(config, legacyCount);
            if multi then
              defs == if exists i :: 0 <= i < |config.value.legs.value| && config.value.legs.value[i] == NullEntry
                      then None else config.value.legs
            else
              defs.Some? && |defs.value| == (if 1 <= legacyCount <= 16 then legacyCount else 1)
              && forall i :: 0 <= i < |defs.value| ==>
                   defs.value[i].LegEntry? && defs.value[i].legIndex == i
                   && defs.value[i].legType == Dex && defs.value[i].targetQuantity == 10.0
  {
    if config.Some? && config.value.legs.Some? {
      var legs := config.value.legs.value;
      assert NullEntry in legs <==> exists i :: 0 <= i < |legs| && legs[i] == NullEntry;
    }
  }

  /** A leg that is live: a bridge leg, or one whose venue is one of the five. */
  predicate GoesLive(config: Option<Config>, def: LegEntry)
  {
    def.LegEntry? && (def.legType == Bridge || IsDexVenue(ExtractVenueKey(config, def.legIndex)))
  }

  /** A plan begins if and only if it is armed, has no legs and no null entry, and either no leg of it is live, or
      its estimate did not complete, or the estimate is available and a known net profit meets the floor. */
  lemma BeginsIff(db: Db, planId: nat, legacyCount: int, estimate: Option<TradeCost.PlanCost>, floor: real)
    ensures BeginExecution(db, planId, legacyCount, estimate, floor).1.Began? <==>
              && planId in db.plans && db.plans[planId].state == Armed
              && (forall l :: l in db.legs ==> db.legs[l].planId != planId)
              && var config := db.plans[planId].config;
              var defs := LegDefs(config, legacyCount);
              && defs.Some?
              && (|| estimate.None?
                  || (forall i :: 0 <= i < |defs.value| ==> !GoesLive(config, defs.value[i]))
                  || (&& estimate.value.estimateConfidence != TradeCost.Unavailable
                      && (estimate.value.netProfitUsd.Some? ==> estimate.value.netProfitUsd.value >= floor)))
  {
    if planId in db.plans && LegDefs(db.plans[planId].config, legacyCount).Some? {
      LiveIff(db.plans[planId].config, LegDefs(db.plans[planId].config, legacyCount).value);
    }
  }

  lemma LiveIff(config: Option<Config>, defs: seq<LegEntry>)
    ensures HasLiveLeg(config, defs) <==> exists i :: 0 <= i < |defs| && GoesLive(config, defs[i])
  {
    forall i | 0 <= i < |defs| && defs[i].LegEntry?
      ensures IsLive(config, defs[i].legType, defs[i].legIndex) <==> GoesLive(config, defs[i])
    {
    }
  }

  // ----- one leg moves -----

  /** The one leg moves to the state, with one more version; nothing else about it changes, and no other row. */
  ghost predicate MovesOnly(db: Db, after: Db, legId: nat, state: LegState)
  {
    && legId in db.legs
    && after == db.(legs := db.legs[legId := db.legs[legId].(state := state,
                                                             entityVersion := db.legs[legId].entityVersion + 1)])
  }

  /** When the first transaction of `markSent` reserves a leg: the plan is executing, the leg is its own and
      created, and, with the kill-switch on, it is no bridge leg and its venue is none of the five. */
  lemma ReservesIff(db: Db, planId: nat, legId: nat, liveHalted: bool)
    ensures var (after, reply) := BeginMarkSent(db, planId, legId, liveHalted);
            && (reply.View? <==>
                  && planId in db.plans && db.plans[planId].state == Executing
                  && legId in db.legs && db.legs[legId].planId == planId && db.legs[legId].state == Created
                  && (liveHalted ==>
                        && db.legs[legId].legType == Dex
                        && !IsDexVenue(ExtractVenueKey(db.plans[planId].config, db.legs[legId].legIndex))))
            && (reply.View? ==> MovesOnly(db, after, legId, Submitting) && reply.leg == after.legs[legId])
            && (!reply.View? ==> after == db && reply.Refused?
                                 && reply.error == if planId !in db.plans then NotFound
                                                   else if db.plans[planId].state != Executing then Conflict
                                                   else if legId !in db.legs || db.legs[legId].planId != planId
                                                   then NotFound else Conflict)
  {
  }

  /** A submitting leg fails, or goes where the venue says; any other is left alone. */
  lemma SubmitErrorsMove(db: Db, planId: nat, legId: nat, terminal: TerminalState)
    requires legId in db.legs && db.legs[legId].planId == planId
    ensures var failed := FailSubmittingLeg(db, planId, legId).0;
            var (ended, reply) := ApplyTerminalSubmitError(db, planId, legId, terminal);
            if db.legs[legId].state != Submitting then failed == db && ended == db && reply == View(db.legs[legId])
            else
              && MovesOnly(db, failed, legId, Failed)
              && reply == View(ended.legs[legId])
              && (terminal == VenueRejected ==> MovesOnly(db, ended, legId, Rejected))
              && (terminal == VenueTimedOut ==> MovesOnly(db, ended, legId, TimedOut))
              && (terminal == VenueFailed ==> MovesOnly(db, ended, legId, Failed))
  {
  }

  lemma AcknowledgesIff(db: Db, planId: nat, legId: nat)
    ensures var (after, reply) := MarkAcknowledged(db, planId, legId);
            && (reply.View? <==> planId in db.plans && legId in db.legs && db.legs[legId].planId == planId
                                 && db.legs[legId].state == Sent)
            && (reply.View? ==> MovesOnly(db, after, legId, Acknowledged) && reply.leg == after.legs[legId])
            && (!reply.View? ==> after == db && reply.Refused?)
  {
  }

  /** A broadcast is recorded if and only if the leg is submitting; on-chain data go with it under their hash,
      with their status and for this leg, unless the hash is known; and the event of a confirmed transaction is
      not that of any other. */
  lemma BroadcastIsRecorded(db: Db, planId: nat, legId: nat, order: nat, meta: OnChainMeta)
    requires legId in db.legs && db.legs[legId].planId == planId
    requires forall i :: 0 <= i < |db.onChain| ==> db.onChain[i].txHash != meta.txHash
    ensures var after := CompleteMarkSent(db, planId, legId, order, Some(meta)).0;
            if db.legs[legId].state != Submitting then after == db
            else
              && after.legs[legId].state == Sent && after.legs[legId].venueRef == Some(order)
              && after.onChain == db.onChain + [OnChainTx(meta.txHash, legId, meta.status)]
              && var key := if meta.status == Confirmed then TransactionConfirmed(meta.txHash)
                            else TransactionFailed(meta.txHash);
              after.outbox == if CountKey(db.outbox, key) > 0 then db.outbox
                              else db.outbox + [OutboxEvent(key, 0.0, 0, None)]
  {
  }

  /** Whether the fill call is one that the rules admit. */
  predicate IsAdmitted(leg: Leg, fill: Fill)
  {
    && (leg.state == Acknowledged || leg.state == PartiallyFilled)
    && (fill.clientKnownVersion.Some? ==> fill.clientKnownVersion.value == leg.entityVersion)
    && (fill.mode == Partial ==>
          fill.cumulativeFilled.Some? && leg.filled < fill.cumulativeFilled.value <= leg.target)
  }

  predicate IsRepeat(db: Db, legId: nat, fill: Fill)
  {
    fill.idempotencyKey.Some? && FillKey(legId, fill.idempotencyKey.value) in db.fills
  }

  /** Why a call is refused: for a plan or a leg of it that is not found, which comes first, or for a conflict with
      its state; a partial fill without a quantity, on a leg that could be filled, is a bad request. A refused call
      changes nothing. */
  lemma Refusals(db: Db, planId: nat, legId: nat, order: nat, meta: Option<OnChainMeta>, terminal: TerminalState,
                 fill: Fill)
    ensures var found := legId in db.legs && db.legs[legId].planId == planId;
            && (!found ==> CompleteMarkSent(db, planId, legId, order, meta) == (db, Refused(NotFound)))
            && (!found ==> ApplyTerminalSubmitError(db, planId, legId, terminal) == (db, Refused(NotFound)))
            && (!found || planId !in db.plans ==>
                  MarkAcknowledged(db, planId, legId) == (db, Refused(NotFound))
                  && ApplyFill(db, planId, legId, fill) == (db, Refused(NotFound)))
            && (found && planId in db.plans && db.legs[legId].state != Sent ==>
                  MarkAcknowledged(db, planId, legId) == (db, Refused(Conflict)))
            && (found && planId in db.plans && !IsRepeat(db, legId, fill) && !IsAdmitted(db.legs[legId], fill) ==>
                  var leg := db.legs[legId];
                  var known := fill.clientKnownVersion.None? || fill.clientKnownVersion.value == leg.entityVersion;
                  var ready := known && (leg.state == Acknowledged || leg.state == PartiallyFilled);
                  ApplyFill(db, planId, legId, fill) ==
                  (db, Refused(if ready && fill.mode == Partial && fill.cumulativeFilled == None then BadRequest
                               else Conflict)))
  {
  }

  // ----- fills -----

  /** When a fill commits, and all that it does: the leg has the new quantity, is filled when that is its target
      and partially filled otherwise, the key is recorded with what came of it, and a filled leg gets its event. */
  lemma FillsIff(db: Db, planId: nat, legId: nat, fill: Fill)
    requires planId in db.plans && legId in db.legs && db.legs[legId].planId == planId && !IsRepeat(db, legId, fill)
    ensures var (after, reply) := ApplyFill(db, planId, legId, fill);
            var leg := db.legs[legId];
            if !IsAdmitted(leg, fill) then after == db && reply.Refused?
            else
              var quantity := if fill.mode == Full then leg.target else fill.cumulativeFilled.value;
              var state := if fill.mode == Full || quantity == leg.target then Filled else PartiallyFilled;
              var saved := leg.(filled := quantity, state := state, entityVersion := leg.entityVersion + 1);
              && reply == View(saved)
              && after.legs == db.legs[legId := saved] && after.plans == db.plans && after.onChain == db.onChain
              && after.fills == (if fill.idempotencyKey.None? then db.fills
                                 else db.fills[FillKey(legId, fill.idempotencyKey.value) :=
                                   FillRecord(state, quantity, leg.entityVersion + 1)])
              && after.outbox ==
                 (if state == Filled
                  then db.outbox + [OutboxEvent(LegFilled(legId), quantity, leg.entityVersion + 1, None)]
                  else db.outbox)
  {
  }

  lemma RepeatedFillIsAnswered(db: Db, planId: nat, legId: nat, fill: Fill)
    requires planId in db.plans && legId in db.legs && db.legs[legId].planId == planId && IsRepeat(db, legId, fill)
    ensures ApplyFill(db, planId, legId, fill) == (db, View(db.legs[legId]))
  {
  }

  // ----- the end of a plan -----

  /** A plan completes if and only if it is executing, has legs, and all of them are filled. */
  lemma PlanCompletesIff(db: Db, planId: nat)
    ensures var after := TryComplete(db, planId).0;
            var completes :=
              && planId in db.plans && db.plans[planId].state == Executing
              && (exists l :: l in db.legs && db.legs[l].planId == planId)
              && (forall l :: l in db.legs && db.legs[l].planId == planId ==> db.legs[l].state == Filled);
            if !completes then after == db
            else
              var plan := db.plans[planId];
              && OnlyPlan(db, after, planId)
              && after.plans[planId] == plan.(state := Completed, entityVersion := plan.entityVersion + 1)
              && after.outbox ==
                 db.outbox + [OutboxEvent(PlanCompletion(planId), 0.0, plan.entityVersion + 1, plan.reservationId)]
  {
  }

  /** A plan fails if and only if it is armed or executing; its created, submitting and partially filled legs fail
      with it, and no other leg changes. */
  lemma PlanFailsIff(db: Db, planId: nat)
    ensures var after := MarkPlanFailed(db, planId).0;
            if planId !in db.plans || db.plans[planId].state !in {Armed, Executing} then after == db
            else
              var plan := db.plans[planId];
              && after.plans == db.plans[planId := plan.(state := PlanFailed, entityVersion := plan.entityVersion + 1)]
              && after.outbox ==
                 db.outbox + [OutboxEvent(PlanFailure(planId), 0.0, plan.entityVersion + 1, plan.reservationId)]
              && after.fills == db.fills && after.onChain == db.onChain && after.legs.Keys == db.legs.Keys
              && forall l :: l in db.legs ==>
                   after.legs[l] ==
                   if db.legs[l].planId == planId && db.legs[l].state in {Created, Submitting, PartiallyFilled}
                   then db.legs[l].(state := Failed, entityVersion := db.legs[l].entityVersion + 1)
                   else db.legs[l]
  {
  }

  /** The reaper moves a submitting leg on: to `sent` with a confirmed transaction on record, to `failed` without
      one. It gives the leg a reference only if it has none. */
  lemma ReaperMovesOn(db: Db, legId: nat, txHash: nat)
    requires legId in db.legs
    ensures var after := ReapStuckLeg(db, legId, txHash).0;
            var confirmed := exists i :: 0 <= i < |db.onChain|
                                         && db.onChain[i].legId == legId && db.onChain[i].status == Confirmed;
            && (db.legs[legId].state != Submitting ==> after == db)
            && (db.legs[legId].state == Submitting && !confirmed ==> MovesOnly(db, after, legId, Failed))
            && (db.legs[legId].state == Submitting && confirmed ==>
                  && after == db.(legs := db.legs[legId := after.legs[legId]])
                  && after.legs[legId] == db.legs[legId].(
                       state := Sent, entityVersion := db.legs[legId].entityVersion + 1,
                       venueRef := if db.legs[legId].venueRef.Some? then db.legs[legId].venueRef else Some(txHash)))
  {
  }

  // ----- the reservation of a plan -----

  /** The call links the plan, and succeeds. */
  predicate Links(db: Db, op: Op, planId: nat)
  {
    op.OpLink? && op.planId == planId && Apply(db, op).1 == Nothing
  }

  /** The arguments of the successful links of the plan, in order. */
  function LinkedReservations(db: Db, ops: seq<Op>, planId: nat): seq<nat>
    decreases |ops|
  {
    if ops == [] then []
    else (if Links(db, ops[0], planId) then [ops[0].reservationId] else [])
         + LinkedReservations(Apply(db, ops[0]).0, ops[1..], planId)
  }

  lemma StepKeepsReservation(db: Db, op: Op, planId: nat)
    requires !Links(db, op, planId) && planId in db.plans
    ensures planId in Apply(db, op).0.plans
    ensures Apply(db, op).0.plans[planId].reservationId == db.plans[planId].reservationId
    ensures Apply(db, op).0.plans[planId].state == Planned <==> db.plans[planId].state == Planned
  {
    StepPlansEvolve(db, op);
    if op.OpLink? {
      LinkStoresReservation(db, op.planId, op.reservationId, op.checksPass);
    } else {
      OnlyLinksLeavePlanned(db, op, planId);
    }
  }

  lemma OnlyLinksLeavePlanned(db: Db, op: Op, planId: nat)
    requires !op.OpLink? && planId in db.plans
    ensures planId in Apply(db, op).0.plans
    ensures Apply(db, op).0.plans[planId].reservationId == db.plans[planId].reservationId
    ensures db.plans[planId].state == Planned ==> Apply(db, op).0.plans[planId] == db.plans[planId]
  {
    match op {
      case OpFill(p, l, fill) => FillKeepsIds(db, p, l, fill);
      case OpCompleteMarkSent(p, l, order, meta) => CompleteKeepsIds(db, p, l, order, meta);
      case _ =>
    }
  }

  /** A linked plan keeps its reservation, and no further link of it succeeds. */
  lemma {:induction false} LinkedStaysLinked(db: Db, ops: seq<Op>, planId: nat)
    requires planId in db.plans && db.plans[planId].state != Planned
    ensures LinkedReservations(db, ops, planId) == []
    ensures planId in Run(db, ops).plans && Run(db, ops).plans[planId].state != Planned
    ensures Run(db, ops).plans[planId].reservationId == db.plans[planId].reservationId
    decreases |ops|
  {
    if ops != [] {
      assert !Links(db, ops[0], planId);
      StepKeepsReservation(db, ops[0], planId);
      LinkedStaysLinked(Apply(db, ops[0]).0, ops[1..], planId);
    }
  }

  /** The reservation of a plan is the one it was linked with. Over any run at whose start there is no such plan, or
      it is a planned one: it is planned still if no link of it has succeeded; and otherwise exactly one has, and
      the plan carries the reservation given to that one. */
  lemma {:induction false} ReservationIsLinked(db: Db, ops: seq<Op>, planId: nat)
    requires planId in db.plans ==> db.plans[planId].state == Planned && db.plans[planId].reservationId == None
    ensures var linked := LinkedReservations(db, ops, planId);
            var plans := Run(db, ops).plans;
            && |linked| <= 1
            && (linked == [] && planId in plans ==>
                  plans[planId].state == Planned && plans[planId].reservationId == None)
            && (linked != [] ==> planId in plans && plans[planId].state != Planned
                                 && plans[planId].reservationId == Some(linked[0]))
    decreases |ops|
  {
    if ops != [] {
      var op := ops[0];
      var after := Apply(db, op).0;
      if Links(db, op, planId) {
        LinkStoresReservation(db, planId, op.reservationId, op.checksPass);
        LinkedStaysLinked(after, ops[1..], planId);
      } else {
        if planId in db.plans {
          StepKeepsReservation(db, op, planId);
        } else if planId in after.plans {
          NewPlansArePlanned(db, op, planId);
        }
        ReservationIsLinked(after, ops[1..], planId);
      }
    }
  }

  lemma NewPlansArePlanned(db: Db, op: Op, planId: nat)
    requires planId !in db.plans && planId in Apply(db, op).0.plans
    ensures Apply(db, op).0.plans[planId].state == Planned && Apply(db, op).0.plans[planId].reservationId == None
  {
    match op {
      case OpFill(p, l, fill) => FillKeepsIds(db, p, l, fill);
      case OpCompleteMarkSent(p, l, order, meta) => CompleteKeepsIds(db, p, l, order, meta);
      case _ =>
    }
  }
}
