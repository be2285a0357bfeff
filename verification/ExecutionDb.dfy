/** The execution-orchestrator tables, and each of its database transactions as one atomic step
    (legs.service.ts, on-chain-transaction.service.ts, dex-outbox-events.service.ts, plans.service.ts,
    stuck-plan-reaper.worker.ts). A transaction that throws is rolled back: it changes nothing. */
module ExecutionDb {
  import opened Prelude
  import opened Playbook
  import TradeCost

  datatype PlanState = Planned | Reserved | Armed | Executing | Completed | PlanFailed

  datatype LegState =
    | Created | Submitting | Sent | Acknowledged | PartiallyFilled | Filled
    | Rejected | TimedOut | Failed

  datatype Plan = Plan(state: PlanState, entityVersion: nat, config: Option<Config>, reservationId: Option<nat>)

  datatype Leg = Leg(
    planId: nat,
    legIndex: int,
    legType: LegType,
    state: LegState,
    entityVersion: nat,
    venueRef: Option<nat>,
    target: real,
    filled: real)

  datatype TxStatus = Confirmed | TxFailed | Reverted

  /** A row of `on_chain_transactions`. */
  datatype OnChainTx = OnChainTx(txHash: nat, legId: nat, status: TxStatus)

  /** The (event type, entity id) pair under which outbox rows are looked up. */
  datatype EventKey =
    | LegFilled(legId: nat)
    | TransactionConfirmed(txHash: nat)
    | TransactionFailed(txHash: nat)
    | PlanArming(planId: nat)
    | PlanCompletion(planId: nat)
    | PlanFailure(planId: nat)

  /** An outbox row: its key, and the payload fields that its consumers use. */
  datatype OutboxEvent = OutboxEvent(key: EventKey, quantity: real, entityVersion: nat, reservationId: Option<nat>)

  datatype FillKey = FillKey(legId: nat, idempotencyKey: nat)
  datatype FillRecord = FillRecord(state: LegState, filled: real, entityVersion: nat)

  datatype Db = Db(
    plans: map<nat, Plan>,
    legs: map<nat, Leg>,
    nextLegId: nat,
    fills: map<FillKey, FillRecord>,
    onChain: seq<OnChainTx>,
    outbox: seq<OutboxEvent>)

  datatype Error = NotFound | Conflict | BadRequest | Unprocessable | Unavailable | Internal

  datatype Reply =
    | View(leg: Leg)
    | Began(firstLegId: nat, legCount: nat)
    | Refused(error: Error)
    | Nothing

  // ----- small queries and writes -----

  function CountKey(outbox: seq<OutboxEvent>, key: EventKey): nat
  {
    if outbox == [] then 0
    else CountKey(outbox[..|outbox| - 1], key) + if outbox[|outbox| - 1].key == key then 1 else 0
  }

  lemma CountKeyAppend(outbox: seq<OutboxEvent>, e: OutboxEvent, key: EventKey)
    ensures CountKey(outbox + [e], key) == CountKey(outbox, key) + if e.key == key then 1 else 0
  {
  }

  predicate HasLeg(db: Db, planId: nat, legId: nat)
  {
    legId in db.legs && db.legs[legId].planId == planId
  }

  function Moved(leg: Leg, state: LegState): Leg
  {
    leg.(state := state, entityVersion := leg.entityVersion + 1)
  }

  function WithLeg(db: Db, legId: nat, leg: Leg): Db
  {
    db.(legs := db.legs[legId := leg])
  }

  // ----- plans before they begin -----

  /** `create` and `buildMultiLegPlan`; target quantities are validated to be positive. A plan id is new. */
  function CreatePlan(db: Db, planId: nat, config: Option<Config>): (Db, Reply)
  {
    if planId in db.plans || !PositiveConfig(config) then (db, Refused(BadRequest))
    else (db.(plans := db.plans[planId := Plan(Planned, 1, config, None)]), Nothing)
  }

  predicate PositiveConfig(config: Option<Config>)
  {
    var legs := MultiLegs(config);
    forall i :: 0 <= i < |legs| && legs[i].LegEntry? ==> legs[i].targetQuantity > 0.0
  }

  /** `linkReservation`; `checksPass` stands for the approved risk decision and the active reservation. */
  function LinkReservation(db: Db, planId: nat, reservationId: nat, checksPass: bool): (Db, Reply)
  {
    if planId !in db.plans then (db, Refused(NotFound))
    else if db.plans[planId].state != Planned || !checksPass then (db, Refused(Conflict))
    else
      var plan := db.plans[planId];
      (db.(plans := db.plans[planId := plan.(state := Reserved, reservationId := Some(reservationId),
                                             entityVersion := plan.entityVersion + 1)]),
       Nothing)
  }

  /** `arm`, with the same checks once more. */
  function ArmPlan(db: Db, planId: nat, checksPass: bool): (Db, Reply)
  {
    if planId !in db.plans then (db, Refused(NotFound))
    else if db.plans[planId].state != Reserved || db.plans[planId].reservationId.None? || !checksPass
    then (db, Refused(Conflict))
    else
      var plan := db.plans[planId].(state := Armed, entityVersion := db.plans[planId].entityVersion + 1);
      (db.(plans := db.plans[planId := plan],
           outbox := db.outbox + [OutboxEvent(PlanArming(planId), 0.0, plan.entityVersion, plan.reservationId)]),
       Nothing)
  }

  // ----- beginExecution -----

  /** The number of legs of a plan without a multi-leg configuration. */
  function LegacyLegCount(configured: int): nat
  {
    if 1 <= configured <= 16 then configured else 1
  }

  /** `parsePlaybookConfig`, reduced to the legs it yields: none for a legacy plan. */
  function MultiLegs(config: Option<Config>): seq<LegEntry>
  {
    if config.None? || config.value.schemaVersion != 1 || config.value.legs.None? then [] else config.value.legs.value
  }

  function LegacyDef(i: nat): LegEntry
  {
    LegEntry(i, Dex, 10.0, None, NO_BRIDGE)
  }

  /** The legs to create, in order; a `null` entry makes the transaction throw. */
  function LegDefs(config: Option<Config>, legacyCount: int): (defs: Option<seq<LegEntry>>)
    ensures defs.None? <==> NullEntry in MultiLegs(config)
    ensures defs.Some? ==> AllEntries(defs.value) && defs.value != []
    ensures defs.Some? && MultiLegs(config) != [] ==> defs.value == MultiLegs(config)
    ensures MultiLegs(config) == [] ==>
              defs.Some? && 1 <= |defs.value| <= 16 && (1 <= legacyCount <= 16 ==> |defs.value| == legacyCount)
              && forall i :: 0 <= i < |defs.value| ==> defs.value[i] == LegacyDef(i)
  {
    var multi := MultiLegs(config);
    if multi != [] then
      if NullEntry in multi then None
      else
        assert forall i :: 0 <= i < |multi| ==> multi[i] in multi;
        Some(multi)
    else Some(seq(LegacyLegCount(legacyCount), (i: nat) => LegacyDef(i)))
  }

  function NewLeg(planId: nat, def: LegEntry): Leg
    requires def.LegEntry?
  {
    Leg(planId, def.legIndex, def.legType, Created, 1, None, def.targetQuantity, 0.0)
  }

  ghost predicate AllEntries(defs: seq<LegEntry>)
  {
    forall i :: 0 <= i < |defs| ==> defs[i].LegEntry?
  }

  /** One leg per definition, under the next ids. */
  function CreateLegs(legs: map<nat, Leg>, next: nat, planId: nat, defs: seq<LegEntry>): map<nat, Leg>
    requires AllEntries(defs)
    decreases |defs|
  {
    if defs == [] then legs else CreateLegs(legs[next := NewLeg(planId, defs[0])], next + 1, planId, defs[1..])
  }

  lemma {:induction false} CreatedLegs(legs: map<nat, Leg>, next: nat, planId: nat, defs: seq<LegEntry>)
    requires AllEntries(defs)
    ensures var r := CreateLegs(legs, next, planId, defs);
            && (forall l :: l in r <==> l in legs || next <= l < next + |defs|)
            && (forall l :: next <= l < next + |defs| ==> r[l] == NewLeg(planId, defs[l - next]))
            && (forall l :: l in legs && !(next <= l < next + |defs|) ==> r[l] == legs[l])
    decreases |defs|
  {
    if defs != [] {
      CreatedLegs(legs[next := NewLeg(planId, defs[0])], next + 1, planId, defs[1..]);
    }
  }

  /** Old legs stay; new ones are created legs of the plan. */
  lemma {:induction false} CreateOnlyAdds(legs: map<nat, Leg>, next: nat, planId: nat, defs: seq<LegEntry>)
    requires AllEntries(defs) && forall l :: l in legs ==> l < next
    ensures var r := CreateLegs(legs, next, planId, defs);
            && (forall l :: l in legs ==> l in r && r[l] == legs[l])
            && (forall l :: l in r && l !in legs ==> next <= l < next + |defs| && IsNewLeg(r[l], planId))
    decreases |defs|
  {
    if defs != [] {
      CreateOnlyAdds(legs[next := NewLeg(planId, defs[0])], next + 1, planId, defs[1..]);
    }
  }

  predicate IsNewLeg(leg: Leg, planId: nat)
  {
    leg.state == Created && leg.entityVersion == 1 && leg.filled == 0.0 && leg.planId == planId
  }

  /** The legs of a plan that begins. */
  lemma BegunLegs(db: Db, planId: nat, legacyCount: int)
    ensures planId in db.plans && LegDefs(db.plans[planId].config, legacyCount).Some? ==>
              var defs := LegDefs(db.plans[planId].config, legacyCount).value;
              var r := CreateLegs(db.legs, db.nextLegId, planId, defs);
              && (forall l :: l in r <==> l in db.legs || db.nextLegId <= l < db.nextLegId + |defs|)
              && (forall l :: db.nextLegId <= l < db.nextLegId + |defs| ==>
                    r[l] == NewLeg(planId, defs[l - db.nextLegId]))
              && (forall l :: l in db.legs && !(db.nextLegId <= l < db.nextLegId + |defs|) ==> r[l] == db.legs[l])
  {
    if planId in db.plans && LegDefs(db.plans[planId].config, legacyCount).Some? {
      CreatedLegs(db.legs, db.nextLegId, planId, LegDefs(db.plans[planId].config, legacyCount).value);
    }
  }

  predicate IsLive(config: Option<Config>, legType: LegType, legIndex: int)
  {
    legType.Bridge? || IsLiveVenueKey(ExtractVenueKey(config, legIndex))
  }

  predicate HasLiveLeg(config: Option<Config>, defs: seq<LegEntry>)
  {
    exists i :: 0 <= i < |defs| && defs[i].LegEntry? && IsLive(config, defs[i].legType, defs[i].legIndex)
  }

  /** `estimate` is the cost breakdown, or nothing when the estimator threw. */
  function BeginExecution(db: Db, planId: nat, legacyCount: int, estimate: Option<TradeCost.PlanCost>, floor: real)
    : (Db, Reply)
  {
    if planId !in db.plans then (db, Refused(NotFound))
    else
      var plan := db.plans[planId];
      if plan.state != Armed then (db, Refused(Conflict))
      else if exists l :: l in db.legs && db.legs[l].planId == planId then (db, Refused(Conflict))
      else
        var defs := LegDefs(plan.config, legacyCount);
        if defs.None? then (db, Refused(Internal))
        else if estimate.Some? && HasLiveLeg(plan.config, defs.value) && !TradeCost.Allowed(estimate.value, floor)
        then (db, Refused(Unprocessable))
        else
          (db.(plans := db.plans[planId := plan.(state := Executing, entityVersion := plan.entityVersion + 1)],
               legs := CreateLegs(db.legs, db.nextLegId, planId, defs.value),
               nextLegId := db.nextLegId + |defs.value|),
           Began(db.nextLegId, |defs.value|))
  }

  // ----- markSent -----

  /** Phase 1: reserve the leg before anything is broadcast. */
  function BeginMarkSent(db: Db, planId: nat, legId: nat, liveHalted: bool): (Db, Reply)
  {
    if planId !in db.plans then (db, Refused(NotFound))
    else if db.plans[planId].state != Executing then (db, Refused(Conflict))
    else if !HasLeg(db, planId, legId) then (db, Refused(NotFound))
    else
      var leg := db.legs[legId];
      if leg.state != Created then (db, Refused(Conflict))
      else if IsLive(db.plans[planId].config, leg.legType, leg.legIndex) && liveHalted then (db, Refused(Conflict))
      else (WithLeg(db, legId, Moved(leg, Submitting)), View(Moved(leg, Submitting)))
  }

  datatype OnChainMeta = OnChainMeta(txHash: nat, status: TxStatus)

  function FindTx(onChain: seq<OnChainTx>, txHash: nat): (found: Option<OnChainTx>)
    ensures found.Some? ==> found.value in onChain && found.value.txHash == txHash
    ensures found.None? ==> forall i :: 0 <= i < |onChain| ==> onChain[i].txHash != txHash
  {
    if onChain == [] then None
    else if onChain[0].txHash == txHash then Some(onChain[0])
    else FindTx(onChain[1..], txHash)
  }

  /** `persistWithOutcome`: insert unless the hash is already there; the row that is there is returned. */
  function PersistWithOutcome(onChain: seq<OnChainTx>, legId: nat, meta: OnChainMeta): (seq<OnChainTx>, OnChainTx)
  {
    var existing := FindTx(onChain, meta.txHash);
    if existing.Some? then (onChain, existing.value)
    else
      var row := OnChainTx(meta.txHash, legId, meta.status);
      (onChain + [row], row)
  }

  /** `writeOutboxRow`: skipped when a row with this type and entity id exists. */
  function WriteOutboxRow(outbox: seq<OutboxEvent>, key: EventKey): seq<OutboxEvent>
  {
    if CountKey(outbox, key) > 0 then outbox else outbox + [OutboxEvent(key, 0.0, 0, None)]
  }

  function TerminalKey(row: OnChainTx): EventKey
  {
    if row.status.Confirmed? then TransactionConfirmed(row.txHash) else TransactionFailed(row.txHash)
  }

  /** Phase 3: record the broadcast outcome. */
  function CompleteMarkSent(db: Db, planId: nat, legId: nat, externalOrderId: nat, meta: Option<OnChainMeta>)
    : (Db, Reply)
  {
    if !HasLeg(db, planId, legId) then (db, Refused(NotFound))
    else
      var leg := db.legs[legId];
      if leg.state != Submitting then (db, View(leg))
      else
        var sent := Moved(leg, Sent).(venueRef := Some(externalOrderId));
        var moved := WithLeg(db, legId, sent);
        if meta.None? then (moved, View(sent))
        else
          var (rows, row) := PersistWithOutcome(db.onChain, legId, meta.value);
          (moved.(onChain := rows, outbox := WriteOutboxRow(db.outbox, TerminalKey(row))), View(sent))
  }

  /** `failSubmittingLeg`. */
  function FailSubmittingLeg(db: Db, planId: nat, legId: nat): (Db, Reply)
  {
    if !HasLeg(db, planId, legId) || db.legs[legId].state != Submitting then (db, Nothing)
    else (WithLeg(db, legId, Moved(db.legs[legId], Failed)), Nothing)
  }

  /** The states a venue's terminal refusal may name. */
  datatype TerminalState = VenueRejected | VenueTimedOut | VenueFailed

  function LegStateOf(t: TerminalState): LegState
  {
    match t case VenueRejected => Rejected case VenueTimedOut => TimedOut case VenueFailed => Failed
  }

  /** `applyTerminalSubmitError`. */
  function ApplyTerminalSubmitError(db: Db, planId: nat, legId: nat, terminal: TerminalState): (Db, Reply)
  {
    if !HasLeg(db, planId, legId) then (db, Refused(NotFound))
    else
      var leg := db.legs[legId];
      if leg.state != Submitting then (db, View(leg))
      else (WithLeg(db, legId, Moved(leg, LegStateOf(terminal))), View(Moved(leg, LegStateOf(terminal))))
  }

  // ----- acknowledge and fill -----

  function MarkAcknowledged(db: Db, planId: nat, legId: nat): (Db, Reply)
  {
    if planId !in db.plans || !HasLeg(db, planId, legId) then (db, Refused(NotFound))
    else
      var leg := db.legs[legId];
      if leg.state != Sent then (db, Refused(Conflict))
      else (WithLeg(db, legId, Moved(leg, Acknowledged)), View(Moved(leg, Acknowledged)))
  }

  datatype FillMode = Full | Partial

  datatype Fill = Fill(
    idempotencyKey: Option<nat>,
    clientKnownVersion: Option<int>,
    mode: FillMode,
    cumulativeFilled: Option<real>)

  /** The leg after a fill that passed every check, or the error it is refused with. */
  function FilledLeg(leg: Leg, fill: Fill): Option<Leg>
  {
    if fill.mode.Full? then Some(Moved(leg, Filled).(filled := leg.target))
    else if fill.cumulativeFilled.None? then None
    else
      var c := fill.cumulativeFilled.value;
      if c <= leg.filled || c > leg.target then None
      else Some(Moved(leg, if c >= leg.target then Filled else PartiallyFilled).(filled := c))
  }

  function FillError(fill: Fill): Error
  {
    if fill.mode.Partial? && fill.cumulativeFilled.None? then BadRequest else Conflict
  }

  /** The insert into the idempotency table; nothing on a unique violation. */
  function InsertFill(fills: map<FillKey, FillRecord>, key: FillKey, leg: Leg): Option<map<FillKey, FillRecord>>
  {
    if key in fills then None else Some(fills[key := FillRecord(leg.state, leg.filled, leg.entityVersion)])
  }

  predicate IsReplay(db: Db, legId: nat, fill: Fill)
  {
    fill.idempotencyKey.Some? && FillKey(legId, fill.idempotencyKey.value) in db.fills
  }

  /** The checks of `applyFill` up to the point where it starts to write. */
  predicate FillProceeds(db: Db, planId: nat, legId: nat, fill: Fill)
  {
    && planId in db.plans && HasLeg(db, planId, legId)
    && !IsReplay(db, legId, fill)
    && (fill.clientKnownVersion.Some? ==> fill.clientKnownVersion.value == db.legs[legId].entityVersion)
    && (db.legs[legId].state == Acknowledged || db.legs[legId].state == PartiallyFilled)
    && FilledLeg(db.legs[legId], fill).Some?
  }

  function ApplyFill(db: Db, planId: nat, legId: nat, fill: Fill): (Db, Reply)
  {
    if planId !in db.plans || !HasLeg(db, planId, legId) then (db, Refused(NotFound))
    else
      var leg := db.legs[legId];
      if IsReplay(db, legId, fill) then (db, View(leg))
      else if fill.clientKnownVersion.Some? && fill.clientKnownVersion.value != leg.entityVersion
      then (db, Refused(Conflict))
      else if leg.state != Acknowledged && leg.state != PartiallyFilled then (db, Refused(Conflict))
      else if FilledLeg(leg, fill).None? then (db, Refused(FillError(fill)))
      else
        var saved := FilledLeg(leg, fill).value;
        var moved := WithLeg(db, legId, saved);
        var events := if saved.state == Filled
                      then db.outbox + [OutboxEvent(LegFilled(legId), saved.filled, saved.entityVersion, None)]
                      else db.outbox;
        if fill.idempotencyKey.None? then (moved.(outbox := events), View(saved))
        else
          var fills := InsertFill(db.fills, FillKey(legId, fill.idempotencyKey.value), saved);
          if fills.None? then (db, View(leg))
          else (moved.(outbox := events, fills := fills.value), View(saved))
  }

  // ----- plan completion, plan failure, reaper -----

  /** `tryMarkPlanCompletedWhenAllLegsFilled`. */
  function TryComplete(db: Db, planId: nat): (Db, Reply)
  {
    if !(exists l :: l in db.legs && db.legs[l].planId == planId) then (db, Nothing)
    else if exists l :: l in db.legs && db.legs[l].planId == planId && db.legs[l].state != Filled then (db, Nothing)
    else if planId !in db.plans || db.plans[planId].state != Executing then (db, Nothing)
    else
      var plan := db.plans[planId].(state := Completed, entityVersion := db.plans[planId].entityVersion + 1);
      (db.(plans := db.plans[planId := plan],
           outbox := db.outbox + [OutboxEvent(PlanCompletion(planId), 0.0, plan.entityVersion, plan.reservationId)]),
       Nothing)
  }

  predicate Sweepable(leg: Leg, planId: nat)
  {
    leg.planId == planId && (leg.state == Created || leg.state == Submitting || leg.state == PartiallyFilled)
  }

  /** `markFailed`: fail the plan and sweep its unfinished legs. */
  function MarkPlanFailed(db: Db, planId: nat): (Db, Reply)
  {
    if planId !in db.plans then (db, Nothing)
    else if db.plans[planId].state != Armed && db.plans[planId].state != Executing then (db, Nothing)
    else
      var plan := db.plans[planId].(state := PlanFailed, entityVersion := db.plans[planId].entityVersion + 1);
      (db.(plans := db.plans[planId := plan],
           legs := map l | l in db.legs ::
                     if Sweepable(db.legs[l], planId) then Moved(db.legs[l], Failed) else db.legs[l],
           outbox := db.outbox + [OutboxEvent(PlanFailure(planId), 0.0, plan.entityVersion, plan.reservationId)]),
       Nothing)
  }

  predicate HasConfirmedTx(db: Db, legId: nat)
  {
    exists i :: 0 <= i < |db.onChain| && db.onChain[i].legId == legId && db.onChain[i].status.Confirmed?
  }

  /** `reapStuckLeg`; `txHash` is the reference of the confirmed transaction found, if any. */
  function ReapStuckLeg(db: Db, legId: nat, txHash: nat): (Db, Reply)
  {
    if legId !in db.legs || db.legs[legId].state != Submitting then (db, Nothing)
    else if HasConfirmedTx(db, legId) then
      var sent := Moved(db.legs[legId], Sent);
      (WithLeg(db, legId, if sent.venueRef.None? then sent.(venueRef := Some(txHash)) else sent), Nothing)
    else (WithLeg(db, legId, Moved(db.legs[legId], Failed)), Nothing)
  }

  // ----- all transactions -----

  datatype Op =
    | OpCreatePlan(planId: nat, config: Option<Config>)
    | OpLink(planId: nat, reservationId: nat, checksPass: bool)
    | OpArm(planId: nat, checksPass: bool)
    | OpBegin(planId: nat, legacyCount: int, estimate: Option<TradeCost.PlanCost>, floor: real)
    | OpBeginMarkSent(planId: nat, legId: nat, liveHalted: bool)
    | OpCompleteMarkSent(planId: nat, legId: nat, externalOrderId: nat, meta: Option<OnChainMeta>)
    | OpFailSubmitting(planId: nat, legId: nat)
    | OpTerminal(planId: nat, legId: nat, terminal: TerminalState)
    | OpAcknowledge(planId: nat, legId: nat)
    | OpFill(planId: nat, legId: nat, fill: Fill)
    | OpComplete(planId: nat)
    | OpFailPlan(planId: nat)
    | OpReap(legId: nat, txHash: nat)

  function Apply(db: Db, op: Op): (Db, Reply)
  {
    match op
    case OpCreatePlan(p, config) => CreatePlan(db, p, config)
    case OpLink(p, reservationId, pass) => LinkReservation(db, p, reservationId, pass)
    case OpArm(p, pass) => ArmPlan(db, p, pass)
    case OpBegin(p, n, estimate, floor) => BeginExecution(db, p, n, estimate, floor)
    case OpBeginMarkSent(p, l, halted) => BeginMarkSent(db, p, l, halted)
    case OpCompleteMarkSent(p, l, order, meta) => CompleteMarkSent(db, p, l, order, meta)
    case OpFailSubmitting(p, l) => FailSubmittingLeg(db, p, l)
    case OpTerminal(p, l, terminal) => ApplyTerminalSubmitError(db, p, l, terminal)
    case OpAcknowledge(p, l) => MarkAcknowledged(db, p, l)
    case OpFill(p, l, fill) => ApplyFill(db, p, l, fill)
    case OpComplete(p) => TryComplete(db, p)
    case OpFailPlan(p) => MarkPlanFailed(db, p)
    case OpReap(l, txHash) => ReapStuckLeg(db, l, txHash)
  }

  function Run(db: Db, ops: seq<Op>): Db
    decreases |ops|
  {
    if ops == [] then db else Run(Apply(db, ops[0]).0, ops[1..])
  }

  lemma {:induction false} RunAppend(db: Db, first: seq<Op>, later: seq<Op>)
    ensures Run(db, first + later) == Run(Run(db, first), later)
    decreases |first|
  {
    if first == [] {
      assert first + later == later;
    } else {
      assert (first + later)[1..] == first[1..] + later;
      RunAppend(Apply(db, first[0]).0, first[1..], later);
    }
  }
}
