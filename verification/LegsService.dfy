/** The legs service and its collaborators as one object over tables that change in place. */
module LegsService {
  import opened Prelude
  import opened Playbook
  import opened ExecutionDb
  import opened LegInvariants
  import TradeCost
  import Protocol = MarkSentProtocol

  /** What the `try` around the submission may throw. */
  datatype Thrown =
    | TerminalSubmitError(terminal: TerminalState)
    | SubmitClientError
    | SubmitTransientError
    | HttpException(error: Error)

  datatype SubmitResult = Accepted(externalOrderId: nat, meta: Option<OnChainMeta>) | Threw(thrown: Thrown)

  /** The body of the `try`. A bridge leg without parameters is failed there, and the 422 is thrown there. */
  function SubmitLeg(db: Db, planId: nat, legId: nat, answer: Protocol.Answer): (Db, SubmitResult)
  {
    match Protocol.Submission(db, planId, legId, answer)
    case NoBridgeParams => (FailSubmittingLeg(db, planId, legId).0, Threw(HttpException(Unprocessable)))
    case Answered(Submitted(order, meta)) => (db, Accepted(order, meta))
    case Answered(VenueTerminal(terminal)) => (db, Threw(TerminalSubmitError(terminal)))
    case Answered(VenueClientError) => (db, Threw(SubmitClientError))
    case Answered(Transient) => (db, Threw(SubmitTransientError))
  }

  /** The `catch`: two classes of error are told apart, and every other is taken for transient. */
  function HandleSubmitError(db: Db, planId: nat, legId: nat, thrown: Thrown): (Db, Reply)
  {
    match thrown
    case TerminalSubmitError(terminal) => ApplyTerminalSubmitError(db, planId, legId, terminal)
    case SubmitClientError => (FailSubmittingLeg(db, planId, legId).0, Refused(Unprocessable))
    case _ => (db, Refused(Unavailable))
  }

  /** `markSent` from its first transaction to its last, with the transactions that others commit while it
      broadcasts. */
  function MarkSentCall(db: Db, planId: nat, legId: nat, liveHalted: bool, answer: Protocol.Answer, others: seq<Op>)
    : (Db, Reply)
  {
    var (begun, reply) := BeginMarkSent(db, planId, legId, liveHalted);
    if !reply.View? then (begun, reply)
    else
      var (submitted, result) := SubmitLeg(Run(begun, others), planId, legId, answer);
      match result
      case Accepted(order, meta) => CompleteMarkSent(submitted, planId, legId, order, meta)
      case Threw(thrown) => HandleSubmitError(submitted, planId, legId, thrown)
  }

  /** `applyFill` with the completion check that follows a committed fill. */
  function FillAndComplete(db: Db, planId: nat, legId: nat, fill: Fill): (Db, Reply)
  {
    var (filled, reply) := ApplyFill(db, planId, legId, fill);
    if FillProceeds(db, planId, legId, fill) && reply.View? && reply.leg.state == Filled
    then (TryComplete(filled, planId).0, reply)
    else (filled, reply)
  }

  function Definitions(count: nat): seq<LegEntry>
  {
    seq(count, (i: nat) => LegacyDef(i))
  }

  /** The legs once the definitions from the `i`-th on have been inserted too. */
  ghost function Rest(legs: map<nat, Leg>, next: nat, planId: nat, defs: seq<LegEntry>, i: nat): map<nat, Leg>
    requires i <= |defs| && AllEntries(defs)
  {
    CreateLegs(legs, next, planId, defs[i..])
  }

  lemma RestUnfolds(legs: map<nat, Leg>, next: nat, planId: nat, defs: seq<LegEntry>, i: nat)
    requires i < |defs| && defs[i].LegEntry?
    ensures AllEntries(defs) ==>
              Rest(legs, next, planId, defs, i)
              == Rest(legs[next := NewLeg(planId, defs[i])], next + 1, planId, defs, i + 1)
  {
  }

  class LegsService {
    var plans: map<nat, Plan>
    var legs: map<nat, Leg>
    var nextLegId: nat
    var fills: map<FillKey, FillRecord>
    var onChain: seq<OnChainTx>
    var outbox: seq<OutboxEvent>

    constructor (db: Db)
      ensures Tables() == db
    {
      plans, legs, nextLegId := db.plans, db.legs, db.nextLegId;
      fills, onChain, outbox := db.fills, db.onChain, db.outbox;
    }

    ghost function Tables(): Db
      reads this
    {
      Db(plans, legs, nextLegId, fills, onChain, outbox)
    }

    predicate Has(planId: nat, legId: nat)
      reads this
    {
      legId in legs && legs[legId].planId == planId
    }

    // ----- plans before they begin -----

    method CreatePlan(planId: nat, config: Option<Config>) returns (reply: Reply)
      modifies this`plans
      ensures (Tables(), reply) == ExecutionDb.CreatePlan(old(Tables()), planId, config)
    {
      if planId in plans || !PositiveConfig(config) {
        return Refused(BadRequest);
      }
      plans := plans[planId := Plan(Planned, 1, config, None)];
      return Nothing;
    }

    method LinkReservation(planId: nat, reservationId: nat, checksPass: bool) returns (reply: Reply)
      modifies this`plans
      ensures (Tables(), reply) == ExecutionDb.LinkReservation(old(Tables()), planId, reservationId, checksPass)
    {
      if planId !in plans {
        return Refused(NotFound);
      }
      var plan := plans[planId];
      if plan.state != Planned || !checksPass {
        return Refused(Conflict);
      }
      plans := plans[planId := plan.(reservationId := Some(reservationId), state := Reserved,
                                     entityVersion := plan.entityVersion + 1)];
      return Nothing;
    }

    method ArmPlan(planId: nat, checksPass: bool) returns (reply: Reply)
      modifies this`plans, this`outbox
      ensures (Tables(), reply) == ExecutionDb.ArmPlan(old(Tables()), planId, checksPass)
    {
      if planId !in plans {
        return Refused(NotFound);
      }
      if plans[planId].state != Reserved || plans[planId].reservationId.None? || !checksPass {
        return Refused(Conflict);
      }
      var saved := plans[planId].(state := Armed, entityVersion := plans[planId].entityVersion + 1);
      plans := plans[planId := saved];
      outbox := outbox + [OutboxEvent(PlanArming(planId), 0.0, saved.entityVersion, saved.reservationId)];
      return Nothing;
    }

    // ----- beginExecution -----

    /** Inserts a leg per definition; a `null` definition stops it halfway. */
    method InsertLegs(planId: nat, defs: seq<LegEntry>) returns (ok: bool)
      modifies this`legs, this`nextLegId
      ensures ok <==> AllEntries(defs)
      ensures ok ==> legs == CreateLegs(old(legs), old(nextLegId), planId, defs)
                     && nextLegId == old(nextLegId) + |defs|
    {
      for i := 0 to |defs|
        invariant AllEntries(defs[..i])
        invariant nextLegId == old(nextLegId) + i
        invariant AllEntries(defs) ==>
                    Rest(legs, nextLegId, planId, defs, i) == Rest(old(legs), old(nextLegId), planId, defs, 0)
      {
        if defs[i].NullEntry? {
          return false;
        }
        RestUnfolds(legs, nextLegId, planId, defs, i);
        legs := legs[nextLegId := NewLeg(planId, defs[i])];
        nextLegId := nextLegId + 1;
      }
      assert defs[..|defs|] == defs && defs[|defs|..] == [] && defs[0..] == defs;
      return true;
    }

    /** Refusals after the first write undo every write. */
    method BeginExecution(planId: nat, legacyCount: int, estimate: Option<TradeCost.PlanCost>, floor: real)
      returns (reply: Reply)
      modifies this`plans, this`legs, this`nextLegId
      ensures (Tables(), reply) == ExecutionDb.BeginExecution(old(Tables()), planId, legacyCount, estimate, floor)
    {
      if planId !in plans {
        return Refused(NotFound);
      }
      var plan := plans[planId];
      if plan.state != Armed {
        return Refused(Conflict);
      }
      var existing := legs;
      if exists l :: l in existing && existing[l].planId == planId {
        return Refused(Conflict);
      }
      var savedPlans, savedLegs, first := plans, legs, nextLegId;
      plans := plans[planId := plan.(state := Executing, entityVersion := plan.entityVersion + 1)];
      var defs := MultiLegs(plan.config);
      if defs == [] {
        defs := Definitions(LegacyLegCount(legacyCount));
      }
      assert AllEntries(defs) ==> LegDefs(plan.config, legacyCount) == Some(defs);
      assert !AllEntries(defs) ==> LegDefs(plan.config, legacyCount) == None;
      var ok := InsertLegs(planId, defs);
      if !ok {
        plans, legs, nextLegId := savedPlans, savedLegs, first;
        return Refused(Internal);
      }
      var live := HasLiveLeg(plan.config, defs);
      if estimate.Some? && live && !TradeCost.Allowed(estimate.value, floor) {
        plans, legs, nextLegId := savedPlans, savedLegs, first;
        return Refused(Unprocessable);
      }
      return Began(first, |defs|);
    }

    // ----- markSent -----

    method MoveLeg(legId: nat, state: LegState) returns (leg: Leg)
      requires legId in legs
      modifies this`legs
      ensures leg == Moved(old(legs)[legId], state) && legs == old(legs)[legId := leg]
    {
      leg := legs[legId].(state := state, entityVersion := legs[legId].entityVersion + 1);
      legs := legs[legId := leg];
    }

    method BeginMarkSent(planId: nat, legId: nat, liveHalted: bool) returns (reply: Reply)
      modifies this`legs
      ensures (Tables(), reply) == ExecutionDb.BeginMarkSent(old(Tables()), planId, legId, liveHalted)
    {
      if planId !in plans {
        return Refused(NotFound);
      }
      if plans[planId].state != Executing {
        return Refused(Conflict);
      }
      if !Has(planId, legId) {
        return Refused(NotFound);
      }
      var leg := legs[legId];
      if leg.state != Created {
        return Refused(Conflict);
      }
      var isLive := leg.legType.Bridge? || IsLiveVenueKey(ExtractVenueKey(plans[planId].config, leg.legIndex));
      if isLive && liveHalted {
        return Refused(Conflict);
      }
      var saved := MoveLeg(legId, Submitting);
      return View(saved);
    }

    /** Inserts the on-chain row unless its hash is known. */
    method PersistWithOutcome(legId: nat, meta: OnChainMeta) returns (row: OnChainTx)
      modifies this`onChain
      ensures (onChain, row) == ExecutionDb.PersistWithOutcome(old(onChain), legId, meta)
    {
      var existing := FindTx(onChain, meta.txHash);
      if existing.Some? {
        return existing.value;
      }
      row := OnChainTx(meta.txHash, legId, meta.status);
      onChain := onChain + [row];
    }

    /** Inserts an outbox row unless one with its key exists. */
    method WriteOutboxRow(key: EventKey)
      modifies this`outbox
      ensures outbox == ExecutionDb.WriteOutboxRow(old(outbox), key)
    {
      if CountKey(outbox, key) > 0 {
        return;
      }
      outbox := outbox + [OutboxEvent(key, 0.0, 0, None)];
    }

    method CompleteMarkSent(planId: nat, legId: nat, externalOrderId: nat, meta: Option<OnChainMeta>)
      returns (reply: Reply)
      modifies this`legs, this`onChain, this`outbox
      ensures (Tables(), reply) == ExecutionDb.CompleteMarkSent(old(Tables()), planId, legId, externalOrderId, meta)
    {
      if !Has(planId, legId) {
        return Refused(NotFound);
      }
      var leg := legs[legId];
      if leg.state != Submitting {
        return View(leg);
      }
      var saved := leg.(state := Sent, entityVersion := leg.entityVersion + 1, venueRef := Some(externalOrderId));
      legs := legs[legId := saved];
      if meta.Some? {
        var row := PersistWithOutcome(legId, meta.value);
        if row.status.Confirmed? {
          WriteOutboxRow(TransactionConfirmed(row.txHash));
        } else {
          WriteOutboxRow(TransactionFailed(row.txHash));
        }
      }
      return View(saved);
    }

    method FailSubmittingLeg(planId: nat, legId: nat)
      modifies this`legs
      ensures Tables() == ExecutionDb.FailSubmittingLeg(old(Tables()), planId, legId).0
    {
      if !Has(planId, legId) || legs[legId].state != Submitting {
        return;
      }
      var _ := MoveLeg(legId, Failed);
    }

    method ApplyTerminalSubmitError(planId: nat, legId: nat, terminal: TerminalState) returns (reply: Reply)
      modifies this`legs
      ensures (Tables(), reply) == ExecutionDb.ApplyTerminalSubmitError(old(Tables()), planId, legId, terminal)
    {
      if !Has(planId, legId) {
        return Refused(NotFound);
      }
      if legs[legId].state != Submitting {
        return View(legs[legId]);
      }
      var saved := MoveLeg(legId, LegStateOf(terminal));
      return View(saved);
    }

    /** Whatever other callers commit while this one broadcasts. */
    method OtherTransactions(ops: seq<Op>)
      modifies this
      ensures Tables() == Run(old(Tables()), ops)
    {
      for i := 0 to |ops|
        invariant Run(Tables(), ops[i..]) == Run(old(Tables()), ops)
      {
        assert ops[i..][0] == ops[i] && ops[i..][1..] == ops[i + 1..];
        Perform(ops[i]);
      }
      assert ops[|ops|..] == [];
    }

    method Perform(op: Op)
      modifies this
      ensures Tables() == Apply(old(Tables()), op).0
    {
      match op {
        case OpCreatePlan(p, config) => var _ := CreatePlan(p, config);
        case OpLink(p, reservationId, pass) => var _ := LinkReservation(p, reservationId, pass);
        case OpArm(p, pass) => var _ := ArmPlan(p, pass);
        case OpBegin(p, n, estimate, floor) => var _ := BeginExecution(p, n, estimate, floor);
        case OpBeginMarkSent(p, l, halted) => var _ := BeginMarkSent(p, l, halted);
        case OpCompleteMarkSent(p, l, order, meta) => var _ := CompleteMarkSent(p, l, order, meta);
        case OpFailSubmitting(p, l) => FailSubmittingLeg(p, l);
        case OpTerminal(p, l, terminal) => var _ := ApplyTerminalSubmitError(p, l, terminal);
        case OpAcknowledge(p, l) => var _ := MarkAcknowledged(p, l);
        case OpFill(p, l, fill) => var _ := ApplyFillInTransaction(p, l, fill);
        case OpComplete(p) => TryComplete(p);
        case OpFailPlan(p) => MarkPlanFailed(p);
        case OpReap(l, txHash) => ReapStuckLeg(l, txHash);
      }
    }

    /** The body of the `try`; the plan and the leg keep what it reads of them. */
    method SubmitInTry(planId: nat, legId: nat, answer: Protocol.Answer) returns (result: SubmitResult)
      modifies this`legs
      ensures (Tables(), result) == SubmitLeg(old(Tables()), planId, legId, answer)
    {
      var isBridgeLeg := legId in legs && legs[legId].legType.Bridge?;
      if isBridgeLeg && planId in plans && !HasBridgeParams(plans[planId].config, legs[legId].legIndex) {
        FailSubmittingLeg(planId, legId);
        return Threw(HttpException(Unprocessable));
      }
      match answer {
        case Submitted(order, meta) => return Accepted(order, if isBridgeLeg then None else meta);
        case VenueTerminal(terminal) => return Threw(TerminalSubmitError(terminal));
        case VenueClientError => return Threw(SubmitClientError);
        case Transient => return Threw(SubmitTransientError);
      }
    }

    /** `answer` is what the venue or bridge says to the submission, and `others` what commits meanwhile. */
    method MarkSent(planId: nat, legId: nat, liveHalted: bool, answer: Protocol.Answer, others: seq<Op>)
      returns (reply: Reply)
      modifies this
      ensures (Tables(), reply) == MarkSentCall(old(Tables()), planId, legId, liveHalted, answer, others)
    {
      reply := BeginMarkSent(planId, legId, liveHalted);
      if reply.Refused? {
        return;
      }
      OtherTransactions(others);
      var result := SubmitInTry(planId, legId, answer);
      if result.Accepted? {
        reply := CompleteMarkSent(planId, legId, result.externalOrderId, result.meta);
        return;
      }
      match result.thrown {
        case TerminalSubmitError(terminal) =>
          reply := ApplyTerminalSubmitError(planId, legId, terminal);
        case SubmitClientError =>
          FailSubmittingLeg(planId, legId);
          reply := Refused(Unprocessable);
        case _ =>
          reply := Refused(Unavailable);
      }
    }

    // ----- acknowledge and fill -----

    method MarkAcknowledged(planId: nat, legId: nat) returns (reply: Reply)
      modifies this`legs
      ensures (Tables(), reply) == ExecutionDb.MarkAcknowledged(old(Tables()), planId, legId)
    {
      if planId !in plans {
        return Refused(NotFound);
      }
      if !Has(planId, legId) {
        return Refused(NotFound);
      }
      if legs[legId].state != Sent {
        return Refused(Conflict);
      }
      var saved := MoveLeg(legId, Acknowledged);
      return View(saved);
    }

    /** The transaction of `applyFill`. The lookup and the insert of the key sit under the same leg lock, so
        the insert never finds the key taken. */
    method ApplyFillInTransaction(planId: nat, legId: nat, fill: Fill) returns (reply: Reply)
      modifies this`legs, this`fills, this`outbox
      ensures (Tables(), reply) == ExecutionDb.ApplyFill(old(Tables()), planId, legId, fill)
    {
      if planId !in plans || !Has(planId, legId) {
        return Refused(NotFound);
      }
      var leg := legs[legId];
      if fill.idempotencyKey.Some? && FillKey(legId, fill.idempotencyKey.value) in fills {
        return View(leg);
      }
      if fill.clientKnownVersion.Some? && fill.clientKnownVersion.value != leg.entityVersion {
        return Refused(Conflict);
      }
      if leg.state != Acknowledged && leg.state != PartiallyFilled {
        return Refused(Conflict);
      }
      var nextFilled, nextState := leg.target, Filled;
      if fill.mode.Partial? {
        if fill.cumulativeFilled.None? {
          return Refused(BadRequest);
        }
        var c := fill.cumulativeFilled.value;
        if c <= leg.filled {
          return Refused(Conflict);
        }
        if c > leg.target {
          return Refused(Conflict);
        }
        nextFilled := c;
        nextState := if c >= leg.target then Filled else PartiallyFilled;
      }
      var saved := leg.(filled := nextFilled, state := nextState, entityVersion := leg.entityVersion + 1);
      assert FilledLeg(leg, fill) == Some(saved);
      legs := legs[legId := saved];
      if fill.idempotencyKey.Some? {
        var inserted := InsertFill(fills, FillKey(legId, fill.idempotencyKey.value), saved);
        assert inserted.Some?;
        fills := inserted.value;
      }
      if saved.state == Filled {
        outbox := outbox + [OutboxEvent(LegFilled(legId), saved.filled, saved.entityVersion, None)];
      }
      return View(saved);
    }

    method ApplyFill(planId: nat, legId: nat, fill: Fill) returns (reply: Reply)
      modifies this
      ensures (Tables(), reply) == FillAndComplete(old(Tables()), planId, legId, fill)
    {
      ghost var before := Tables();
      var replay := fill.idempotencyKey.Some? && FillKey(legId, fill.idempotencyKey.value) in fills;
      reply := ApplyFillInTransaction(planId, legId, fill);
      assert FillProceeds(before, planId, legId, fill) <==> reply.View? && !replay;
      if reply.View? && !replay && reply.leg.state == Filled {
        TryComplete(planId);
      }
    }

    // ----- plans and the reaper -----

    method TryComplete(planId: nat)
      modifies this`plans, this`outbox
      ensures Tables() == ExecutionDb.TryComplete(old(Tables()), planId).0
    {
      var all := legs;
      if !(exists l :: l in all && all[l].planId == planId) {
        return;
      }
      if exists l :: l in all && all[l].planId == planId && all[l].state != Filled {
        return;
      }
      if planId !in plans || plans[planId].state != Executing {
        return;
      }
      var saved := plans[planId].(state := Completed, entityVersion := plans[planId].entityVersion + 1);
      plans := plans[planId := saved];
      outbox := outbox + [OutboxEvent(PlanCompletion(planId), 0.0, saved.entityVersion, saved.reservationId)];
    }

    /** The sweep of `markFailed`, one leg at a time. */
    method FailUnfinishedLegs(planId: nat)
      modifies this`legs
      ensures legs.Keys == old(legs).Keys
      ensures forall l :: l in legs ==>
                legs[l] == if Sweepable(old(legs)[l], planId) then Moved(old(legs)[l], Failed) else old(legs)[l]
    {
      var before := legs;
      var todo := set l | l in before && Sweepable(before[l], planId);
      while todo != {}
        invariant legs.Keys == before.Keys
        invariant forall l :: l in todo ==> l in before && Sweepable(before[l], planId)
        invariant forall l :: l in before ==>
                    legs[l] == if Sweepable(before[l], planId) && l !in todo then Moved(before[l], Failed)
                               else before[l]
        decreases |todo|
      {
        var l :| l in todo;
        var _ := MoveLeg(l, Failed);
        todo := todo - {l};
      }
    }

    method MarkPlanFailed(planId: nat)
      modifies this`plans, this`legs, this`outbox
      ensures Tables() == ExecutionDb.MarkPlanFailed(old(Tables()), planId).0
    {
      if planId !in plans {
        return;
      }
      if plans[planId].state != Armed && plans[planId].state != Executing {
        return;
      }
      var saved := plans[planId].(state := PlanFailed, entityVersion := plans[planId].entityVersion + 1);
      plans := plans[planId := saved];
      FailUnfinishedLegs(planId);
      assert legs == ExecutionDb.MarkPlanFailed(old(Tables()), planId).0.legs;
      outbox := outbox + [OutboxEvent(PlanFailure(planId), 0.0, saved.entityVersion, saved.reservationId)];
    }

    method ReapStuckLeg(legId: nat, txHash: nat)
      modifies this`legs
      ensures Tables() == ExecutionDb.ReapStuckLeg(old(Tables()), legId, txHash).0
    {
      if legId !in legs || legs[legId].state != Submitting {
        return;
      }
      var rows := onChain;
      if exists i :: 0 <= i < |rows| && rows[i].legId == legId && rows[i].status.Confirmed? {
        var saved := MoveLeg(legId, Sent);
        if saved.venueRef.None? {
          legs := legs[legId := saved.(venueRef := Some(txHash))];
        }
      } else {
        var _ := MoveLeg(legId, Failed);
      }
    }
  }

  // ----- the last fill completes the plan -----

  predicate OthersFilled(db: Db, planId: nat, legId: nat)
  {
    forall l :: l in db.legs && db.legs[l].planId == planId && l != legId ==> db.legs[l].state == Filled
  }

  /** A fill call completes its plan exactly when it commits, fills its leg, and all other legs of the
      executing plan are filled already; the plan then gets its one completion row, with its reservation. */
  lemma LastFillCompletes(db: Db, planId: nat, legId: nat, fill: Fill)
    requires planId in db.plans && db.plans[planId].state == Executing
    ensures var (after, reply) := FillAndComplete(db, planId, legId, fill);
            var completes := FillProceeds(db, planId, legId, fill)
                             && FilledLeg(db.legs[legId], fill).value.state == Filled
                             && OthersFilled(db, planId, legId);
            && planId in after.plans
            && (after.plans[planId].state == Completed <==> completes)
            && (completes ==>
                  CountKey(after.outbox, PlanCompletion(planId)) == CountKey(db.outbox, PlanCompletion(planId)) + 1
                  && after.outbox[|after.outbox| - 1].reservationId == db.plans[planId].reservationId)
  {
    var filled := ApplyFill(db, planId, legId, fill).0;
    if FillProceeds(db, planId, legId, fill) {
      var saved := FilledLeg(db.legs[legId], fill).value;
      assert filled.legs == db.legs[legId := saved] && filled.plans == db.plans;
      if saved.state == Filled {
        assert filled.legs[legId].planId == planId;
        CompletesIff(filled, planId, legId);
        SameOthers(db, filled, planId, legId);
        var event := OutboxEvent(LegFilled(legId), saved.filled, saved.entityVersion, None);
        assert filled.outbox == db.outbox + [event];
        CountKeyAppend(db.outbox, event, PlanCompletion(planId));
      }
    }
  }

  lemma SameOthers(db: Db, after: Db, planId: nat, legId: nat)
    requires legId in db.legs && legId in after.legs && after.legs == db.legs[legId := after.legs[legId]]
    ensures OthersFilled(after, planId, legId) <==> OthersFilled(db, planId, legId)
  {
    forall l | l in db.legs && l != legId
      ensures l in after.legs && after.legs[l] == db.legs[l]
    {
    }
    assert forall l :: l in after.legs ==> l in db.legs;
  }

  lemma CompletesIff(db: Db, planId: nat, legId: nat)
    requires planId in db.plans && db.plans[planId].state == Executing
    requires HasLeg(db, planId, legId) && db.legs[legId].state == Filled
    ensures var after := TryComplete(db, planId).0;
            if OthersFilled(db, planId, legId) then
              && planId in after.plans && after.plans[planId].state == Completed
              && |after.outbox| == |db.outbox| + 1
              && after.outbox[|db.outbox|].reservationId == db.plans[planId].reservationId
              && CountKey(after.outbox, PlanCompletion(planId)) == CountKey(db.outbox, PlanCompletion(planId)) + 1
            else after == db
  {
  }

  // ----- what a 503 means -----

  /** Where the last transaction leaves a leg that it finds submitting. */
  function StateAfter(lacking: bool, answer: Protocol.Answer): LegState
  {
    if lacking then Failed
    else
      match answer
      case Submitted(_, _) => Sent
      case VenueTerminal(terminal) => LegStateOf(terminal)
      case VenueClientError => Failed
      case Transient => Submitting
  }

  /** A call that has reserved its leg, whatever others commit while it broadcasts. It answers 503 if and only if
      the submission was transient or the leg is a bridge leg without parameters, never 422 for the latter, and
      with the leg otherwise. A leg that is still submitting at the last transaction moves as the answer says,
      and any other stays as others have left it. So a 503, which says that the leg is submitting, says so
      rightly if and only if others have left it submitting and bridge parameters were not the reason. */
  lemma UnavailableIff(db: Db, planId: nat, legId: nat, liveHalted: bool, answer: Protocol.Answer, others: seq<Op>)
    requires IdsBelowNext(db) && BeginMarkSent(db, planId, legId, liveHalted).1.View?
    ensures var later := Run(BeginMarkSent(db, planId, legId, liveHalted).0, others);
            var (after, reply) := MarkSentCall(db, planId, legId, liveHalted, answer, others);
            var lacking := Protocol.LacksBridgeParams(db, planId, legId);
            && HasLeg(later, planId, legId) && HasLeg(after, planId, legId)
            && (reply == Refused(Unavailable) <==> lacking || answer.Transient?)
            && (reply == Refused(Unprocessable) <==> !lacking && answer.VenueClientError?)
            && (!lacking && (answer.Submitted? || answer.VenueTerminal?) ==> reply == View(after.legs[legId]))
            && (later.legs[legId].state == Submitting ==> after.legs[legId].state == StateAfter(lacking, answer))
            && (later.legs[legId].state != Submitting ==> after.legs[legId] == later.legs[legId])
            && (reply == Refused(Unavailable) ==>
                  (after.legs[legId].state == Submitting <==> later.legs[legId].state == Submitting && !lacking))
  {
    var begun := BeginMarkSent(db, planId, legId, liveHalted).0;
    StepEvolves(db, OpBeginMarkSent(planId, legId, liveHalted));
    RunKeepsIdentity(begun, others);
    SettlesAsAnswered(Run(begun, others), planId, legId, answer);
  }

  /** The part of the call after its broadcast. */
  lemma SettlesAsAnswered(later: Db, planId: nat, legId: nat, answer: Protocol.Answer)
    requires HasLeg(later, planId, legId) && planId in later.plans
    ensures var (submitted, result) := SubmitLeg(later, planId, legId, answer);
            var (after, reply) := match result
                                  case Accepted(order, meta) => CompleteMarkSent(submitted, planId, legId, order, meta)
                                  case Threw(thrown) => HandleSubmitError(submitted, planId, legId, thrown);
            var lacking := Protocol.LacksBridgeParams(later, planId, legId);
            && HasLeg(after, planId, legId)
            && (reply == Refused(Unavailable) <==> lacking || answer.Transient?)
            && (reply == Refused(Unprocessable) <==> !lacking && answer.VenueClientError?)
            && (!lacking && (answer.Submitted? || answer.VenueTerminal?) ==> reply == View(after.legs[legId]))
            && (later.legs[legId].state == Submitting ==> after.legs[legId].state == StateAfter(lacking, answer))
            && (later.legs[legId].state != Submitting ==> after.legs[legId] == later.legs[legId])
  {
  }

  // ----- a whole markSent is a run of the protocol -----

  predicate IsOf(e: Protocol.Event, c: nat)
  {
    match e
    case Call(d, _, _, _) => d == c
    case Submit(d, _) => d == c
    case Settle(d) => d == c
    case Crash(d) => d == c
    case Transaction(_) => false
  }

  /** While a caller broadcasts, whatever everyone else does leaves it where it is. */
  lemma {:induction false} OthersKeepCaller(w: Protocol.World, others: seq<Protocol.Event>, c: nat)
    requires c in w.callers && forall i :: 0 <= i < |others| ==> !IsOf(others[i], c)
    ensures c in Protocol.Run(w, others).callers && Protocol.Run(w, others).callers[c] == w.callers[c]
    decreases |others|
  {
    if others != [] {
      assert !IsOf(others[0], c);
      OthersKeepCaller(Protocol.Step(w, others[0]), others[1..], c);
    }
  }

  /** A call of `markSent` is a run of the protocol, with any events of others between its reservation and its
      submission: other callers' first transactions, submissions and crashes among them. It comes to the call on
      the transactions that those events commit, and broadcasts once if it has reserved and can. */
  lemma MarkSentIsRun(w: Protocol.World, c: nat, planId: nat, legId: nat, liveHalted: bool, answer: Protocol.Answer,
                      others: seq<Protocol.Event>)
    returns (ops: seq<Op>)
    requires c !in w.callers && forall i :: 0 <= i < |others| ==> !IsOf(others[i], c)
    ensures var call := Protocol.Call(c, planId, legId, liveHalted);
            var meanwhile := Protocol.Run(Protocol.Step(w, call), others);
            var end := Protocol.Step(Protocol.Step(meanwhile, Protocol.Submit(c, answer)), Protocol.Settle(c));
            if BeginMarkSent(w.db, planId, legId, liveHalted).1.View? then
              && meanwhile.db == Run(Protocol.Step(w, call).db, ops)
              && end.db == MarkSentCall(w.db, planId, legId, liveHalted, answer, ops).0
              && end.callers == meanwhile.callers - {c} && end.reserved == meanwhile.reserved
              && end.broadcasts == (if Protocol.LacksBridgeParams(meanwhile.db, planId, legId) then meanwhile.broadcasts
                                    else meanwhile.broadcasts + [legId])
            else Protocol.Step(w, call) == w && MarkSentCall(w.db, planId, legId, liveHalted, answer, ops).0 == w.db
  {
    ops := [];
    if BeginMarkSent(w.db, planId, legId, liveHalted).1.View? {
      var v := Protocol.Step(w, Protocol.Call(c, planId, legId, liveHalted));
      ops := Protocol.RunIsDbRun(v, others);
      OthersKeepCaller(v, others, c);
      SettlesAsCalled(Protocol.Run(v, others), c, planId, legId, answer);
    }
  }

  /** Submission and last transaction of a broadcasting caller, as events and as the call does them. */
  lemma SettlesAsCalled(w: Protocol.World, c: nat, planId: nat, legId: nat, answer: Protocol.Answer)
    requires c in w.callers && w.callers[c] == Protocol.Broadcasting(planId, legId)
    ensures var end := Protocol.Step(Protocol.Step(w, Protocol.Submit(c, answer)), Protocol.Settle(c));
            var (submitted, result) := SubmitLeg(w.db, planId, legId, answer);
            && end.db == (match result
                          case Accepted(order, meta) => CompleteMarkSent(submitted, planId, legId, order, meta).0
                          case Threw(thrown) => HandleSubmitError(submitted, planId, legId, thrown).0)
            && end.callers == w.callers - {c} && end.reserved == w.reserved
            && end.broadcasts == (if Protocol.LacksBridgeParams(w.db, planId, legId) then w.broadcasts
                                  else w.broadcasts + [legId])
  {
    var submitted := Protocol.Step(w, Protocol.Submit(c, answer));
    assert submitted.callers - {c} == w.callers - {c};
  }
}
