/** What every execution-orchestrator transaction keeps, and what it does to one leg. */
module LegInvariants {
  import opened Prelude
  import opened Playbook
  import opened ExecutionDb
  import TradeCost

  // ----- one leg -----

  /** The transitions a leg may make; every one of them adds one to its version. */
  ghost predicate LegMove(before: Leg, after: Leg)
  {
    && after.planId == before.planId && after.legIndex == before.legIndex
    && after.legType == before.legType && after.target == before.target
    && after.entityVersion == before.entityVersion + 1
    && match after.state
       case Created => false
       case Submitting => before.state == Created && after.filled == before.filled
       case Sent => before.state == Submitting && after.filled == before.filled
       case Acknowledged => before.state == Sent && after.filled == before.filled
       case PartiallyFilled =>
         (before.state == Acknowledged || before.state == PartiallyFilled)
         && before.filled < after.filled < after.target
       case Filled =>
         (before.state == Acknowledged || before.state == PartiallyFilled) && after.filled == after.target
       case Rejected => before.state == Submitting && after.filled == before.filled
       case TimedOut => before.state == Submitting && after.filled == before.filled
       case Failed =>
         (before.state == Created || before.state == Submitting || before.state == PartiallyFilled)
         && after.filled == before.filled
  }

  ghost predicate IdsBelowNext(db: Db)
  {
    forall l :: l in db.legs ==> l < db.nextLegId
  }

  /** Legs are never deleted; each keeps still or makes one move; new legs are created ones with new ids. */
  ghost predicate LegsEvolve(db: Db, after: Db)
  {
    && db.nextLegId <= after.nextLegId
    && (forall l :: l in db.legs ==>
          l in after.legs && (after.legs[l] == db.legs[l] || LegMove(db.legs[l], after.legs[l])))
    && (forall l :: l in after.legs && l !in db.legs ==>
          db.nextLegId <= l < after.nextLegId && after.legs[l].state == Created
          && after.legs[l].entityVersion == 1 && after.legs[l].filled == 0.0)
  }

  lemma BeginEvolves(db: Db, planId: nat, legacyCount: int, estimate: Option<TradeCost.PlanCost>, floor: real)
    requires IdsBelowNext(db)
    ensures LegsEvolve(db, BeginExecution(db, planId, legacyCount, estimate, floor).0)
  {
    if planId in db.plans && LegDefs(db.plans[planId].config, legacyCount).Some? {
      CreateOnlyAdds(db.legs, db.nextLegId, planId, LegDefs(db.plans[planId].config, legacyCount).value);
    }
  }

  lemma CompleteMarkSentEvolves(db: Db, planId: nat, legId: nat, order: nat, meta: Option<OnChainMeta>)
    ensures LegsEvolve(db, CompleteMarkSent(db, planId, legId, order, meta).0)
  {
  }

  lemma TerminalEvolves(db: Db, planId: nat, legId: nat, terminal: TerminalState)
    ensures LegsEvolve(db, ApplyTerminalSubmitError(db, planId, legId, terminal).0)
  {
  }

  lemma FillEvolves(db: Db, planId: nat, legId: nat, fill: Fill)
    ensures LegsEvolve(db, ApplyFill(db, planId, legId, fill).0)
  {
  }

  lemma FailPlanEvolves(db: Db, planId: nat)
    ensures LegsEvolve(db, MarkPlanFailed(db, planId).0)
  {
  }

  lemma ReapEvolves(db: Db, legId: nat, txHash: nat)
    ensures LegsEvolve(db, ReapStuckLeg(db, legId, txHash).0)
  {
  }

  lemma OtherEvolves(db: Db, planId: nat, legId: nat, halted: bool)
    ensures LegsEvolve(db, BeginMarkSent(db, planId, legId, halted).0)
    ensures LegsEvolve(db, FailSubmittingLeg(db, planId, legId).0)
    ensures LegsEvolve(db, MarkAcknowledged(db, planId, legId).0)
    ensures LegsEvolve(db, TryComplete(db, planId).0)
  {
  }

  lemma PlanStepsKeepLegs(db: Db, op: Op)
    requires op.OpCreatePlan? || op.OpLink? || op.OpArm?
    ensures Apply(db, op).0 == db.(plans := Apply(db, op).0.plans, outbox := Apply(db, op).0.outbox)
    ensures LegsEvolve(db, Apply(db, op).0)
  {
  }

  lemma StepEvolves(db: Db, op: Op)
    requires IdsBelowNext(db)
    ensures LegsEvolve(db, Apply(db, op).0) && IdsBelowNext(Apply(db, op).0)
  {
    match op {
      case OpBegin(p, n, estimate, floor) => BeginEvolves(db, p, n, estimate, floor);
      case OpBeginMarkSent(p, l, halted) => OtherEvolves(db, p, l, halted);
      case OpCompleteMarkSent(p, l, order, meta) => CompleteMarkSentEvolves(db, p, l, order, meta);
      case OpFailSubmitting(p, l) => OtherEvolves(db, p, l, true);
      case OpTerminal(p, l, terminal) => TerminalEvolves(db, p, l, terminal);
      case OpAcknowledge(p, l) => OtherEvolves(db, p, l, true);
      case OpFill(p, l, fill) => FillEvolves(db, p, l, fill);
      case OpComplete(p) => OtherEvolves(db, p, 0, true);
      case OpFailPlan(p) => FailPlanEvolves(db, p);
      case OpReap(l, txHash) => ReapEvolves(db, l, txHash);
      case _ => PlanStepsKeepLegs(db, op);
    }
  }

  // ----- quantities -----

  /** With a positive target: never above it, exactly at it when filled and only then, and zero until
      the first fill. */
  ghost predicate QuantityOk(leg: Leg)
  {
    && leg.target > 0.0 && 0.0 <= leg.filled <= leg.target
    && (leg.filled == leg.target <==> leg.state == Filled)
    && (leg.state == PartiallyFilled ==> leg.filled > 0.0)
    && (leg.state != PartiallyFilled && leg.state != Filled && leg.state != Failed ==> leg.filled == 0.0)
  }

  ghost predicate Quantities(db: Db)
  {
    forall l :: l in db.legs ==> QuantityOk(db.legs[l])
  }

  /** Every configured leg has a positive target quantity. */
  ghost predicate PositiveTargets(db: Db)
  {
    forall p :: p in db.plans ==> PositiveConfig(db.plans[p].config)
  }

  lemma NewLegsPositive(db: Db, planId: nat, legacyCount: int, estimate: Option<TradeCost.PlanCost>, floor: real)
    requires PositiveTargets(db)
    ensures var after := BeginExecution(db, planId, legacyCount, estimate, floor).0;
            forall l :: l in after.legs && l !in db.legs ==> after.legs[l].target > 0.0
  {
    BegunLegs(db, planId, legacyCount);
    var after := BeginExecution(db, planId, legacyCount, estimate, floor).0;
    if after != db {
      var config := db.plans[planId].config;
      var defs := LegDefs(config, legacyCount).value;
      forall i | 0 <= i < |defs|
        ensures defs[i].targetQuantity > 0.0
      {
        if MultiLegs(config) != [] {
          assert defs[i] == MultiLegs(config)[i];
        }
      }
    }
  }

  lemma OnlyBeginAdds(db: Db, op: Op)
    requires !op.OpBegin?
    ensures Apply(db, op).0.legs.Keys == db.legs.Keys
  {
  }

  lemma FillKeepsIds(db: Db, planId: nat, legId: nat, fill: Fill)
    ensures ApplyFill(db, planId, legId, fill).0.legs.Keys == db.legs.Keys
    ensures ApplyFill(db, planId, legId, fill).0.plans == db.plans
  {
  }

  lemma CompleteKeepsIds(db: Db, planId: nat, legId: nat, order: nat, meta: Option<OnChainMeta>)
    ensures CompleteMarkSent(db, planId, legId, order, meta).0.legs.Keys == db.legs.Keys
    ensures CompleteMarkSent(db, planId, legId, order, meta).0.plans == db.plans
  {
  }

  /** Plans are never deleted and keep their configuration. Each keeps still or makes one move; its
      reservation is set by the move out of `planned` and kept from then on. New plans are planned ones. */
  ghost predicate PlansEvolve(db: Db, after: Db)
  {
    && (forall p :: p in db.plans ==>
          && p in after.plans
          && after.plans[p].config == db.plans[p].config
          && (after.plans[p].reservationId == db.plans[p].reservationId || db.plans[p].state == Planned)
          && (after.plans[p] == db.plans[p] || PlanMove(db.plans[p], after.plans[p])))
    && (forall p :: p in after.plans && p !in db.plans ==>
          after.plans[p].state == Planned && PositiveConfig(after.plans[p].config))
  }

  ghost predicate PlanMove(before: Plan, after: Plan)
  {
    && after.entityVersion == before.entityVersion + 1
    && match after.state
       case Planned => false
       case Reserved => before.state == Planned && after.reservationId.Some?
       case Armed => before.state == Reserved
       case Executing => before.state == Armed
       case Completed => before.state == Executing
       case PlanFailed => before.state == Armed || before.state == Executing
  }

  lemma BeginPlansEvolve(db: Db, planId: nat, legacyCount: int, estimate: Option<TradeCost.PlanCost>, floor: real)
    ensures PlansEvolve(db, BeginExecution(db, planId, legacyCount, estimate, floor).0)
  {
  }

  lemma CreatePlansEvolve(db: Db, planId: nat, config: Option<Config>)
    ensures PlansEvolve(db, CreatePlan(db, planId, config).0)
  {
  }

  lemma ReadyPlansEvolve(db: Db, planId: nat, reservationId: nat, checksPass: bool)
    ensures PlansEvolve(db, LinkReservation(db, planId, reservationId, checksPass).0)
    ensures PlansEvolve(db, ArmPlan(db, planId, checksPass).0)
  {
  }

  lemma EndPlansEvolve(db: Db, planId: nat)
    ensures PlansEvolve(db, TryComplete(db, planId).0)
    ensures PlansEvolve(db, MarkPlanFailed(db, planId).0)
  {
  }

  lemma LegStepsKeepPlans(db: Db, op: Op)
    requires op.OpBeginMarkSent? || op.OpFailSubmitting? || op.OpTerminal? || op.OpAcknowledge? || op.OpReap?
    ensures Apply(db, op).0.plans == db.plans
  {
  }

  lemma StepPlansEvolve(db: Db, op: Op)
    ensures PlansEvolve(db, Apply(db, op).0)
  {
    match op {
      case OpCreatePlan(p, config) => CreatePlansEvolve(db, p, config);
      case OpLink(p, reservationId, pass) => ReadyPlansEvolve(db, p, reservationId, pass);
      case OpArm(p, pass) => ReadyPlansEvolve(db, p, 0, pass);
      case OpBegin(p, n, estimate, floor) => BeginPlansEvolve(db, p, n, estimate, floor);
      case OpFill(p, l, fill) => FillKeepsIds(db, p, l, fill);
      case OpCompleteMarkSent(p, l, order, meta) => CompleteKeepsIds(db, p, l, order, meta);
      case OpComplete(p) => EndPlansEvolve(db, p);
      case OpFailPlan(p) => EndPlansEvolve(db, p);
      case _ => LegStepsKeepPlans(db, op);
    }
  }

  lemma StepQuantities(db: Db, op: Op)
    requires IdsBelowNext(db) && Quantities(db) && PositiveTargets(db)
    ensures Quantities(Apply(db, op).0) && PositiveTargets(Apply(db, op).0)
  {
    var after := Apply(db, op).0;
    StepEvolves(db, op);
    StepPlansEvolve(db, op);
    if op.OpBegin? {
      NewLegsPositive(db, op.planId, op.legacyCount, op.estimate, op.floor);
    } else {
      OnlyBeginAdds(db, op);
    }
    EvolvedQuantities(db, after);
  }

  lemma EvolvedQuantities(db: Db, after: Db)
    requires Quantities(db) && LegsEvolve(db, after)
    requires forall l :: l in after.legs && l !in db.legs ==> after.legs[l].target > 0.0
    ensures Quantities(after)
  {
  }

  // ----- what stays over any run -----

  /** What a leg or a plan is, as opposed to how far it has got. */
  ghost predicate KeepsIdentity(db: Db, after: Db)
  {
    && IdsBelowNext(after)
    && (forall l :: l in db.legs ==>
          && l in after.legs && after.legs[l].planId == db.legs[l].planId
          && after.legs[l].legIndex == db.legs[l].legIndex && after.legs[l].legType == db.legs[l].legType)
    && (forall p :: p in db.plans ==> p in after.plans && after.plans[p].config == db.plans[p].config)
  }

  lemma {:induction false} RunKeepsIdentity(db: Db, ops: seq<Op>)
    requires IdsBelowNext(db)
    ensures KeepsIdentity(db, Run(db, ops))
    decreases |ops|
  {
    if ops != [] {
      StepEvolves(db, ops[0]);
      StepPlansEvolve(db, ops[0]);
      RunKeepsIdentity(Apply(db, ops[0]).0, ops[1..]);
    }
  }
}
