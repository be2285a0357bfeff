/** Whole runs of execution-orchestrator transactions, in any order and any number. */
module LegHistory {
  import opened Prelude
  import opened Playbook
  import opened ExecutionDb
  import opened LegInvariants
  import opened LegEvents
  import TradeCost

  // ----- the remaining invariants -----

  predicate PastSubmission(state: LegState)
  {
    state.Sent? || state.Acknowledged? || state.PartiallyFilled? || state.Filled? || state.Failed?
  }

  /** An on-chain row names a leg that has left `submitting`. */
  ghost predicate ProofsPastSubmission(db: Db)
  {
    forall i :: 0 <= i < |db.onChain| ==>
      db.onChain[i].legId in db.legs && PastSubmission(db.legs[db.onChain[i].legId].state)
  }

  ghost predicate LegsHaveBegunPlans(db: Db)
  {
    forall l :: l in db.legs ==>
      && db.legs[l].planId in db.plans
      && var s := db.plans[db.legs[l].planId].state; s == Executing || s == Completed || s == PlanFailed
  }

  /** A completed plan has legs, and all of them are filled. */
  ghost predicate CompletedMeansFilled(db: Db)
  {
    forall p :: IsPlanIn(db, p, Completed) ==> HasOnlyFilledLegs(db, p)
  }

  /** Outbox payloads agree, for ever, with the rows they were written from. */
  ghost predicate PayloadsTrue(db: Db)
  {
    forall i :: 0 <= i < |db.outbox| ==> PayloadTrue(db, db.outbox[i])
  }

  ghost predicate PayloadTrue(db: Db, e: OutboxEvent)
  {
    match e.key
    case LegFilled(l) =>
      IsFilled(db, l) && e.quantity == db.legs[l].filled && e.entityVersion == db.legs[l].entityVersion
    case PlanArming(p) => HasBeenArmed(db, p) && e.reservationId == db.plans[p].reservationId
    case PlanCompletion(p) =>
      && IsPlanIn(db, p, Completed)
      && e.reservationId == db.plans[p].reservationId && e.entityVersion == db.plans[p].entityVersion
    case PlanFailure(p) =>
      && IsPlanIn(db, p, PlanFailed)
      && e.reservationId == db.plans[p].reservationId && e.entityVersion == db.plans[p].entityVersion
    case _ => true
  }

  /** A plan past `planned` carries a reservation. */
  ghost predicate PlansCarryReservations(db: Db)
  {
    forall p :: p in db.plans && db.plans[p].state != Planned ==> db.plans[p].reservationId.Some?
  }

  ghost predicate Inv(db: Db)
  {
    && IdsBelowNext(db) && PositiveTargets(db) && Quantities(db)
    && EventsDue(db) && UniqueHashes(db.onChain)
    && ProofsPastSubmission(db) && LegsHaveBegunPlans(db) && CompletedMeansFilled(db) && PayloadsTrue(db)
    && PlansCarryReservations(db)
  }

  /** A database with empty tables: plans are created, reserved and armed in the run itself. */
  ghost predicate Fresh(db: Db)
  {
    db.plans == map[] && db.legs == map[] && db.fills == map[] && db.onChain == [] && db.outbox == []
  }

  lemma FreshInv(db: Db)
    requires Fresh(db)
    ensures Inv(db)
  {
  }

  // ----- steps -----

  lemma ProofRows(db: Db, op: Op)
    ensures var after := Apply(db, op).0;
            after.onChain == db.onChain
            || (exists row :: after.onChain == db.onChain + [row]
                              && row.legId in after.legs && after.legs[row.legId].state == Sent)
  {
  }

  lemma StepProofs(db: Db, op: Op)
    requires IdsBelowNext(db) && ProofsPastSubmission(db)
    ensures ProofsPastSubmission(Apply(db, op).0)
  {
    StepEvolves(db, op);
    ProofRows(db, op);
  }

  lemma BeginPlans(db: Db, planId: nat, legacyCount: int, estimate: Option<TradeCost.PlanCost>, floor: real)
    ensures var after := BeginExecution(db, planId, legacyCount, estimate, floor).0;
            forall l :: l in after.legs && l !in db.legs ==>
              after.legs[l].planId == planId && IsPlanIn(db, planId, Armed) && IsPlanIn(after, planId, Executing)
  {
    BegunLegs(db, planId, legacyCount);
  }

  lemma NewLegsBelong(db: Db, op: Op)
    ensures var after := Apply(db, op).0;
            forall l :: l in after.legs && l !in db.legs ==>
              IsPlanIn(db, after.legs[l].planId, Armed) && IsPlanIn(after, after.legs[l].planId, Executing)
  {
    if op.OpBegin? {
      BeginPlans(db, op.planId, op.legacyCount, op.estimate, op.floor);
    } else {
      OnlyBeginAdds(db, op);
    }
  }

  lemma StepPlans(db: Db, op: Op)
    requires IdsBelowNext(db) && LegsHaveBegunPlans(db)
    ensures LegsHaveBegunPlans(Apply(db, op).0)
  {
    StepEvolves(db, op);
    StepPlansEvolve(db, op);
    NewLegsBelong(db, op);
  }

  lemma OnlyCompleteCompletes(db: Db, op: Op, p: nat)
    requires IsPlanIn(Apply(db, op).0, p, Completed) && !IsPlanIn(db, p, Completed)
    ensures Apply(db, op).0.legs == db.legs
    ensures exists l :: HasLeg(db, p, l)
    ensures forall l :: HasLeg(db, p, l) ==> IsFilled(db, l)
  {
    match op {
      case OpFill(q, l, fill) => FillKeepsIds(db, q, l, fill);
      case OpCompleteMarkSent(q, l, order, meta) => CompleteKeepsIds(db, q, l, order, meta);
      case OpComplete(q) =>
        var l :| l in db.legs && db.legs[l].planId == q;
        assert HasLeg(db, p, l);
      case _ =>
    }
  }

  ghost predicate HasOnlyFilledLegs(db: Db, p: nat)
  {
    (exists l :: HasLeg(db, p, l)) && (forall l :: HasLeg(db, p, l) ==> IsFilled(db, l))
  }

  lemma FilledBefore(db: Db, op: Op, p: nat)
    requires CompletedMeansFilled(db) && IsPlanIn(Apply(db, op).0, p, Completed)
    ensures HasOnlyFilledLegs(db, p)
  {
    if !IsPlanIn(db, p, Completed) {
      OnlyCompleteCompletes(db, op, p);
    }
  }

  lemma FilledAfter(db: Db, after: Db, p: nat)
    requires LegsEvolve(db, after) && HasOnlyFilledLegs(db, p)
    requires forall l :: l in after.legs && l !in db.legs ==> after.legs[l].planId != p
    ensures HasOnlyFilledLegs(after, p)
  {
    var l :| HasLeg(db, p, l);
    assert HasLeg(after, p, l);
    forall l | HasLeg(after, p, l)
      ensures IsFilled(after, l)
    {
      assert HasLeg(db, p, l) && IsFilled(db, l);
    }
  }

  lemma StepCompleted(db: Db, op: Op)
    requires IdsBelowNext(db) && CompletedMeansFilled(db)
    ensures CompletedMeansFilled(Apply(db, op).0)
  {
    var after := Apply(db, op).0;
    StepEvolves(db, op);
    NewLegsBelong(db, op);
    forall p | IsPlanIn(after, p, Completed)
      ensures HasOnlyFilledLegs(after, p)
    {
      FilledBefore(db, op, p);
      FilledAfter(db, after, p);
    }
  }

  /** Whatever an outbox row says of a filled leg or an ended plan stays true. */
  lemma PayloadStays(db: Db, after: Db, e: OutboxEvent)
    requires LegsEvolve(db, after) && PlansEvolve(db, after)
    requires PayloadTrue(db, e)
    ensures PayloadTrue(after, e)
  {
  }

  lemma NewPayload(db: Db, op: Op)
    ensures var after := Apply(db, op).0;
            |db.outbox| <= |after.outbox| && after.outbox[..|db.outbox|] == db.outbox
            && forall i :: |db.outbox| <= i < |after.outbox| ==> PayloadTrue(after, after.outbox[i])
  {
    match op {
      case OpFill(p, l, fill) => FillPayload(db, p, l, fill);
      case OpCompleteMarkSent(p, l, order, meta) => SentPayload(db, p, l, order, meta);
      case OpComplete(p) => CompletionPayload(db, p);
      case OpFailPlan(p) => FailurePayload(db, p);
      case _ =>
    }
  }

  lemma FillPayload(db: Db, planId: nat, legId: nat, fill: Fill)
    ensures var after := ApplyFill(db, planId, legId, fill).0;
            |db.outbox| <= |after.outbox| && after.outbox[..|db.outbox|] == db.outbox
            && forall i :: |db.outbox| <= i < |after.outbox| ==> PayloadTrue(after, after.outbox[i])
  {
  }

  lemma SentPayload(db: Db, planId: nat, legId: nat, order: nat, meta: Option<OnChainMeta>)
    ensures var after := CompleteMarkSent(db, planId, legId, order, meta).0;
            |db.outbox| <= |after.outbox| && after.outbox[..|db.outbox|] == db.outbox
            && forall i :: |db.outbox| <= i < |after.outbox| ==> PayloadTrue(after, after.outbox[i])
  {
  }

  lemma CompletionPayload(db: Db, planId: nat)
    ensures var after := TryComplete(db, planId).0;
            |db.outbox| <= |after.outbox| && after.outbox[..|db.outbox|] == db.outbox
            && forall i :: |db.outbox| <= i < |after.outbox| ==> PayloadTrue(after, after.outbox[i])
  {
  }

  lemma FailurePayload(db: Db, planId: nat)
    ensures var after := MarkPlanFailed(db, planId).0;
            |db.outbox| <= |after.outbox| && after.outbox[..|db.outbox|] == db.outbox
            && forall i :: |db.outbox| <= i < |after.outbox| ==> PayloadTrue(after, after.outbox[i])
  {
  }

  lemma StepPayloads(db: Db, op: Op)
    requires IdsBelowNext(db) && PayloadsTrue(db)
    ensures PayloadsTrue(Apply(db, op).0)
  {
    var after := Apply(db, op).0;
    StepEvolves(db, op);
    StepPlansEvolve(db, op);
    NewPayload(db, op);
    forall i | 0 <= i < |after.outbox|
      ensures PayloadTrue(after, after.outbox[i])
    {
      if i < |db.outbox| {
        assert after.outbox[i] == after.outbox[..|db.outbox|][i];
        PayloadStays(db, after, db.outbox[i]);
      }
    }
  }

  lemma StepInv(db: Db, op: Op)
    requires Inv(db)
    ensures Inv(Apply(db, op).0)
  {
    StepEvolves(db, op);
    StepQuantities(db, op);
    StepEvents(db, op);
    StepProofs(db, op);
    StepPlans(db, op);
    StepCompleted(db, op);
    StepPayloads(db, op);
    StepPlansEvolve(db, op);
  }

  lemma {:induction false} RunInv(db: Db, ops: seq<Op>)
    requires Inv(db)
    ensures Inv(Run(db, ops))
    decreases |ops|
  {
    if ops != [] {
      StepInv(db, ops[0]);
      RunInv(Apply(db, ops[0]).0, ops[1..]);
    }
  }

  // ----- what holds in every reachable state -----

  /** Plans, fills, proofs and outcomes of every run from an empty database: the quantity of a leg is at its
      target exactly when it is filled and never above; a leg has one LegFilled row if it is filled and none
      otherwise, with its final quantity and version; on-chain hashes are unique and each row has the one
      terminal event its status calls for; a plan has one arming row once it has been armed; an ended plan has
      one completion or one failure row, never both; a completed plan has all its legs filled; and every plan
      past `planned` carries a reservation. */
  lemma ReachableStates(db: Db, ops: seq<Op>)
    requires Fresh(db)
    ensures var s := Run(db, ops);
            && (forall l :: l in s.legs ==>
                  s.legs[l].filled <= s.legs[l].target
                  && (s.legs[l].filled == s.legs[l].target <==> s.legs[l].state == Filled))
            && (forall l :: CountKey(s.outbox, LegFilled(l)) == One(IsFilled(s, l)))
            && UniqueHashes(s.onChain)
            && (forall i :: 0 <= i < |s.onChain| ==>
                  var tx := s.onChain[i];
                  && CountKey(s.outbox, TransactionConfirmed(tx.txHash)) == One(tx.status.Confirmed?)
                  && CountKey(s.outbox, TransactionFailed(tx.txHash)) == One(!tx.status.Confirmed?))
            && (forall p :: CountKey(s.outbox, PlanCompletion(p)) + CountKey(s.outbox, PlanFailure(p))
                            == One(IsPlanIn(s, p, Completed) || IsPlanIn(s, p, PlanFailed)))
            && (forall p :: CountKey(s.outbox, PlanArming(p)) == One(HasBeenArmed(s, p)))
            && CompletedMeansFilled(s) && PayloadsTrue(s) && PlansCarryReservations(s)
  {
    FreshInv(db);
    RunInv(db, ops);
    var s := Run(db, ops);
    forall l | l in s.legs
      ensures s.legs[l].filled <= s.legs[l].target
      ensures s.legs[l].filled == s.legs[l].target <==> s.legs[l].state == Filled
    {
      assert QuantityOk(s.legs[l]);
    }
    forall i | 0 <= i < |s.onChain|
      ensures CountKey(s.outbox, TransactionConfirmed(s.onChain[i].txHash)) == One(s.onChain[i].status.Confirmed?)
      ensures CountKey(s.outbox, TransactionFailed(s.onChain[i].txHash)) == One(!s.onChain[i].status.Confirmed?)
    {
      var tx := s.onChain[i];
      assert HasTx(s, tx.txHash, tx.status.Confirmed?);
      assert !HasTx(s, tx.txHash, !tx.status.Confirmed?);
    }
  }

  /** The reaper never finds a confirmed transaction of a leg that is still submitting, because the
      proof commits with the move to `sent`; so reaping a stuck leg always fails it. */
  lemma ReaperAlwaysFails(db: Db, ops: seq<Op>, legId: nat, txHash: nat)
    requires Fresh(db)
    requires legId in Run(db, ops).legs && Run(db, ops).legs[legId].state == Submitting
    ensures !HasConfirmedTx(Run(db, ops), legId)
    ensures ReapStuckLeg(Run(db, ops), legId, txHash).0.legs[legId].state == Failed
  {
    FreshInv(db);
    RunInv(db, ops);
  }

  /** A row with the hash is there, the one this step inserted unless the hash was known before, and
      the outbox has the one event of its status. */
  ghost predicate ProofRecorded(db: Db, after: Db, legId: nat, meta: OnChainMeta)
  {
    var row := FindTx(after.onChain, meta.txHash);
    && row.Some? && CountKey(after.outbox, TerminalKey(row.value)) == 1
    && (FindTx(db.onChain, meta.txHash).None? ==> row.value == OnChainTx(meta.txHash, legId, meta.status))
  }

  lemma SentLeavesProof(db: Db, planId: nat, legId: nat, order: nat, meta: OnChainMeta)
    requires Inv(db) && HasLeg(db, planId, legId) && db.legs[legId].state == Submitting
    ensures ProofRecorded(db, CompleteMarkSent(db, planId, legId, order, Some(meta)).0, legId, meta)
  {
    var after := CompleteMarkSent(db, planId, legId, order, Some(meta)).0;
    StepInv(db, OpCompleteMarkSent(planId, legId, order, Some(meta)));
    var (rows, row) := PersistWithOutcome(db.onChain, legId, meta);
    assert row in after.onChain by {
      assert FindTx(db.onChain, meta.txHash).None? ==> rows[|db.onChain|] == row;
    }
    var i :| 0 <= i < |after.onChain| && after.onChain[i] == row;
    assert FindTx(after.onChain, meta.txHash).value == row;
    assert HasTx(after, row.txHash, row.status.Confirmed?);
    assert CountKey(after.outbox, TerminalKey(row)) == Due(after, TerminalKey(row));
  }

  /** The leg moves from `submitting` to `sent` with the order id and one more version; no other leg, no plan
      and no fill changes. */
  ghost predicate MovesToSent(db: Db, after: Db, planId: nat, legId: nat, order: nat)
  {
    && HasLeg(db, planId, legId) && db.legs[legId].state == Submitting
    && after.legs == db.legs[legId := db.legs[legId].(state := Sent, entityVersion := db.legs[legId].entityVersion + 1,
                                                      venueRef := Some(order))]
    && after.plans == db.plans && after.fills == db.fills && after.nextLegId == db.nextLegId
  }

  /** Phase 3 is all or nothing: either nothing changes, or the leg moves from `submitting` to `sent`
      and, given on-chain metadata, a row with that hash and its one event are there as well.
      Applying it again changes nothing. */
  lemma SentIsAtomic(db: Db, planId: nat, legId: nat, order: nat, meta: Option<OnChainMeta>)
    requires Inv(db)
    ensures var after := CompleteMarkSent(db, planId, legId, order, meta).0;
            && (after == db || MovesToSent(db, after, planId, legId, order))
            && (after != db && meta.Some? ==> ProofRecorded(db, after, legId, meta.value))
            && (after != db && meta.None? ==> after.onChain == db.onChain && after.outbox == db.outbox)
            && CompleteMarkSent(after, planId, legId, order, meta).0 == after
  {
    if meta.Some? && HasLeg(db, planId, legId) && db.legs[legId].state == Submitting {
      SentLeavesProof(db, planId, legId, order, meta.value);
    }
  }

  // ----- versions count transitions -----

  function VersionOf(db: Db, l: nat): nat
  {
    if l in db.legs then db.legs[l].entityVersion else 1
  }

  predicate Changes(db: Db, op: Op, l: nat)
  {
    var after := Apply(db, op).0;
    l in db.legs && l in after.legs && after.legs[l] != db.legs[l]
  }

  function Transitions(db: Db, ops: seq<Op>, l: nat): nat
    decreases |ops|
  {
    if ops == [] then 0 else One(Changes(db, ops[0], l)) + Transitions(Apply(db, ops[0]).0, ops[1..], l)
  }

  lemma StepVersion(db: Db, op: Op, l: nat)
    requires IdsBelowNext(db)
    ensures VersionOf(Apply(db, op).0, l) == VersionOf(db, l) + One(Changes(db, op, l))
    ensures IdsBelowNext(Apply(db, op).0)
  {
    StepEvolves(db, op);
  }

  /** The version of a leg, less one, counts the transitions it has made. */
  lemma {:induction false} VersionCountsTransitions(db: Db, ops: seq<Op>, l: nat)
    requires IdsBelowNext(db)
    ensures VersionOf(Run(db, ops), l) == VersionOf(db, l) + Transitions(db, ops, l)
    decreases |ops|
  {
    if ops != [] {
      StepVersion(db, ops[0], l);
      VersionCountsTransitions(Apply(db, ops[0]).0, ops[1..], l);
    }
  }

  /** A fill changes the tables exactly when it passes every check. Then it raises the filled quantity, to the
      target or to the given cumulative quantity, fills the leg exactly when it reaches the target and, with a
      key, records the key. Otherwise only a repeated key is answered with the leg; the rest is refused. */
  lemma FillCommits(db: Db, planId: nat, legId: nat, fill: Fill)
    requires Quantities(db)
    ensures var (after, reply) := ApplyFill(db, planId, legId, fill);
            && (after != db <==> FillProceeds(db, planId, legId, fill))
            && (after != db ==>
                  && reply == View(after.legs[legId])
                  && after.legs[legId].filled > db.legs[legId].filled
                  && after.legs[legId].filled ==
                     (if fill.mode.Full? then db.legs[legId].target else fill.cumulativeFilled.value)
                  && (after.legs[legId].state == Filled <==> after.legs[legId].filled == db.legs[legId].target)
                  && (fill.idempotencyKey.Some? ==> FillKey(legId, fill.idempotencyKey.value) in after.fills))
            && (after == db ==> reply.Refused? || (IsReplay(db, legId, fill) && reply == View(db.legs[legId])))
  {
  }

  /** How many fills of leg `l` commit with `clientKnownVersion` equal to `v`. */
  function FillsAtVersion(db: Db, ops: seq<Op>, l: nat, v: nat): nat
    decreases |ops|
  {
    if ops == [] then 0
    else
      One(ops[0].OpFill? && ops[0].legId == l && ops[0].fill.clientKnownVersion == Some(v) && Apply(db, ops[0]).0 != db)
      + FillsAtVersion(Apply(db, ops[0]).0, ops[1..], l, v)
  }

  /** At most one fill commits per known version, whatever happens in between. */
  lemma {:induction false} OneFillPerVersion(db: Db, ops: seq<Op>, l: nat, v: nat)
    requires Inv(db)
    ensures FillsAtVersion(db, ops, l, v) <= One(VersionOf(db, l) <= v)
    decreases |ops|
  {
    if ops != [] {
      var op := ops[0];
      StepInv(db, op);
      StepVersion(db, op, l);
      if op.OpFill? && op.legId == l {
        FillCommits(db, op.planId, l, op.fill);
      }
      OneFillPerVersion(Apply(db, op).0, ops[1..], l, v);
    }
  }

  // ----- ended plans and halted legs -----

  /** A failed plan has no leg that is waiting to be sent or being sent. */
  ghost predicate FailedPlansAreSwept(db: Db)
  {
    forall l :: l in db.legs && IsPlanIn(db, db.legs[l].planId, PlanFailed) ==>
      db.legs[l].state != Created && db.legs[l].state != Submitting
  }

  lemma OnlyFailPlanFails(db: Db, op: Op, p: nat)
    requires IsPlanIn(Apply(db, op).0, p, PlanFailed) && !IsPlanIn(db, p, PlanFailed)
    ensures op == OpFailPlan(p)
  {
    match op {
      case OpFill(q, l, fill) => FillKeepsIds(db, q, l, fill);
      case OpCompleteMarkSent(q, l, order, meta) => CompleteKeepsIds(db, q, l, order, meta);
      case _ =>
    }
  }

  /** Only the first transaction of `markSent` makes a leg submitting, and only under an executing plan. */
  lemma OnlyBeginMarkSentReserves(db: Db, op: Op, l: nat)
    requires IdsBelowNext(db) && l in db.legs && db.legs[l].state == Created
    requires l in Apply(db, op).0.legs && Apply(db, op).0.legs[l].state == Submitting
    ensures IsPlanIn(db, db.legs[l].planId, Executing) && Apply(db, op).0.plans == db.plans
  {
    match op {
      case OpBegin(p, n, estimate, floor) => BeginIsAtomicAndGated(db, p, n, estimate, floor);
      case OpBeginMarkSent(p, k, halted) =>
      case _ => OnlyBeginAdds(db, op);
    }
  }

  lemma StepSwept(db: Db, op: Op)
    requires IdsBelowNext(db) && FailedPlansAreSwept(db)
    ensures FailedPlansAreSwept(Apply(db, op).0)
  {
    var after := Apply(db, op).0;
    StepEvolves(db, op);
    NewLegsBelong(db, op);
    forall l | l in after.legs && IsPlanIn(after, after.legs[l].planId, PlanFailed)
      ensures after.legs[l].state != Created && after.legs[l].state != Submitting
    {
      var p := after.legs[l].planId;
      if l in db.legs {
        if !IsPlanIn(db, p, PlanFailed) {
          OnlyFailPlanFails(db, op, p);
        } else if after.legs[l].state == Submitting {
          OnlyBeginMarkSentReserves(db, op, l);
        }
      }
    }
  }

  /** No run leaves a failed plan with a created or a submitting leg; fresh plans have none to begin with. */
  lemma {:induction false} RunSwept(db: Db, ops: seq<Op>)
    requires IdsBelowNext(db) && FailedPlansAreSwept(db)
    ensures FailedPlansAreSwept(Run(db, ops))
    decreases |ops|
  {
    if ops != [] {
      StepEvolves(db, ops[0]);
      StepSwept(db, ops[0]);
      RunSwept(Apply(db, ops[0]).0, ops[1..]);
    }
  }

  /** The kill-switch stops exactly the live legs: with it on, a leg is reserved if and only if it would be
      with it off and is not live. A refused call changes nothing. */
  lemma HaltStopsExactlyLiveLegs(db: Db, planId: nat, legId: nat)
    ensures var halted, clear := BeginMarkSent(db, planId, legId, true), BeginMarkSent(db, planId, legId, false);
            && (halted.1.View? <==>
                  clear.1.View? && !IsLive(db.plans[planId].config, db.legs[legId].legType, db.legs[legId].legIndex))
            && (halted.1.View? ==> halted == clear)
            && (!halted.1.View? ==> halted.0 == db && halted.1.Refused?)
  {
  }

  // ----- a plan begins once -----

  function Begins(db: Db, ops: seq<Op>, p: nat): nat
    decreases |ops|
  {
    if ops == [] then 0
    else One(ops[0].OpBegin? && ops[0].planId == p && Apply(db, ops[0]).1.Began?)
         + Begins(Apply(db, ops[0]).0, ops[1..], p)
  }

  predicate HasBegunOrFailed(db: Db, p: nat)
  {
    IsPlanIn(db, p, Executing) || IsPlanIn(db, p, Completed) || IsPlanIn(db, p, PlanFailed)
  }

  /** A plan begins at most once, and not at all once it has begun or failed. */
  lemma {:induction false} BeginsOnce(db: Db, ops: seq<Op>, p: nat)
    ensures Begins(db, ops, p) <= One(!HasBegunOrFailed(db, p))
    decreases |ops|
  {
    if ops != [] {
      StepPlansEvolve(db, ops[0]);
      if ops[0].OpBegin? {
        BeganMeansStarted(db, ops[0].planId, ops[0].legacyCount, ops[0].estimate, ops[0].floor);
      }
      BeginsOnce(Apply(db, ops[0]).0, ops[1..], p);
    }
  }

  lemma BeganMeansStarted(db: Db, planId: nat, legacyCount: int, estimate: Option<TradeCost.PlanCost>, floor: real)
    ensures var (after, reply) := BeginExecution(db, planId, legacyCount, estimate, floor);
            reply.Began? ==> IsPlanIn(db, planId, Armed) && IsPlanIn(after, planId, Executing)
  {
  }

  /** Plan `planId` has exactly one created leg per definition, under consecutive ids from `first` on. */
  ghost predicate LegsAsDefined(legs: map<nat, Leg>, planId: nat, first: nat, defs: seq<LegEntry>)
  {
    && AllEntries(defs)
    && (forall l: nat :: l in legs && legs[l].planId == planId <==> first <= l < first + |defs|)
    && (forall l: nat :: l in legs && first <= l < first + |defs| ==>
          var def := defs[l - first];
          legs[l] == Leg(planId, def.legIndex, def.legType, Created, 1, None, def.targetQuantity, 0.0))
  }

  lemma CreatedAsDefined(legs: map<nat, Leg>, first: nat, planId: nat, defs: seq<LegEntry>)
    requires AllEntries(defs)
    requires forall l :: l in legs ==> l < first && legs[l].planId != planId
    ensures LegsAsDefined(CreateLegs(legs, first, planId, defs), planId, first, defs)
    ensures forall l :: l in legs ==>
              l in CreateLegs(legs, first, planId, defs) && CreateLegs(legs, first, planId, defs)[l] == legs[l]
  {
    CreatedLegs(legs, first, planId, defs);
  }

  /** Beginning is atomic and gated: either nothing changes and the caller gets an error, or the armed
      plan is executing with exactly one created leg per definition, and nothing else has changed.
      A plan with a live leg and a completed estimate begins only if the gate allows the estimate. */
  lemma BeginIsAtomicAndGated(db: Db, planId: nat, legacyCount: int, estimate: Option<TradeCost.PlanCost>, floor: real)
    requires IdsBelowNext(db)
    ensures var (after, reply) := BeginExecution(db, planId, legacyCount, estimate, floor);
            if !reply.Began? then after == db && reply.Refused?
            else
              && IsPlanIn(db, planId, Armed)
              && var defs := LegDefs(db.plans[planId].config, legacyCount).value;
              && reply == Began(db.nextLegId, |defs|) && |defs| >= 1
              && var plan := db.plans[planId];
              && after.plans == db.plans[planId := plan.(state := Executing, entityVersion := plan.entityVersion + 1)]
              && LegsAsDefined(after.legs, planId, db.nextLegId, defs)
              && (forall l :: l in db.legs ==> l in after.legs && after.legs[l] == db.legs[l])
              && after.fills == db.fills && after.onChain == db.onChain && after.outbox == db.outbox
              && (estimate.Some? && HasLiveLeg(plan.config, defs) ==>
                    && estimate.value.estimateConfidence != TradeCost.Unavailable
                    && (estimate.value.netProfitUsd.Some? ==> estimate.value.netProfitUsd.value >= floor))
  {
    if BeginExecution(db, planId, legacyCount, estimate, floor).1.Began? {
      CreatedAsDefined(db.legs, db.nextLegId, planId, LegDefs(db.plans[planId].config, legacyCount).value);
    }
  }

  // ----- replayed fills -----

  /** A run in which some calls are marked as repeats. */
  datatype Tagged = Tagged(op: Op, isRepeat: bool)

  function AllOps(tagged: seq<Tagged>): seq<Op>
  {
    if tagged == [] then [] else [tagged[0].op] + AllOps(tagged[1..])
  }

  function Originals(tagged: seq<Tagged>): seq<Op>
  {
    if tagged == [] then []
    else if tagged[0].isRepeat then Originals(tagged[1..])
    else [tagged[0].op] + Originals(tagged[1..])
  }

  /** The key under which this call would commit a fill in state `db`. */
  function CommittedKey(db: Db, op: Op): set<FillKey>
  {
    if op.OpFill? && op.fill.idempotencyKey.Some? && FillProceeds(db, op.planId, op.legId, op.fill)
    then {FillKey(op.legId, op.fill.idempotencyKey.value)} else {}
  }

  /** Every repeat is a fill whose leg and key an earlier original call has committed; its other
      arguments are free. States are those of the run without the repeats. */
  ghost predicate RepeatsCommitted(db: Db, tagged: seq<Tagged>, committed: set<FillKey>)
    decreases |tagged|
  {
    if tagged == [] then true
    else
      var op := tagged[0].op;
      if tagged[0].isRepeat then
        && op.OpFill? && op.fill.idempotencyKey.Some?
        && FillKey(op.legId, op.fill.idempotencyKey.value) in committed
        && RepeatsCommitted(db, tagged[1..], committed)
      else RepeatsCommitted(Apply(db, op).0, tagged[1..], committed + CommittedKey(db, op))
  }

  lemma KeysGrow(db: Db, op: Op)
    ensures db.fills.Keys + CommittedKey(db, op) <= Apply(db, op).0.fills.Keys
  {
  }

  /** Repeating a committed keyed fill, at any later points and with any arguments, changes nothing:
      not the legs, not the outbox, not the idempotency table. */
  lemma {:induction false} RepeatedFillsChangeNothing(db: Db, tagged: seq<Tagged>, committed: set<FillKey>)
    requires committed <= db.fills.Keys
    requires RepeatsCommitted(db, tagged, committed)
    ensures Run(db, AllOps(tagged)) == Run(db, Originals(tagged))
    decreases |tagged|
  {
    if tagged != [] {
      var op := tagged[0].op;
      assert AllOps(tagged)[1..] == AllOps(tagged[1..]);
      if tagged[0].isRepeat {
        assert IsReplay(db, op.legId, op.fill);
        assert Apply(db, op).0 == db;
        RepeatedFillsChangeNothing(db, tagged[1..], committed);
      } else {
        KeysGrow(db, op);
        assert Originals(tagged)[1..] == Originals(tagged[1..]);
        RepeatedFillsChangeNothing(Apply(db, op).0, tagged[1..], committed + CommittedKey(db, op));
      }
    }
  }
}
