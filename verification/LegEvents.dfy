/** Outbox rows and on-chain proofs against the rows they report on. */
module LegEvents {
  import opened Prelude
  import opened Playbook
  import opened ExecutionDb
  import opened LegInvariants
  import TradeCost

  function One(b: bool): nat
  {
    if b then 1 else 0
  }

  predicate IsFilled(db: Db, l: nat)
  {
    l in db.legs && db.legs[l].state == Filled
  }

  predicate IsPlanIn(db: Db, p: nat, state: PlanState)
  {
    p in db.plans && db.plans[p].state == state
  }

  predicate HasBeenArmed(db: Db, p: nat)
  {
    IsPlanIn(db, p, Armed) || IsPlanIn(db, p, Executing) || IsPlanIn(db, p, Completed) || IsPlanIn(db, p, PlanFailed)
  }

  predicate HasTx(db: Db, h: nat, confirmed: bool)
  {
    exists i :: 0 <= i < |db.onChain| && db.onChain[i].txHash == h && db.onChain[i].status.Confirmed? == confirmed
  }

  /** What the outbox must hold under a key. */
  function Due(db: Db, key: EventKey): nat
  {
    match key
    case LegFilled(l) => One(IsFilled(db, l))
    case TransactionConfirmed(h) => One(HasTx(db, h, true))
    case TransactionFailed(h) => One(HasTx(db, h, false))
    case PlanArming(p) => One(HasBeenArmed(db, p))
    case PlanCompletion(p) => One(IsPlanIn(db, p, Completed))
    case PlanFailure(p) => One(IsPlanIn(db, p, PlanFailed))
  }

  /** The outbox holds exactly one row for each filled leg, for each on-chain row under the type its
      status calls for, for each plan that has been armed, and for each completed and each failed plan; and no
      other row. */
  ghost predicate EventsDue(db: Db)
  {
    forall key :: CountKey(db.outbox, key) == Due(db, key)
  }

  /** A step either leaves the outbox and what is due alone, or adds the one row that became due. */
  ghost predicate EventStep(db: Db, after: Db)
  {
    || (after.outbox == db.outbox && forall key :: Due(after, key) == Due(db, key))
    || (exists e :: after.outbox == db.outbox + [e] && Emits(db, after, e))
  }

  ghost predicate Emits(db: Db, after: Db, e: OutboxEvent)
  {
    && Due(after, e.key) == Due(db, e.key) + 1
    && forall key :: key != e.key ==> Due(after, key) == Due(db, key)
  }

  lemma EventStepKeeps(db: Db, after: Db)
    requires EventsDue(db) && EventStep(db, after)
    ensures EventsDue(after)
  {
  }

  /** No two on-chain rows share a hash. */
  ghost predicate UniqueHashes(onChain: seq<OnChainTx>)
  {
    forall i, j :: 0 <= i < j < |onChain| ==> onChain[i].txHash != onChain[j].txHash
  }

  // ----- one lemma per kind of transaction -----

  /** A change of legs in which none becomes filled, with plans, proofs and outbox untouched. */
  lemma QuietLegs(db: Db, after: Db)
    requires after.plans == db.plans && after.onChain == db.onChain && after.outbox == db.outbox
    requires forall l :: IsFilled(after, l) == IsFilled(db, l)
    ensures EventStep(db, after)
  {
  }

  lemma FillEvent(db: Db, planId: nat, legId: nat, fill: Fill)
    ensures EventStep(db, ApplyFill(db, planId, legId, fill).0)
  {
    var after := ApplyFill(db, planId, legId, fill).0;
    if FillProceeds(db, planId, legId, fill) {
      var saved := FilledLeg(db.legs[legId], fill).value;
      assert after.legs == db.legs[legId := saved];
      if saved.state == Filled {
        var e := OutboxEvent(LegFilled(legId), saved.filled, saved.entityVersion, None);
        assert after.outbox == db.outbox + [e];
        forall key | key != e.key
          ensures Due(after, key) == Due(db, key)
        {
        }
        assert Emits(db, after, e);
      } else {
        QuietLegs(db, after);
      }
    } else {
      assert after == db;
    }
  }

  lemma CompletionEvent(db: Db, planId: nat)
    ensures EventStep(db, TryComplete(db, planId).0)
  {
  }

  lemma FailureEvent(db: Db, planId: nat)
    ensures EventStep(db, MarkPlanFailed(db, planId).0)
  {
  }

  lemma ArmEvent(db: Db, planId: nat, checksPass: bool)
    ensures EventStep(db, ArmPlan(db, planId, checksPass).0)
  {
  }

  /** Creating a plan makes nothing due. */
  lemma CreateEvent(db: Db, planId: nat, config: Option<Config>)
    ensures EventStep(db, CreatePlan(db, planId, config).0)
  {
  }

  /** Linking a reservation makes nothing due. */
  lemma LinkEvent(db: Db, planId: nat, reservationId: nat, checksPass: bool)
    ensures EventStep(db, LinkReservation(db, planId, reservationId, checksPass).0)
  {
  }

  lemma BeginEvent(db: Db, planId: nat, legacyCount: int, estimate: Option<TradeCost.PlanCost>, floor: real)
    requires IdsBelowNext(db)
    ensures EventStep(db, BeginExecution(db, planId, legacyCount, estimate, floor).0)
  {
    BegunLegs(db, planId, legacyCount);
    var after := BeginExecution(db, planId, legacyCount, estimate, floor).0;
    if after != db {
      BeginEvolves(db, planId, legacyCount, estimate, floor);
      forall key
        ensures Due(after, key) == Due(db, key)
      {
      }
    }
  }

  /** Adding a row for a new hash makes one event due; a known hash makes none. */
  lemma PersistDue(db: Db, after: Db, legId: nat, meta: OnChainMeta)
    requires EventsDue(db) && UniqueHashes(db.onChain)
    requires after.plans == db.plans
    requires forall l :: IsFilled(after, l) == IsFilled(db, l)
    requires after.onChain == PersistWithOutcome(db.onChain, legId, meta).0
    requires after.outbox == WriteOutboxRow(db.outbox, TerminalKey(PersistWithOutcome(db.onChain, legId, meta).1))
    ensures EventStep(db, after) && UniqueHashes(after.onChain)
  {
    var (rows, row) := PersistWithOutcome(db.onChain, legId, meta);
    var key := TerminalKey(row);
    if FindTx(db.onChain, meta.txHash).Some? {
      var i :| 0 <= i < |db.onChain| && db.onChain[i] == row;
      assert HasTx(db, row.txHash, row.status.Confirmed?);
      assert CountKey(db.outbox, key) == Due(db, key) == 1;
      QuietLegs(db, after);
    } else {
      assert !HasTx(db, row.txHash, true) && !HasTx(db, row.txHash, false);
      assert CountKey(db.outbox, key) == Due(db, key) == 0;
      var e := OutboxEvent(key, 0.0, 0, None);
      assert after.onChain[|db.onChain|] == row;
      forall other | other != key
        ensures Due(after, other) == Due(db, other)
      {
        match other
        case TransactionConfirmed(h) => HasTxAppend(db, after, row, h, true);
        case TransactionFailed(h) => HasTxAppend(db, after, row, h, false);
        case _ =>
      }
      HasTxAppend(db, after, row, row.txHash, row.status.Confirmed?);
      assert Emits(db, after, e);
    }
  }

  lemma HasTxAppend(db: Db, after: Db, row: OnChainTx, h: nat, confirmed: bool)
    requires after.onChain == db.onChain + [row]
    ensures HasTx(after, h, confirmed) <==>
              HasTx(db, h, confirmed) || (row.txHash == h && row.status.Confirmed? == confirmed)
  {
    if HasTx(db, h, confirmed) {
      var i :| 0 <= i < |db.onChain| && db.onChain[i].txHash == h && db.onChain[i].status.Confirmed? == confirmed;
      assert after.onChain[i] == db.onChain[i];
    }
    if row.txHash == h && row.status.Confirmed? == confirmed {
      assert after.onChain[|db.onChain|] == row;
    }
  }

  lemma SentEvent(db: Db, planId: nat, legId: nat, order: nat, meta: Option<OnChainMeta>)
    requires EventsDue(db) && UniqueHashes(db.onChain)
    ensures var after := CompleteMarkSent(db, planId, legId, order, meta).0;
            EventStep(db, after) && UniqueHashes(after.onChain)
  {
    var after := CompleteMarkSent(db, planId, legId, order, meta).0;
    if HasLeg(db, planId, legId) && db.legs[legId].state == Submitting {
      assert forall l :: IsFilled(after, l) == IsFilled(db, l);
      if meta.Some? {
        PersistDue(db, after, legId, meta.value);
      } else {
        QuietLegs(db, after);
      }
    }
  }

  lemma QuietEvent(db: Db, op: Op)
    requires op.OpBeginMarkSent? || op.OpFailSubmitting? || op.OpTerminal? || op.OpAcknowledge? || op.OpReap?
    ensures var after := Apply(db, op).0; EventStep(db, after) && after.onChain == db.onChain
  {
    QuietLegs(db, Apply(db, op).0);
  }

  lemma StepEvents(db: Db, op: Op)
    requires IdsBelowNext(db) && EventsDue(db) && UniqueHashes(db.onChain)
    ensures EventsDue(Apply(db, op).0) && UniqueHashes(Apply(db, op).0.onChain)
  {
    match op {
      case OpCreatePlan(p, config) => CreateEvent(db, p, config);
      case OpLink(p, reservationId, pass) => LinkEvent(db, p, reservationId, pass);
      case OpArm(p, pass) => ArmEvent(db, p, pass);
      case OpBegin(p, n, estimate, floor) => BeginEvent(db, p, n, estimate, floor);
      case OpCompleteMarkSent(p, l, order, meta) => SentEvent(db, p, l, order, meta);
      case OpFill(p, l, fill) => FillEvent(db, p, l, fill);
      case OpComplete(p) => CompletionEvent(db, p);
      case OpFailPlan(p) => FailureEvent(db, p);
      case _ => QuietEvent(db, op);
    }
    EventStepKeeps(db, Apply(db, op).0);
  }
}
