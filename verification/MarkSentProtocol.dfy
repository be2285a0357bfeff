/** Concurrent `markSent` calls. Between the commit of phase 1 and the commit of phase 3 a caller
    broadcasts with no transaction open, and may crash, time out or be overtaken by the reaper, by a plan
    failure or by any other transaction. */
module MarkSentProtocol {
  import opened Prelude
  import opened Playbook
  import opened ExecutionDb
  import opened LegInvariants
  import LegHistory

  /** How a venue or bridge answers a submission. */
  datatype Answer =
    | Submitted(externalOrderId: nat, meta: Option<OnChainMeta>)
    | VenueTerminal(terminal: TerminalState)
    | VenueClientError
    | Transient

  /** How phase 2 ends: with an answer, or with no call at all, for want of bridge parameters. */
  datatype Outcome = Answered(answer: Answer) | NoBridgeParams

  /** A bridge leg whose configuration has no bridge parameters. */
  predicate LacksBridgeParams(db: Db, planId: nat, legId: nat)
  {
    planId in db.plans && legId in db.legs
    && db.legs[legId].legType.Bridge? && !HasBridgeParams(db.plans[planId].config, db.legs[legId].legIndex)
  }

  /** Phase 2. The proof of a bridge transfer is kept elsewhere, so that it comes without on-chain data. */
  function Submission(db: Db, planId: nat, legId: nat, answer: Answer): Outcome
  {
    if LacksBridgeParams(db, planId, legId) then NoBridgeParams
    else if answer.Submitted? && legId in db.legs && db.legs[legId].legType.Bridge? then Answered(answer.(meta := None))
    else Answered(answer)
  }

  /** No call is made exactly for a bridge leg whose parameters are missing; any other is answered as it is
      answered, but that a bridge transfer comes without on-chain data. */
  lemma SubmissionOutcome(db: Db, planId: nat, legId: nat, answer: Answer)
    requires planId in db.plans && legId in db.legs
    ensures var leg := db.legs[legId];
            var outcome := Submission(db, planId, legId, answer);
            && (outcome == NoBridgeParams <==>
                  leg.legType == Bridge && !HasBridgeParams(db.plans[planId].config, leg.legIndex))
            && (outcome != NoBridgeParams ==>
                  outcome == Answered(if answer.Submitted? && leg.legType == Bridge
                                      then Submitted(answer.externalOrderId, None) else answer))
  {
  }

  /** Where a caller stands after its phase 1 has committed. */
  datatype Caller =
    | Broadcasting(planId: nat, legId: nat)
    | Settling(planId: nat, legId: nat, outcome: Outcome)

  datatype World = World(
    db: Db,
    callers: map<nat, Caller>,
    reserved: seq<nat>,    // legs in the order of their `created` to `submitting` commits
    broadcasts: seq<nat>)  // legs in the order of the calls to the venue or bridge

  datatype Event =
    | Call(caller: nat, planId: nat, legId: nat, liveHalted: bool)
    | Submit(caller: nat, answer: Answer)
    | Settle(caller: nat)
    | Crash(caller: nat)
    | Transaction(op: Op)

  /** Phase 3, or the transaction that handles the error of phase 2. */
  function SettleOp(planId: nat, legId: nat, outcome: Outcome): Option<Op>
  {
    match outcome
    case Answered(Submitted(order, meta)) => Some(OpCompleteMarkSent(planId, legId, order, meta))
    case Answered(VenueTerminal(terminal)) => Some(OpTerminal(planId, legId, terminal))
    case Answered(VenueClientError) => Some(OpFailSubmitting(planId, legId))
    case Answered(Transient) => None
    case NoBridgeParams => Some(OpFailSubmitting(planId, legId))
  }

  function Step(w: World, e: Event): World
  {
    match e
    case Call(c, p, l, halted) =>
      var (db, reply) := BeginMarkSent(w.db, p, l, halted);
      if c in w.callers || !reply.View? then w
      else World(db, w.callers[c := Broadcasting(p, l)], w.reserved + [l], w.broadcasts)
    case Submit(c, answer) =>
      if c !in w.callers || !w.callers[c].Broadcasting? then w
      else
        var at := w.callers[c];
        var outcome := Submission(w.db, at.planId, at.legId, answer);
        w.(callers := w.callers[c := Settling(at.planId, at.legId, outcome)],
           broadcasts := if outcome.NoBridgeParams? then w.broadcasts else w.broadcasts + [at.legId])
    case Settle(c) =>
      if c !in w.callers || !w.callers[c].Settling? then w
      else
        var op := SettleOp(w.callers[c].planId, w.callers[c].legId, w.callers[c].outcome);
        w.(db := if op.None? then w.db else Apply(w.db, op.value).0, callers := w.callers - {c})
    case Crash(c) => w.(callers := w.callers - {c})
    case Transaction(op) => if op.OpBeginMarkSent? then w else w.(db := Apply(w.db, op).0)
  }

  function Run(w: World, events: seq<Event>): World
    decreases |events|
  {
    if events == [] then w else Run(Step(w, events[0]), events[1..])
  }

  lemma {:induction false} RunAppend(w: World, first: seq<Event>, later: seq<Event>)
    ensures Run(w, first + later) == Run(Run(w, first), later)
    decreases |first|
  {
    if first == [] {
      assert first + later == later;
    } else {
      assert (first + later)[1..] == first[1..] + later;
      RunAppend(Step(w, first[0]), first[1..], later);
    }
  }

  ghost predicate Initial(w: World)
  {
    w.callers == map[] && w.reserved == [] && w.broadcasts == [] && IdsBelowNext(w.db)
  }

  predicate IsBroadcasting(w: World, c: nat, l: nat)
  {
    c in w.callers && w.callers[c].Broadcasting? && w.callers[c].legId == l
  }

  ghost predicate Safe(w: World)
  {
    && IdsBelowNext(w.db)
    // a leg is reserved once, and has then left `created` for good
    && Distinct(w.reserved)
    && (forall l :: l in w.reserved ==> l in w.db.legs && w.db.legs[l].state != Created)
    // it is broadcast once, by a caller that has reserved it
    && Distinct(w.broadcasts)
    && (forall l :: l in w.broadcasts ==> l in w.reserved)
    && (forall c, l :: IsBroadcasting(w, c, l) ==> l in w.reserved && l !in w.broadcasts)
    && (forall c, d, l :: IsBroadcasting(w, c, l) && IsBroadcasting(w, d, l) ==> c == d)
  }

  /** No transaction brings a leg back to `created`. */
  lemma NeverCreatedAgain(db: Db, op: Op, l: nat)
    requires IdsBelowNext(db)
    requires l in db.legs && db.legs[l].state != Created
    ensures l in Apply(db, op).0.legs && Apply(db, op).0.legs[l].state != Created
  {
    StepEvolves(db, op);
  }

  lemma DbStepSafe(w: World, op: Op)
    requires Safe(w)
    ensures Safe(w.(db := Apply(w.db, op).0))
  {
    StepEvolves(w.db, op);
    var after := w.(db := Apply(w.db, op).0);
    forall l | l in after.reserved
      ensures l in after.db.legs && after.db.legs[l].state != Created
    {
      NeverCreatedAgain(w.db, op, l);
    }
    assert forall c, l :: IsBroadcasting(after, c, l) == IsBroadcasting(w, c, l);
  }

  lemma CallSafe(w: World, c: nat, p: nat, l: nat, halted: bool)
    requires Safe(w)
    ensures Safe(Step(w, Call(c, p, l, halted)))
  {
    var after := Step(w, Call(c, p, l, halted));
    if after != w {
      var moved := w.(db := Apply(w.db, OpBeginMarkSent(p, l, halted)).0);
      DbStepSafe(w, OpBeginMarkSent(p, l, halted));
      assert l !in w.reserved;
      assert forall x :: x in after.reserved <==> x in w.reserved || x == l;
      forall d, x | IsBroadcasting(after, d, x)
        ensures (d == c && x == l) || IsBroadcasting(w, d, x)
      {
      }
    }
  }

  lemma SubmitSafe(w: World, c: nat, answer: Answer)
    requires Safe(w)
    ensures Safe(Step(w, Submit(c, answer)))
  {
    var after := Step(w, Submit(c, answer));
    if after != w {
      var l := w.callers[c].legId;
      assert IsBroadcasting(w, c, l);
      forall d, x | IsBroadcasting(after, d, x)
        ensures IsBroadcasting(w, d, x) && d != c && x != l
      {
        assert d != c && after.callers[d] == w.callers[d];
        assert IsBroadcasting(w, d, x);
      }
    }
  }

  lemma StepSafe(w: World, e: Event)
    requires Safe(w)
    ensures Safe(Step(w, e))
  {
    match e
    case Call(c, p, l, halted) => CallSafe(w, c, p, l, halted);
    case Submit(c, answer) => SubmitSafe(w, c, answer);
    case Settle(c) =>
      if c in w.callers && w.callers[c].Settling? {
        var without := w.(callers := w.callers - {c});
        assert forall d, x :: IsBroadcasting(without, d, x) ==> IsBroadcasting(w, d, x);
        var op := SettleOp(w.callers[c].planId, w.callers[c].legId, w.callers[c].outcome);
        if op.Some? {
          DbStepSafe(without, op.value);
        }
      }
    case Crash(c) =>
      var without := w.(callers := w.callers - {c});
      assert forall d, x :: IsBroadcasting(without, d, x) ==> IsBroadcasting(w, d, x);
    case Transaction(op) =>
      if !op.OpBeginMarkSent? {
        DbStepSafe(w, op);
      }
  }

  lemma {:induction false} RunSafe(w: World, events: seq<Event>)
    requires Safe(w)
    ensures Safe(Run(w, events))
    decreases |events|
  {
    if events != [] {
      StepSafe(w, events[0]);
      RunSafe(Step(w, events[0]), events[1..]);
    }
  }

  /** At most one broadcast per leg, over every interleaving of callers, failures, crashes and other
      transactions; and only after the leg's single `created` to `submitting` commit. */
  lemma AtMostOneBroadcast(w: World, events: seq<Event>)
    requires Initial(w)
    ensures var s := Run(w, events);
            && Distinct(s.broadcasts)
            && Distinct(s.reserved)
            && (forall l :: l in s.broadcasts ==> l in s.reserved)
            && (forall l :: l in s.reserved ==> l in s.db.legs && s.db.legs[l].state != Created)
  {
    RunSafe(w, events);
  }

  /** Every run of the protocol is a run of database transactions, so what holds after every such run
      holds here as well. */
  lemma {:induction false} RunIsDbRun(w: World, events: seq<Event>) returns (ops: seq<Op>)
    ensures Run(w, events).db == ExecutionDb.Run(w.db, ops)
    decreases |events|
  {
    ops := [];
    if events != [] {
      var first := StepIsDbRun(w, events[0]);
      var rest := RunIsDbRun(Step(w, events[0]), events[1..]);
      ExecutionDb.RunAppend(w.db, first, rest);
      ops := first + rest;
    }
  }

  lemma StepIsDbRun(w: World, e: Event) returns (ops: seq<Op>)
    ensures Step(w, e).db == ExecutionDb.Run(w.db, ops)
  {
    ops := [];
    match e
    case Call(c, p, l, halted) =>
      if c !in w.callers && BeginMarkSent(w.db, p, l, halted).1.View? {
        ops := [OpBeginMarkSent(p, l, halted)];
      }
    case Settle(c) =>
      if c in w.callers && w.callers[c].Settling? {
        var op := SettleOp(w.callers[c].planId, w.callers[c].legId, w.callers[c].outcome);
        if op.Some? {
          ops := [op.value];
        }
      }
    case Transaction(op) =>
      if !op.OpBeginMarkSent? {
        ops := [op];
      }
    case _ =>
  }

  predicate HasEnded(db: Db, p: nat)
  {
    p in db.plans && (db.plans[p].state == Completed || db.plans[p].state == PlanFailed)
  }

  /** The reservations of `after` are those of `w` and later ones, none of a leg of plan `p`. */
  ghost predicate NoneReservedFor(w: World, after: World, p: nat)
  {
    && w.reserved <= after.reserved
    && forall k :: |w.reserved| <= k < |after.reserved| ==>
         after.reserved[k] in after.db.legs && after.db.legs[after.reserved[k]].planId != p
  }

  lemma OpKeepsEnded(db: Db, op: Op, p: nat)
    requires IdsBelowNext(db) && HasEnded(db, p)
    ensures var after := Apply(db, op).0; IdsBelowNext(after) && HasEnded(after, p) && LegsKeepPlans(db, after)
  {
    StepEvolves(db, op);
    StepPlansEvolve(db, op);
  }

  lemma CallReservesForLivePlan(w: World, c: nat, q: nat, l: nat, halted: bool, p: nat)
    requires IdsBelowNext(w.db) && HasEnded(w.db, p)
    ensures NoneReservedFor(w, Step(w, Call(c, q, l, halted)), p)
  {
  }

  lemma StepReservesForLivePlans(w: World, e: Event, p: nat)
    requires IdsBelowNext(w.db) && HasEnded(w.db, p)
    ensures var v := Step(w, e);
            IdsBelowNext(v.db) && HasEnded(v.db, p) && LegsKeepPlans(w.db, v.db) && NoneReservedFor(w, v, p)
  {
    match e
    case Call(c, q, l, halted) =>
      OpKeepsEnded(w.db, OpBeginMarkSent(q, l, halted), p);
      CallReservesForLivePlan(w, c, q, l, halted, p);
    case Settle(c) =>
      if c in w.callers && w.callers[c].Settling? {
        var op := SettleOp(w.callers[c].planId, w.callers[c].legId, w.callers[c].outcome);
        if op.Some? {
          OpKeepsEnded(w.db, op.value, p);
        }
      }
    case Transaction(op) => OpKeepsEnded(w.db, op, p);
    case _ =>
  }

  ghost predicate LegsKeepPlans(db: Db, after: Db)
  {
    forall l :: l in db.legs ==> l in after.legs && after.legs[l].planId == db.legs[l].planId
  }

  /** Once a plan has failed or completed, no call reserves any of its legs, so that nothing of it is
      broadcast any more but by calls that held their reservation before. */
  lemma {:induction false} EndedPlanReservesNothing(w: World, events: seq<Event>, p: nat)
    requires IdsBelowNext(w.db) && HasEnded(w.db, p)
    ensures HasEnded(Run(w, events).db, p) && LegsKeepPlans(w.db, Run(w, events).db)
    ensures NoneReservedFor(w, Run(w, events), p)
    decreases |events|
  {
    if events != [] {
      var v := Step(w, events[0]);
      StepReservesForLivePlans(w, events[0], p);
      EndedPlanReservesNothing(v, events[1..], p);
      var after := Run(w, events);
      forall k | |w.reserved| <= k < |after.reserved|
        ensures after.reserved[k] in after.db.legs && after.db.legs[after.reserved[k]].planId != p
      {
        if k < |v.reserved| {
          assert after.reserved[k] == v.reserved[k];
        }
      }
    }
  }

  /** A successful submission is recorded by phase 3 exactly when the leg is still `submitting` at that
      moment: a reaper or a plan failure in between leaves the broadcast without its on-chain row. */
  lemma BroadcastRecordedIff(w: World, c: nat)
    requires LegHistory.Inv(w.db)
    requires c in w.callers && w.callers[c].Settling? && w.callers[c].outcome.Answered?
    requires w.callers[c].outcome.answer.Submitted? && w.callers[c].outcome.answer.meta.Some?
    requires HasLeg(w.db, w.callers[c].planId, w.callers[c].legId)
    ensures var at := w.callers[c];
            var after := Step(w, Settle(c)).db;
            (w.db.legs[at.legId].state == Submitting
             <==> after.legs[at.legId].state == Sent && after != w.db)
    ensures var at := w.callers[c];
            w.db.legs[at.legId].state == Submitting ==>
              LegHistory.ProofRecorded(w.db, Step(w, Settle(c)).db, at.legId, at.outcome.answer.meta.value)
    ensures w.db.legs[w.callers[c].legId].state != Submitting ==> Step(w, Settle(c)).db == w.db
  {
    var at := w.callers[c];
    LegHistory.SentIsAtomic(w.db, at.planId, at.legId, at.outcome.answer.externalOrderId, at.outcome.answer.meta);
  }
}
