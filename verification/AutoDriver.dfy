/** The leg auto-driver (leg-auto-driver.worker.ts): what one tick does to the tables, as events of the
    `markSent` protocol. Between any two of its steps everyone else may act. */
module AutoDriver {
  import opened Prelude
  import opened Playbook
  import opened ExecutionDb
  import opened LegInvariants
  import opened Protocol = MarkSentProtocol

  /** A leg as the tick's query has read it. */
  datatype LegRef = LegRef(id: nat, planId: nat, legIndex: int)

  datatype HaltCheck = Clear | Halted | Broken

  /** How the raced `markSent` ends: by the driver's timeout, while the call itself goes on, or by itself. */
  datatype Ending = TimesOut | Ends(answer: Answer)

  /** What the driver meets at one leg: the answer of its halt check, the id of its `markSent` call and the
      kill-switch inside that call's first transaction, how the call ends, and what everyone else does in
      between. */
  datatype LegScript = LegScript(
    halt: HaltCheck,
    before: seq<Event>,
    caller: nat,
    liveHalted: bool,
    during: seq<Event>,
    ending: Ending,
    beforeRead: seq<Event>,
    beforeAck: seq<Event>,
    beforeFill: seq<Event>,
    fillKey: nat)

  /** What the driver does, for the record. */
  datatype Action =
    | Stopped
    | CalledMarkSent(leg: LegRef)
    | CalledAcknowledge(leg: LegRef, stateRead: LegState)

  /** The events and actions of a pass, and whether the pass goes on. */
  datatype Pass = Pass(events: seq<Event>, actions: seq<Action>, goOn: bool)

  // ----- one leg -----

  /** The first transaction of the call commits, and so the call goes on to broadcast. */
  predicate Reserves(w: World, leg: LegRef, s: LegScript)
  {
    s.caller !in w.callers && BeginMarkSent(w.db, leg.planId, leg.id, s.liveHalted).1.View?
  }

  /** The call returns; otherwise it throws, which skips the leg. */
  predicate Returns(db: Db, leg: LegRef, answer: Answer)
  {
    !LacksBridgeParams(db, leg.planId, leg.id) && (answer.Submitted? || answer.VenueTerminal?)
  }

  function FullFill(key: nat): Fill
  {
    Fill(Some(key), None, Full, None)
  }

  function CallOf(leg: LegRef, s: LegScript): Event
  {
    Call(s.caller, leg.planId, leg.id, s.liveHalted)
  }

  /** Acknowledge and fill a leg that was read as sent. An error in either skips the rest. */
  function AckAndFill(w: World, leg: LegRef, s: LegScript): seq<Event>
  {
    var ack := s.beforeAck + [Transaction(OpAcknowledge(leg.planId, leg.id))];
    if MarkAcknowledged(Protocol.Run(w, s.beforeAck).db, leg.planId, leg.id).1.Refused? then ack
    else
      var fill := FullFill(s.fillKey);
      var filled := ack + s.beforeFill + [Transaction(OpFill(leg.planId, leg.id, fill))];
      if FillProceeds(Protocol.Run(w, ack + s.beforeFill).db, leg.planId, leg.id, fill)
      then filled + [Transaction(OpComplete(leg.planId))]
      else filled
  }

  /** `markSent` and what follows it, for a leg that is driven. */
  function SendLeg(w: World, leg: LegRef, s: LegScript): Pass
  {
    var reached := s.before + [CallOf(leg, s)];
    var called := [CalledMarkSent(leg)];
    if !Reserves(Protocol.Run(w, s.before), leg, s) then Pass(reached, called, true)
    else if s.ending.TimesOut? then Pass(reached + s.during, called, true)
    else
      var ended := reached + s.during + [Submit(s.caller, s.ending.answer), Settle(s.caller)];
      if !Returns(Protocol.Run(w, reached + s.during).db, leg, s.ending.answer) then Pass(ended, called, true)
      else
        var read := ended + s.beforeRead;
        var v := Protocol.Run(w, read);
        if leg.id !in v.db.legs || v.db.legs[leg.id].state != Sent then Pass(read, called, true)
        else
          Pass(read + AckAndFill(v, leg, s), called + [CalledAcknowledge(leg, v.db.legs[leg.id].state)], true)
  }

  /** One turn of the loop: legs of other venues are skipped, and a halt ends the pass over the plan. */
  function DriveLeg(w: World, config: Option<Config>, leg: LegRef, s: LegScript): Pass
  {
    if !IsLiveVenueKey(DriverVenueKey(config, leg.legIndex)) then Pass([], [], true)
    else if !s.halt.Clear? then Pass([], [Stopped], false)
    else SendLeg(w, leg, s)
  }

  // ----- one plan -----

  ghost predicate SortedByIndex(legs: seq<LegRef>)
  {
    forall i, j :: 0 <= i < j < |legs| ==> legs[i].legIndex <= legs[j].legIndex
  }

  function Insert(leg: LegRef, sorted: seq<LegRef>): (r: seq<LegRef>)
    requires SortedByIndex(sorted)
    ensures SortedByIndex(r) && |r| == |sorted| + 1
    ensures forall i :: 0 <= i < |r| ==> r[i] == leg || r[i] in sorted
  {
    if sorted == [] || leg.legIndex <= sorted[0].legIndex then [leg] + sorted
    else [sorted[0]] + Insert(leg, sorted[1..])
  }

  /** The stable sort by `legIndex`. */
  function SortByIndex(legs: seq<LegRef>): (r: seq<LegRef>)
    ensures SortedByIndex(r) && |r| == |legs|
  {
    if legs == [] then [] else Insert(legs[0], SortByIndex(legs[1..]))
  }

  function OnlyWithIndex(leg: LegRef, legIndex: int): seq<LegRef>
  {
    if leg.legIndex == legIndex then [leg] else []
  }

  /** The legs with the given index, in order. */
  function WithIndex(legs: seq<LegRef>, legIndex: int): seq<LegRef>
  {
    if legs == [] then [] else OnlyWithIndex(legs[0], legIndex) + WithIndex(legs[1..], legIndex)
  }

  lemma WithIndexCons(leg: LegRef, legs: seq<LegRef>, legIndex: int)
    ensures WithIndex([leg] + legs, legIndex) == OnlyWithIndex(leg, legIndex) + WithIndex(legs, legIndex)
  {
    assert ([leg] + legs)[1..] == legs;
  }

  lemma SwapEmpty<T>(a: seq<T>, b: seq<T>, rest: seq<T>)
    requires a == [] || b == []
    ensures a + (b + rest) == b + (a + rest)
  {
    assert [] + rest == rest && [] + (a + rest) == a + rest && [] + (b + rest) == b + rest;
  }

  lemma {:induction false} InsertIsStable(leg: LegRef, sorted: seq<LegRef>, legIndex: int)
    requires SortedByIndex(sorted)
    ensures WithIndex(Insert(leg, sorted), legIndex) == OnlyWithIndex(leg, legIndex) + WithIndex(sorted, legIndex)
  {
    if sorted == [] || leg.legIndex <= sorted[0].legIndex {
      WithIndexCons(leg, sorted, legIndex);
    } else {
      InsertIsStable(leg, sorted[1..], legIndex);
      WithIndexCons(sorted[0], Insert(leg, sorted[1..]), legIndex);
      SwapEmpty(OnlyWithIndex(sorted[0], legIndex), OnlyWithIndex(leg, legIndex), WithIndex(sorted[1..], legIndex));
    }
  }

  /** The sort orders by index, is stable and loses nothing: for every index, the legs with that index are the
      same and in the same order. */
  lemma {:induction false} SortIsStable(legs: seq<LegRef>, legIndex: int)
    ensures SortedByIndex(SortByIndex(legs))
    ensures WithIndex(SortByIndex(legs), legIndex) == WithIndex(legs, legIndex)
  {
    if legs != [] {
      SortIsStable(legs[1..], legIndex);
      InsertIsStable(legs[0], SortByIndex(legs[1..]), legIndex);
    }
  }

  lemma {:induction false} WithIndexHolds(legs: seq<LegRef>, leg: LegRef)
    ensures leg in legs <==> leg in WithIndex(legs, leg.legIndex)
  {
    if legs != [] {
      WithIndexHolds(legs[1..], leg);
      assert legs == [legs[0]] + legs[1..];
    }
  }

  function DriveLegs(w: World, config: Option<Config>, legs: seq<LegRef>, scripts: seq<LegScript>): Pass
    requires |legs| <= |scripts|
    decreases |legs|
  {
    if legs == [] then Pass([], [], true)
    else
      var first := DriveLeg(w, config, legs[0], scripts[0]);
      if !first.goOn then first
      else
        var rest := DriveLegs(Protocol.Run(w, first.events), config, legs[1..], scripts[1..]);
        Pass(first.events + rest.events, first.actions + rest.actions, rest.goOn)
  }

  /** `drivePlanLegs`. `legs` are the created legs of the plan that the tick has read, and the plan row is
      read anew. After a pass that was not stopped the plan is checked for completion. */
  function DrivePlanLegs(w: World, planId: nat, legs: seq<LegRef>, scripts: seq<LegScript>): Pass
    requires |legs| <= |scripts|
  {
    if planId !in w.db.plans || w.db.plans[planId].state != Executing then Pass([], [], true)
    else
      var sorted := SortByIndex(legs);
      var pass := DriveLegs(w, w.db.plans[planId].config, sorted, scripts);
      if pass.goOn then pass.(events := pass.events + [Transaction(OpComplete(planId))]) else pass
  }

  // ----- discipline of a pass -----

  /** Calls go in the order of the leg index; a stop is the last action; and a leg is acknowledged right
      after its own call, having been read as sent. */
  ghost predicate Disciplined(actions: seq<Action>)
  {
    && (forall i, j :: 0 <= i < j < |actions| && actions[i].CalledMarkSent? && actions[j].CalledMarkSent? ==>
          actions[i].leg.legIndex <= actions[j].leg.legIndex)
    && (forall i :: 0 <= i < |actions| && actions[i].Stopped? ==> i == |actions| - 1)
    && (forall i :: 0 <= i < |actions| && actions[i].CalledAcknowledge? ==>
          i > 0 && actions[i - 1] == CalledMarkSent(actions[i].leg) && actions[i].stateRead == Sent)
  }

  /** Every action is about one of the legs, and that leg is live by the key the driver looks at. */
  ghost predicate OnlyLiveLegs(actions: seq<Action>, config: Option<Config>, legs: seq<LegRef>)
  {
    forall i :: 0 <= i < |actions| && !actions[i].Stopped? ==>
      actions[i].leg in legs && IsLiveVenueKey(DriverVenueKey(config, actions[i].leg.legIndex))
  }

  lemma SendLegActions(w: World, leg: LegRef, s: LegScript)
    ensures var pass := SendLeg(w, leg, s);
            pass.goOn && (pass.actions == [CalledMarkSent(leg)]
                          || pass.actions == [CalledMarkSent(leg), CalledAcknowledge(leg, Sent)])
  {
  }

  /** A leg is acknowledged if and only if its call has reserved it and has ended in time, by an answer that it
      returns, and the leg is then read as sent: a call that throws, or is still running, is followed by nothing. */
  lemma AcknowledgedIff(w: World, leg: LegRef, s: LegScript)
    ensures var pass := SendLeg(w, leg, s);
            var reserved := Protocol.Run(w, s.before);
            var ready := Protocol.Run(w, s.before + [CallOf(leg, s)] + s.during);
            pass.actions == [CalledMarkSent(leg), CalledAcknowledge(leg, Sent)] <==>
              && s.caller !in reserved.callers && BeginMarkSent(reserved.db, leg.planId, leg.id, s.liveHalted).1.View?
              && s.ending.Ends? && !LacksBridgeParams(ready.db, leg.planId, leg.id)
              && (s.ending.answer.Submitted? || s.ending.answer.VenueTerminal?)
              && var read := Protocol.Run(w, s.before + [CallOf(leg, s)] + s.during
                                             + [Submit(s.caller, s.ending.answer), Settle(s.caller)] + s.beforeRead).db;
                 leg.id in read.legs && read.legs[leg.id].state == Sent
  {
  }

  lemma {:induction false} LegsDisciplined(w: World, config: Option<Config>, legs: seq<LegRef>, scripts: seq<LegScript>)
    requires |legs| <= |scripts| && SortedByIndex(legs)
    ensures var pass := DriveLegs(w, config, legs, scripts);
            && Disciplined(pass.actions) && OnlyLiveLegs(pass.actions, config, legs)
            && (pass.goOn <==> Stopped !in pass.actions)
    decreases |legs|
  {
    if legs != [] {
      var first := DriveLeg(w, config, legs[0], scripts[0]);
      SendLegActions(w, legs[0], scripts[0]);
      if first.goOn {
        LegsDisciplined(Protocol.Run(w, first.events), config, legs[1..], scripts[1..]);
        var rest := DriveLegs(Protocol.Run(w, first.events), config, legs[1..], scripts[1..]);
        JoinDisciplined(first.actions, rest.actions, config, legs);
      }
    }
  }

  lemma JoinDisciplined(first: seq<Action>, rest: seq<Action>, config: Option<Config>, legs: seq<LegRef>)
    requires legs != [] && SortedByIndex(legs)
    requires Disciplined(rest) && OnlyLiveLegs(rest, config, legs[1..])
    requires first == [] || (IsLiveVenueKey(DriverVenueKey(config, legs[0].legIndex))
                             && (first == [CalledMarkSent(legs[0])]
                                 || first == [CalledMarkSent(legs[0]), CalledAcknowledge(legs[0], Sent)]))
    ensures Disciplined(first + rest) && OnlyLiveLegs(first + rest, config, legs)
  {
  }

  /** Discipline of a plan's pass, whatever everyone else does meanwhile: `markSent` in non-decreasing leg
      index, nothing after a halt, only legs read as sent acknowledged, and only legs whose own key is live
      driven at all. */
  lemma PlanPassDisciplined(w: World, planId: nat, legs: seq<LegRef>, scripts: seq<LegScript>)
    requires |legs| <= |scripts|
    ensures var pass := DrivePlanLegs(w, planId, legs, scripts);
            && Disciplined(pass.actions)
            && (planId in w.db.plans ==> OnlyLiveLegs(pass.actions, w.db.plans[planId].config, legs))
            && (Stopped in pass.actions <==> !pass.goOn)
  {
    if planId in w.db.plans && w.db.plans[planId].state == Executing {
      var sorted := SortByIndex(legs);
      LegsDisciplined(w, w.db.plans[planId].config, sorted, scripts);
      forall x | x in sorted
        ensures x in legs
      {
        SortIsStable(legs, x.legIndex);
        WithIndexHolds(sorted, x);
        WithIndexHolds(legs, x);
      }
    }
  }

  // ----- the kill-switch covers every driven leg -----

  /** The leg was read from the tables of `start`. */
  predicate ReadFrom(db: Db, leg: LegRef)
  {
    leg.id in db.legs && db.legs[leg.id].planId == leg.planId && db.legs[leg.id].legIndex == leg.legIndex
  }

  /** A leg that the driver takes for live is live for `markSent` as well, however much time has passed since
      plan and leg were read; so the kill-switch check inside the transaction covers it: with the switch on,
      the call reserves nothing. */
  lemma DrivenLegIsCovered(start: World, events: seq<Event>, leg: LegRef, s: LegScript)
    requires IdsBelowNext(start.db) && ReadFrom(start.db, leg) && leg.planId in start.db.plans
    requires IsLiveVenueKey(DriverVenueKey(start.db.plans[leg.planId].config, leg.legIndex))
    requires s.liveHalted
    ensures var w := Protocol.Run(start, events);
            && leg.planId in w.db.plans && leg.id in w.db.legs
            && IsLive(w.db.plans[leg.planId].config, w.db.legs[leg.id].legType, leg.legIndex)
            && !Reserves(w, leg, s) && Step(w, CallOf(leg, s)) == w
  {
    var ops := RunIsDbRun(start, events);
    RunKeepsIdentity(start.db, ops);
    DriverKeyIsExtracted(start.db.plans[leg.planId].config, leg.legIndex);
  }

  // ----- a tick -----

  function RefOf(db: Db, l: nat): LegRef
    requires l in db.legs
  {
    LegRef(l, db.legs[l].planId, db.legs[l].legIndex)
  }

  /** Ids of the created legs from id `from` on. */
  function CreatedIds(db: Db, from: nat): (ids: seq<nat>)
    ensures forall i :: 0 <= i < |ids| ==>
              from <= ids[i] < db.nextLegId && ids[i] in db.legs && db.legs[ids[i]].state == Created
    ensures forall l: nat :: from <= l < db.nextLegId && l in db.legs && db.legs[l].state == Created ==> l in ids
    ensures forall i, j :: 0 <= i < j < |ids| ==> ids[i] < ids[j]
    decreases db.nextLegId - from
  {
    if from >= db.nextLegId then []
    else if from in db.legs && db.legs[from].state.Created? then [from] + CreatedIds(db, from + 1)
    else CreatedIds(db, from + 1)
  }

  /** The oldest created legs, up to `limit`: none is passed over for a younger one, and none is left out while
      there is room. */
  function OldestIds(db: Db, limit: nat): (ids: seq<nat>)
    ensures |ids| <= limit
    ensures forall i :: 0 <= i < |ids| ==>
              ids[i] < db.nextLegId && ids[i] in db.legs && db.legs[ids[i]].state == Created
    ensures forall i, j :: 0 <= i < j < |ids| ==> ids[i] < ids[j]
    ensures forall k, l: nat :: 0 <= k < |ids| && l < ids[k] && l in db.legs && db.legs[l].state == Created ==> l in ids
    ensures |ids| < limit ==>
              forall l: nat :: l < db.nextLegId && l in db.legs && db.legs[l].state == Created ==> l in ids
  {
    var all := CreatedIds(db, 0);
    if |all| <= limit then all else all[..limit]
  }

  function OldestCreated(db: Db, limit: nat): (legs: seq<LegRef>)
    ensures |legs| == |OldestIds(db, limit)|
    ensures forall i :: 0 <= i < |legs| ==> ReadFrom(db, legs[i]) && legs[i].id == OldestIds(db, limit)[i]
  {
    var ids := OldestIds(db, limit);
    seq(|ids|, i requires 0 <= i < |ids| => RefOf(db, ids[i]))
  }

  const LEGS_PER_TICK: nat := 20

  datatype Group = Group(planId: nat, legs: seq<LegRef>)

  function OfPlan(legs: seq<LegRef>, planId: nat): (r: seq<LegRef>)
    ensures |r| <= |legs|
    ensures forall i :: 0 <= i < |r| ==> r[i].planId == planId && r[i] in legs
  {
    if legs == [] then []
    else OfPlan(legs[..|legs| - 1], planId) + if legs[|legs| - 1].planId == planId then [legs[|legs| - 1]] else []
  }

  /** The plans of the legs, by first appearance. */
  function PlansOf(legs: seq<LegRef>): (r: seq<nat>)
    ensures forall p :: p in r <==> exists i :: 0 <= i < |legs| && legs[i].planId == p
    ensures Distinct(r)
  {
    if legs == [] then []
    else
      var last := legs[|legs| - 1];
      var before := PlansOf(legs[..|legs| - 1]);
      assert forall i :: 0 <= i < |legs| - 1 ==> legs[..|legs| - 1][i] == legs[i];
      if last.planId in before then before else before + [last.planId]
  }

  function Groups(legs: seq<LegRef>): seq<Group>
  {
    var plans := PlansOf(legs);
    seq(|plans|, i requires 0 <= i < |plans| => Group(plans[i], OfPlan(legs, plans[i])))
  }

  /** The grouping loop: legs are pushed into the bucket of their plan, a new one at the first leg. */
  method GroupByPlan(legs: seq<LegRef>) returns (groups: seq<Group>)
    ensures groups == Groups(legs)
  {
    groups := [];
    for i := 0 to |legs|
      invariant groups == Groups(legs[..i])
    {
      var leg := legs[i];
      assert legs[..i + 1][..i] == legs[..i];
      GroupsOfNext(legs[..i], leg);
      assert legs[..i + 1] == legs[..i] + [leg];
      var plans := PlansOf(legs[..i]);
      if k :| 0 <= k < |groups| && groups[k].planId == leg.planId {
        assert plans[k] == leg.planId;
        groups := groups[k := Group(leg.planId, groups[k].legs + [leg])];
      } else {
        forall k | 0 <= k < |plans|
          ensures plans[k] != leg.planId
        {
          assert groups[k].planId == plans[k];
        }
        groups := groups + [Group(leg.planId, [leg])];
      }
    }
    assert legs[..|legs|] == legs;
  }

  /** The buckets after one more leg. */
  lemma GroupsOfNext(legs: seq<LegRef>, leg: LegRef)
    ensures var before, after := Groups(legs), Groups(legs + [leg]);
            if leg.planId in PlansOf(legs) then
              |after| == |before|
              && forall k :: 0 <= k < |before| ==>
                   after[k] == if before[k].planId == leg.planId then Group(leg.planId, before[k].legs + [leg])
                               else before[k]
            else after == before + [Group(leg.planId, [leg])]
  {
    var more := legs + [leg];
    assert more[..|legs|] == legs;
    var plans := PlansOf(legs);
    forall k | 0 <= k < |plans|
      ensures OfPlan(more, plans[k])
           == if plans[k] == leg.planId then OfPlan(legs, plans[k]) + [leg] else OfPlan(legs, plans[k])
    {
      OfPlanNext(legs, leg, plans[k]);
    }
    if leg.planId !in plans {
      NoneOfPlan(legs, leg.planId);
      OfPlanNext(legs, leg, leg.planId);
      assert [] + [leg] == [leg];
      assert PlansOf(more) == plans + [leg.planId];
      forall k | 0 <= k < |plans|
        ensures Groups(more)[k] == Groups(legs)[k]
      {
        assert plans[k] != leg.planId;
      }
      assert Groups(more)[|plans|] == Group(leg.planId, [leg]);
      assert Groups(more) == Groups(legs) + [Group(leg.planId, [leg])];
    }
  }

  lemma OfPlanNext(legs: seq<LegRef>, leg: LegRef, planId: nat)
    ensures OfPlan(legs + [leg], planId)
         == if planId == leg.planId then OfPlan(legs, planId) + [leg] else OfPlan(legs, planId)
  {
  }

  lemma {:induction false} NoneOfPlan(legs: seq<LegRef>, planId: nat)
    requires planId !in PlansOf(legs)
    ensures OfPlan(legs, planId) == []
  {
    if legs != [] {
      NoneOfPlan(legs[..|legs| - 1], planId);
    }
  }

  /** The plans of a tick in turn; what goes wrong in one plan does not keep the others from their turn.
      `scripts` has one script per leg for each plan. */
  function DriveGroups(w: World, groups: seq<Group>, scripts: seq<seq<LegScript>>): seq<Event>
    requires |groups| <= |scripts|
    requires forall g :: 0 <= g < |groups| ==> |groups[g].legs| <= |scripts[g]|
    decreases |groups|
  {
    if groups == [] then []
    else
      var pass := DrivePlanLegs(w, groups[0].planId, groups[0].legs, scripts[0]);
      pass.events + DriveGroups(Protocol.Run(w, pass.events), groups[1..], scripts[1..])
  }

  predicate EnoughScripts(groups: seq<Group>, scripts: seq<seq<LegScript>>)
  {
    |groups| <= |scripts| && forall g :: 0 <= g < |groups| ==> |groups[g].legs| <= |scripts[g]|
  }

  // ----- what an undisturbed pass achieves -----

  /** Nobody else acts while the driver is at the leg, its call is a new one, the kill-switch is off, and the venue
      takes the order. */
  predicate IsUndisturbed(w: World, s: LegScript)
  {
    && s.halt == Clear && !s.liveHalted && s.caller !in w.callers
    && s.before == [] && s.during == [] && s.beforeRead == [] && s.beforeAck == [] && s.beforeFill == []
    && s.ending.Ends? && s.ending.answer.Submitted?
  }

  /** The leg is there, of the plan, in the state, and as it was in its target and the version given. */
  predicate IsAt(db: Db, leg: LegRef, state: LegState, target: real, version: nat)
  {
    && leg.id in db.legs && db.legs[leg.id].planId == leg.planId
    && db.legs[leg.id].state == state && db.legs[leg.id].target == target && db.legs[leg.id].entityVersion == version
  }

  lemma CallReserves(w: World, leg: LegRef, s: LegScript, target: real, version: nat)
    requires leg.planId in w.db.plans && w.db.plans[leg.planId].state == Executing
    requires IsAt(w.db, leg, Created, target, version)
    requires s.caller !in w.callers && !s.liveHalted
    ensures var v := Step(w, CallOf(leg, s));
            && Reserves(w, leg, s) && v.callers == w.callers[s.caller := Broadcasting(leg.planId, leg.id)]
            && IsAt(v.db, leg, Submitting, target, version + 1)
            && v.db == WithLeg(w.db, leg.id, v.db.legs[leg.id])
            && v.db.legs[leg.id].legType == w.db.legs[leg.id].legType
            && v.db.legs[leg.id].legIndex == w.db.legs[leg.id].legIndex
  {
  }

  lemma SubmissionSettles(w: World, leg: LegRef, s: LegScript, target: real, version: nat)
    requires IsAt(w.db, leg, Submitting, target, version) && !LacksBridgeParams(w.db, leg.planId, leg.id)
    requires s.caller in w.callers && w.callers[s.caller] == Broadcasting(leg.planId, leg.id)
    requires s.ending.Ends? && s.ending.answer.Submitted?
    ensures var v := Step(Step(w, Submit(s.caller, s.ending.answer)), Settle(s.caller));
            IsAt(v.db, leg, Sent, target, version + 1) && v.db.plans == w.db.plans && v.db.fills == w.db.fills
  {
  }

  lemma AcknowledgeMoves(w: World, leg: LegRef, target: real, version: nat)
    requires leg.planId in w.db.plans && IsAt(w.db, leg, Sent, target, version)
    ensures var v := Step(w, Transaction(OpAcknowledge(leg.planId, leg.id)));
            && MarkAcknowledged(w.db, leg.planId, leg.id).1.View?
            && IsAt(v.db, leg, Acknowledged, target, version + 1)
            && v.db.plans == w.db.plans && v.db.fills == w.db.fills
  {
  }

  lemma FullFillFills(w: World, leg: LegRef, key: nat, target: real, version: nat)
    requires leg.planId in w.db.plans && IsAt(w.db, leg, Acknowledged, target, version)
    requires FillKey(leg.id, key) !in w.db.fills
    ensures var v := Step(w, Transaction(OpFill(leg.planId, leg.id, FullFill(key))));
            && FillProceeds(w.db, leg.planId, leg.id, FullFill(key))
            && IsAt(v.db, leg, Filled, target, version + 1) && v.db.legs[leg.id].filled == target
  {
  }

  lemma CompletionKeepsLegs(w: World, planId: nat)
    ensures Step(w, Transaction(OpComplete(planId))).db.legs == w.db.legs
  {
  }

  /** A created leg of an executing plan that is sent undisturbed ends up filled in full, having been called and
      acknowledged. */
  lemma UndisturbedLegIsFilled(w: World, leg: LegRef, s: LegScript, target: real, version: nat)
    requires leg.planId in w.db.plans && w.db.plans[leg.planId].state == Executing
    requires IsAt(w.db, leg, Created, target, version) && !LacksBridgeParams(w.db, leg.planId, leg.id)
    requires IsUndisturbed(w, s) && FillKey(leg.id, s.fillKey) !in w.db.fills
    ensures var pass := SendLeg(w, leg, s);
            var after := Protocol.Run(w, pass.events).db;
            && pass.actions == [CalledMarkSent(leg), CalledAcknowledge(leg, Sent)]
            && IsAt(after, leg, Filled, target, version + 4) && after.legs[leg.id].filled == target
  {
    var call, submit, settle := CallOf(leg, s), Submit(s.caller, s.ending.answer), Settle(s.caller);
    var reserved := Step(w, call);
    var sent := Step(Step(reserved, submit), settle);
    CallReserves(w, leg, s, target, version);
    SubmissionSettles(reserved, leg, s, target, version + 1);
    assert Protocol.Run(w, []) == w && Protocol.Run(w, [call]) == reserved;
    assert [] + [call] == [call] && [call] + [] == [call];
    var ended := [call] + [submit, settle];
    ThreeSteps(w, call, submit, settle);
    assert ended == [call, submit, settle] && ended + [] == ended;
    AcknowledgedAndFilled(sent, leg, s, target, version + 2);
    Protocol.RunAppend(w, ended, AckAndFill(sent, leg, s));
  }

  lemma ThreeSteps(w: World, a: Event, b: Event, c: Event)
    ensures Protocol.Run(w, [a, b, c]) == Step(Step(Step(w, a), b), c)
  {
    var v := Step(Step(w, a), b);
    assert [a, b, c][1..] == [b, c] && [b, c][1..] == [c] && [c][1..] == [];
    assert Protocol.Run(v, [c]) == Step(v, c);
  }

  lemma AcknowledgedAndFilled(w: World, leg: LegRef, s: LegScript, target: real, version: nat)
    requires leg.planId in w.db.plans && IsAt(w.db, leg, Sent, target, version)
    requires s.beforeAck == [] && s.beforeFill == [] && FillKey(leg.id, s.fillKey) !in w.db.fills
    ensures var after := Protocol.Run(w, AckAndFill(w, leg, s)).db;
            IsAt(after, leg, Filled, target, version + 2) && after.legs[leg.id].filled == target
  {
    var ack := Transaction(OpAcknowledge(leg.planId, leg.id));
    var fill := Transaction(OpFill(leg.planId, leg.id, FullFill(s.fillKey)));
    var complete := Transaction(OpComplete(leg.planId));
    AcknowledgeMoves(w, leg, target, version);
    FullFillFills(Step(w, ack), leg, s.fillKey, target, version + 1);
    CompletionKeepsLegs(Step(Step(w, ack), fill), leg.planId);
    assert Protocol.Run(w, []) == w && Protocol.Run(w, [ack]) == Step(w, ack);
    assert [] + [ack] == [ack] && [ack] + [] == [ack];
    assert AckAndFill(w, leg, s) == [ack, fill, complete];
    ThreeSteps(w, ack, fill, complete);
  }

  /** A pass over an executing plan whose halt checks are all clear calls exactly its live legs. */
  lemma ClearPassCallsLiveLegs(w: World, planId: nat, legs: seq<LegRef>, scripts: seq<LegScript>, leg: LegRef)
    requires |legs| <= |scripts| && forall i :: 0 <= i < |scripts| ==> scripts[i].halt == Clear
    requires planId in w.db.plans && w.db.plans[planId].state == Executing
    ensures var pass := DrivePlanLegs(w, planId, legs, scripts);
            CalledMarkSent(leg) in pass.actions
            <==> leg in legs && IsLiveVenueKey(DriverVenueKey(w.db.plans[planId].config, leg.legIndex))
  {
    var sorted := SortByIndex(legs);
    ClearLegsAreCalled(w, w.db.plans[planId].config, sorted, scripts, leg);
    SortIsStable(legs, leg.legIndex);
    WithIndexHolds(sorted, leg);
    WithIndexHolds(legs, leg);
  }

  lemma {:induction false} ClearLegsAreCalled(w: World, config: Option<Config>, legs: seq<LegRef>,
                                              scripts: seq<LegScript>, leg: LegRef)
    requires |legs| <= |scripts| && forall i :: 0 <= i < |scripts| ==> scripts[i].halt == Clear
    ensures CalledMarkSent(leg) in DriveLegs(w, config, legs, scripts).actions
            <==> leg in legs && IsLiveVenueKey(DriverVenueKey(config, leg.legIndex))
    decreases |legs|
  {
    if legs != [] {
      var first := DriveLeg(w, config, legs[0], scripts[0]);
      SendLegActions(w, legs[0], scripts[0]);
      ClearLegsAreCalled(Protocol.Run(w, first.events), config, legs[1..], scripts[1..], leg);
      assert legs == [legs[0]] + legs[1..];
    }
  }

  /** A tick with clear halt checks calls every live created leg that it reads of its first plan, if that is
      executing. */
  lemma TickCallsFirstPlan(w: World, t: TickScript, leg: LegRef)
    requires t.halt == Clear
    requires var v := Protocol.Run(w, t.before);
             var groups := Groups(OldestCreated(v.db, 20));
             && EnoughScripts(groups, t.legScripts) && groups != [] && leg in groups[0].legs
             && (forall i :: 0 <= i < |t.legScripts[0]| ==> t.legScripts[0][i].halt == Clear)
             && groups[0].planId in v.db.plans && v.db.plans[groups[0].planId].state == Executing
             && IsLiveVenueKey(DriverVenueKey(v.db.plans[groups[0].planId].config, leg.legIndex))
    ensures exists s :: s in t.legScripts[0] && CallOf(leg, s) in TickEvents(w, t)
  {
    var v := Protocol.Run(w, t.before);
    var groups := Groups(OldestCreated(v.db, 20));
    var first := groups[0];
    var sorted := SortByIndex(first.legs);
    SortIsStable(first.legs, leg.legIndex);
    WithIndexHolds(sorted, leg);
    WithIndexHolds(first.legs, leg);
    var s := ClearLegsAct(v, v.db.plans[first.planId].config, sorted, t.legScripts[0], leg);
    assert CallOf(leg, s) in DrivePlanLegs(v, first.planId, first.legs, t.legScripts[0]).events;
    assert CallOf(leg, s) in DriveGroups(v, groups, t.legScripts);
  }

  lemma {:induction false} ClearLegsAct(w: World, config: Option<Config>, legs: seq<LegRef>, scripts: seq<LegScript>,
                                        leg: LegRef) returns (s: LegScript)
    requires |legs| <= |scripts| && forall i :: 0 <= i < |scripts| ==> scripts[i].halt == Clear
    requires leg in legs && IsLiveVenueKey(DriverVenueKey(config, leg.legIndex))
    ensures s in scripts && CallOf(leg, s) in DriveLegs(w, config, legs, scripts).events
    decreases |legs|
  {
    var first := DriveLeg(w, config, legs[0], scripts[0]);
    SendLegActions(w, legs[0], scripts[0]);
    if leg == legs[0] {
      s := scripts[0];
      SendLegActs(w, leg, s);
    } else {
      assert legs == [legs[0]] + legs[1..];
      s := ClearLegsAct(Protocol.Run(w, first.events), config, legs[1..], scripts[1..], leg);
      assert s in scripts;
    }
  }

  // ----- how far a halt reaches -----

  /** The halt check is not clear at the first live leg. */
  predicate HaltsAtFirstLive(config: Option<Config>, legs: seq<LegRef>, scripts: seq<LegScript>)
    requires |legs| <= |scripts|
    decreases |legs|
  {
    legs != []
    && if IsLiveVenueKey(DriverVenueKey(config, legs[0].legIndex)) then !scripts[0].halt.Clear?
       else HaltsAtFirstLive(config, legs[1..], scripts[1..])
  }

  /** The turn of the plan passes without an event. */
  predicate IsQuiet(db: Db, group: Group, scripts: seq<LegScript>)
    requires |group.legs| <= |scripts|
  {
    group.planId in db.plans && db.plans[group.planId].state == Executing ==>
      HaltsAtFirstLive(db.plans[group.planId].config, SortByIndex(group.legs), scripts)
  }

  lemma {:induction false} QuietLegs(w: World, config: Option<Config>, legs: seq<LegRef>, scripts: seq<LegScript>)
    requires |legs| <= |scripts|
    ensures var pass := DriveLegs(w, config, legs, scripts);
            pass.events == [] && !pass.goOn <==> HaltsAtFirstLive(config, legs, scripts)
    decreases |legs|
  {
    if legs != [] {
      var first := DriveLeg(w, config, legs[0], scripts[0]);
      if IsLiveVenueKey(DriverVenueKey(config, legs[0].legIndex)) {
        if scripts[0].halt.Clear? {
          SendLegActs(w, legs[0], scripts[0]);
        }
      } else {
        QuietLegs(w, config, legs[1..], scripts[1..]);
        assert [] + DriveLegs(w, config, legs[1..], scripts[1..]).events
            == DriveLegs(w, config, legs[1..], scripts[1..]).events;
      }
    }
  }

  lemma SendLegActs(w: World, leg: LegRef, s: LegScript)
    ensures CallOf(leg, s) in SendLeg(w, leg, s).events
  {
    var reached := s.before + [CallOf(leg, s)];
    assert reached[|s.before|] == CallOf(leg, s);
  }

  lemma QuietIff(w: World, group: Group, scripts: seq<LegScript>)
    requires |group.legs| <= |scripts|
    ensures DrivePlanLegs(w, group.planId, group.legs, scripts).events == [] <==> IsQuiet(w.db, group, scripts)
  {
    if group.planId in w.db.plans && w.db.plans[group.planId].state == Executing {
      QuietLegs(w, w.db.plans[group.planId].config, SortByIndex(group.legs), scripts);
    }
  }

  lemma {:induction false} AllQuietIff(w: World, groups: seq<Group>, scripts: seq<seq<LegScript>>)
    requires EnoughScripts(groups, scripts)
    ensures DriveGroups(w, groups, scripts) == []
            <==> forall g :: 0 <= g < |groups| ==> IsQuiet(w.db, groups[g], scripts[g])
    decreases |groups|
  {
    if groups != [] {
      QuietIff(w, groups[0], scripts[0]);
      if IsQuiet(w.db, groups[0], scripts[0]) {
        AllQuietIff(w, groups[1..], scripts[1..]);
        assert forall g :: 1 <= g < |groups| ==> groups[g] == groups[1..][g - 1] && scripts[g] == scripts[1..][g - 1];
        assert forall g :: 0 <= g < |groups| - 1 ==> groups[1..][g] == groups[g + 1];
      }
    }
  }

  /** A halt ends the pass over its plan, and the tick goes on with the next plan. It is the last that the tick
      does if and only if every later plan is no longer executing or meets a halt, too, at its first live leg. */
  lemma HaltEndsTickIff(w: World, groups: seq<Group>, scripts: seq<seq<LegScript>>)
    requires groups != [] && EnoughScripts(groups, scripts)
    requires !DrivePlanLegs(w, groups[0].planId, groups[0].legs, scripts[0]).goOn
    ensures var pass := DrivePlanLegs(w, groups[0].planId, groups[0].legs, scripts[0]);
            DriveGroups(w, groups, scripts) == pass.events
            <==> forall g :: 1 <= g < |groups| ==> IsQuiet(Protocol.Run(w, pass.events).db, groups[g], scripts[g])
  {
    var pass := DrivePlanLegs(w, groups[0].planId, groups[0].legs, scripts[0]);
    var v := Protocol.Run(w, pass.events);
    var rest := DriveGroups(v, groups[1..], scripts[1..]);
    AllQuietIff(v, groups[1..], scripts[1..]);
    assert forall g :: 1 <= g < |groups| ==> groups[g] == groups[1..][g - 1] && scripts[g] == scripts[1..][g - 1];
    assert |pass.events + rest| == |pass.events| + |rest|;
  }

  /** The failing input: the switch is on at a leg of the first plan and off again at the one live leg of the
      second. The same tick goes on to send it. */
  lemma TickGoesOnAfterHalt(w: World, halted: Group, next: Group, scripts: seq<seq<LegScript>>, leg: LegRef)
    requires EnoughScripts([halted, next], scripts) && next.legs == [leg]
    requires var pass := DrivePlanLegs(w, halted.planId, halted.legs, scripts[0]);
             var v := Protocol.Run(w, pass.events);
             && Stopped in pass.actions
             && next.planId in v.db.plans && v.db.plans[next.planId].state == Executing
             && IsLiveVenueKey(DriverVenueKey(v.db.plans[next.planId].config, leg.legIndex))
    requires scripts[1] != [] && scripts[1][0].halt.Clear?
    ensures CallOf(leg, scripts[1][0]) in DriveGroups(w, [halted, next], scripts)
  {
    var pass := DrivePlanLegs(w, halted.planId, halted.legs, scripts[0]);
    var v := Protocol.Run(w, pass.events);
    var call := CallOf(leg, scripts[1][0]);
    var second := DrivePlanLegs(v, next.planId, next.legs, scripts[1]);
    SendLegActs(v, leg, scripts[1][0]);
    assert SortByIndex([leg]) == [leg];
    assert call in DriveLegs(v, v.db.plans[next.planId].config, [leg], scripts[1]).events;
    assert call in second.events;
    assert [halted, next][1..] == [next];
    assert call in DriveGroups(v, [next], scripts[1..]);
  }

  /** What happens in a tick: everyone else's events before it, the halt check at its start, and a script per
      leg for each of its plans. */
  datatype TickScript = TickScript(before: seq<Event>, halt: HaltCheck, legScripts: seq<seq<LegScript>>)

  /** The events of a tick. A script that is too short stands for a tick cut off by a crash. */
  function TickEvents(w: World, t: TickScript): seq<Event>
  {
    if !t.halt.Clear? then t.before
    else
      var v := Protocol.Run(w, t.before);
      var groups := Groups(OldestCreated(v.db, LEGS_PER_TICK));
      if EnoughScripts(groups, t.legScripts) then t.before + DriveGroups(v, groups, t.legScripts) else t.before
  }

  function TicksEvents(w: World, ticks: seq<TickScript>): seq<Event>
    decreases |ticks|
  {
    if ticks == [] then []
    else
      var first := TickEvents(w, ticks[0]);
      first + TicksEvents(Protocol.Run(w, first), ticks[1..])
  }

  /** A corollary of `AtMostOneBroadcast`, ticks being runs of the protocol: over any number of them, with
      timeouts that leave calls behind, other callers, crashes, the reaper and plan failures, no leg is broadcast
      twice, and none without its one reservation. */
  lemma DriverBroadcastsOnce(w: World, ticks: seq<TickScript>)
    requires Initial(w)
    ensures var s := Protocol.Run(w, TicksEvents(w, ticks));
            && Distinct(s.broadcasts) && Distinct(s.reserved)
            && (forall l :: l in s.broadcasts ==> l in s.reserved)
  {
    AtMostOneBroadcast(w, TicksEvents(w, ticks));
  }
}
