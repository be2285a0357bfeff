/** The auto-driver as the worker runs it: flags, loops, and a world that everyone else changes too. */
module AutoDriverWorker {
  import opened Prelude
  import opened Playbook
  import opened ExecutionDb
  import opened Protocol = MarkSentProtocol
  import opened AutoDriver

  lemma RunOne(w: World, events: seq<Event>, e: Event)
    ensures Protocol.Run(w, events + [e]) == Step(Protocol.Run(w, events), e)
  {
    Protocol.RunAppend(w, events, [e]);
    assert Protocol.Run(Protocol.Run(w, events), [e]) == Step(Protocol.Run(w, events), e);
  }

  /** How a pass goes on after some turn of its loop. */
  datatype Progress = Progress(world: World, actions: seq<Action>, goOn: bool)

  ghost function After(p: Progress, pass: Pass): Progress
  {
    Progress(Protocol.Run(p.world, pass.events), p.actions + pass.actions, pass.goOn)
  }

  /** One turn and then the rest are the pass that consists of both. */
  lemma AfterBoth(p: Progress, turn: Pass, rest: Pass)
    ensures After(After(p, turn), rest)
         == After(p, Pass(turn.events + rest.events, turn.actions + rest.actions, rest.goOn))
  {
    Protocol.RunAppend(p.world, turn.events, rest.events);
    assert p.actions + (turn.actions + rest.actions) == p.actions + turn.actions + rest.actions;
  }

  /** What a pass that has done the first `i` legs still comes to. */
  ghost function Rest(p: Progress, config: Option<Config>, legs: seq<LegRef>, scripts: seq<LegScript>, i: nat): Progress
    requires i <= |legs| <= |scripts|
  {
    After(p, AutoDriver.DriveLegs(p.world, config, legs[i..], scripts[i..]))
  }

  lemma RestUnfolds(p: Progress, config: Option<Config>, legs: seq<LegRef>, scripts: seq<LegScript>, i: nat)
    requires i < |legs| <= |scripts|
    ensures var turn := AutoDriver.DriveLeg(p.world, config, legs[i], scripts[i]);
            Rest(p, config, legs, scripts, i) ==
            if turn.goOn then Rest(After(p, turn), config, legs, scripts, i + 1) else After(p, turn)
  {
    assert legs[i..][0] == legs[i] && legs[i..][1..] == legs[i + 1..];
    assert scripts[i..][0] == scripts[i] && scripts[i..][1..] == scripts[i + 1..];
    var turn := AutoDriver.DriveLeg(p.world, config, legs[i], scripts[i]);
    var rest := AutoDriver.DriveLegs(After(p, turn).world, config, legs[i + 1..], scripts[i + 1..]);
    AfterBoth(p, turn, rest);
  }

  lemma RestDone(p: Progress, config: Option<Config>, legs: seq<LegRef>, scripts: seq<LegScript>)
    requires |legs| <= |scripts| && p.goOn
    ensures Rest(p, config, legs, scripts, |legs|) == p
  {
  }

  class LegAutoDriverWorker {
    var world: World
    var isRunning: bool
    var isShuttingDown: bool
    const enabled: bool

    constructor (world: World, enabled: bool)
      ensures this.world == world && this.enabled == enabled && !isRunning && !isShuttingDown
    {
      this.world, this.enabled := world, enabled;
      isRunning, isShuttingDown := false, false;
    }

    /** Everyone else acts. */
    method Others(events: seq<Event>)
      modifies this`world
      ensures world == Protocol.Run(old(world), events)
    {
      world := Protocol.Run(world, events);
    }

    method Act(e: Event)
      modifies this`world
      ensures world == Step(old(world), e)
    {
      world := Step(world, e);
    }

    method AcknowledgeAndFill(leg: LegRef, s: LegScript)
      modifies this`world
      ensures world == Protocol.Run(old(world), AckAndFill(old(world), leg, s))
    {
      ghost var start := world;
      Others(s.beforeAck);
      var refused := MarkAcknowledged(world.db, leg.planId, leg.id).1.Refused?;
      Act(Transaction(OpAcknowledge(leg.planId, leg.id)));
      RunOne(start, s.beforeAck, Transaction(OpAcknowledge(leg.planId, leg.id)));
      if refused {
        return;
      }
      ghost var acked := s.beforeAck + [Transaction(OpAcknowledge(leg.planId, leg.id))];
      Others(s.beforeFill);
      Protocol.RunAppend(start, acked, s.beforeFill);
      var fill := FullFill(s.fillKey);
      var proceeds := FillProceeds(world.db, leg.planId, leg.id, fill);
      Act(Transaction(OpFill(leg.planId, leg.id, fill)));
      RunOne(start, acked + s.beforeFill, Transaction(OpFill(leg.planId, leg.id, fill)));
      if proceeds {
        Act(Transaction(OpComplete(leg.planId)));
        RunOne(start, acked + s.beforeFill + [Transaction(OpFill(leg.planId, leg.id, fill))],
               Transaction(OpComplete(leg.planId)));
      }
    }

    /** The raced `markSent` call, the second look at the leg, and what follows. */
    method SendLeg(leg: LegRef, s: LegScript) returns (actions: seq<Action>)
      modifies this`world
      ensures var pass := AutoDriver.SendLeg(old(world), leg, s);
              world == Protocol.Run(old(world), pass.events) && actions == pass.actions
    {
      ghost var start := world;
      actions := [CalledMarkSent(leg)];
      Others(s.before);
      var reserves := Reserves(world, leg, s);
      Act(CallOf(leg, s));
      RunOne(start, s.before, CallOf(leg, s));
      if !reserves {
        return;
      }
      ghost var done := s.before + [CallOf(leg, s)];
      Others(s.during);
      Protocol.RunAppend(start, done, s.during);
      done := done + s.during;
      if s.ending.TimesOut? {
        return;
      }
      var callReturns := Returns(world.db, leg, s.ending.answer);
      Act(Submit(s.caller, s.ending.answer));
      Act(Settle(s.caller));
      RunOne(start, done, Submit(s.caller, s.ending.answer));
      RunOne(start, done + [Submit(s.caller, s.ending.answer)], Settle(s.caller));
      assert done + [Submit(s.caller, s.ending.answer)] + [Settle(s.caller)]
          == done + [Submit(s.caller, s.ending.answer), Settle(s.caller)];
      done := done + [Submit(s.caller, s.ending.answer), Settle(s.caller)];
      if !callReturns {
        return;
      }
      Others(s.beforeRead);
      Protocol.RunAppend(start, done, s.beforeRead);
      done := done + s.beforeRead;
      if leg.id !in world.db.legs {
        return;
      }
      var state := world.db.legs[leg.id].state;
      if state != Sent {
        return;
      }
      Protocol.RunAppend(start, done, AckAndFill(world, leg, s));
      AcknowledgeAndFill(leg, s);
      actions := actions + [CalledAcknowledge(leg, state)];
    }

    method DriveLegs(config: Option<Config>, legs: seq<LegRef>, scripts: seq<LegScript>)
      returns (actions: seq<Action>, goOn: bool)
      requires |legs| <= |scripts|
      modifies this`world
      ensures var pass := AutoDriver.DriveLegs(old(world), config, legs, scripts);
              world == Protocol.Run(old(world), pass.events) && actions == pass.actions && goOn == pass.goOn
    {
      actions := [];
      ghost var end := Rest(Progress(world, [], true), config, legs, scripts, 0);
      assert legs[0..] == legs && scripts[0..] == scripts;
      for i := 0 to |legs|
        invariant Rest(Progress(world, actions, true), config, legs, scripts, i) == end
      {
        RestUnfolds(Progress(world, actions, true), config, legs, scripts, i);
        var done, more := DriveLeg(config, legs[i], scripts[i]);
        actions := actions + done;
        if !more {
          return actions, false;
        }
      }
      RestDone(Progress(world, actions, true), config, legs, scripts);
      goOn := true;
    }

    method DriveLeg(config: Option<Config>, leg: LegRef, s: LegScript) returns (actions: seq<Action>, goOn: bool)
      modifies this`world
      ensures var pass := AutoDriver.DriveLeg(old(world), config, leg, s);
              world == Protocol.Run(old(world), pass.events) && actions == pass.actions && goOn == pass.goOn
    {
      var venueKey := DriverVenueKey(config, leg.legIndex);
      if venueKey.None? || !IsLiveVenueKey(venueKey) {
        return [], true;
      }
      if !s.halt.Clear? {
        return [Stopped], false;
      }
      actions := SendLeg(leg, s);
      goOn := true;
    }

    method DrivePlanLegs(planId: nat, legs: seq<LegRef>, scripts: seq<LegScript>)
      returns (actions: seq<Action>, goOn: bool)
      requires |legs| <= |scripts|
      modifies this`world
      ensures var pass := AutoDriver.DrivePlanLegs(old(world), planId, legs, scripts);
              world == Protocol.Run(old(world), pass.events) && actions == pass.actions && goOn == pass.goOn
      ensures Disciplined(actions)
    {
      PlanPassDisciplined(world, planId, legs, scripts);
      if planId !in world.db.plans || world.db.plans[planId].state != Executing {
        return [], true;
      }
      ghost var start := world;
      var config := world.db.plans[planId].config;
      var sorted := SortByIndex(legs);
      actions, goOn := DriveLegs(config, sorted, scripts);
      if goOn {
        RunOne(start, AutoDriver.DriveLegs(start, config, sorted, scripts).events, Transaction(OpComplete(planId)));
        Act(Transaction(OpComplete(planId)));
      }
    }

    /** The plans of a tick, each with the legs read at its start. */
    method DrivePendingLegs(scripts: seq<seq<LegScript>>)
      requires EnoughScripts(Groups(OldestCreated(world.db, LEGS_PER_TICK)), scripts)
      modifies this`world
      ensures var groups := Groups(OldestCreated(old(world).db, LEGS_PER_TICK));
              world == Protocol.Run(old(world), DriveGroups(old(world), groups, scripts))
    {
      var createdLegs := OldestCreated(world.db, LEGS_PER_TICK);
      var byPlan := GroupByPlan(createdLegs);
      ghost var end := Protocol.Run(world, DriveGroups(world, byPlan, scripts));
      for g := 0 to |byPlan|
        invariant Protocol.Run(world, DriveGroups(world, byPlan[g..], scripts[g..])) == end
      {
        assert byPlan[g..][0] == byPlan[g] && byPlan[g..][1..] == byPlan[g + 1..];
        assert scripts[g..][0] == scripts[g] && scripts[g..][1..] == scripts[g + 1..];
        ghost var before := world;
        ghost var pass := AutoDriver.DrivePlanLegs(before, byPlan[g].planId, byPlan[g].legs, scripts[g]);
        ghost var next := Protocol.Run(before, pass.events);
        var _, _ := DrivePlanLegs(byPlan[g].planId, byPlan[g].legs, scripts[g]);
        Protocol.RunAppend(before, pass.events, DriveGroups(next, byPlan[g + 1..], scripts[g + 1..]));
      }
      assert byPlan[|byPlan|..] == [];
    }

    /** One tick. It does nothing while another tick is running, during shutdown, or when switched off. */
    method RunCycle(t: TickScript)
      requires EnoughScripts(Groups(OldestCreated(Protocol.Run(world, t.before).db, LEGS_PER_TICK)), t.legScripts)
      modifies this
      ensures isRunning == old(isRunning) && isShuttingDown == old(isShuttingDown)
      ensures world == Protocol.Run(old(world), if old(isRunning) || old(isShuttingDown) || !enabled then t.before
                                                else TickEvents(old(world), t))
    {
      ghost var start := world;
      Others(t.before);
      if isShuttingDown || isRunning {
        return;
      }
      if !enabled {
        return;
      }
      isRunning := true;
      if t.halt.Clear? {
        ghost var groups := Groups(OldestCreated(world.db, LEGS_PER_TICK));
        Protocol.RunAppend(start, t.before, DriveGroups(world, groups, t.legScripts));
        DrivePendingLegs(t.legScripts);
      }
      isRunning := false;
    }
  }
}
