/** Which plans are kept from beginning with a live leg whose cost was never valued (legs.service.ts,
    trade-cost-estimator.service.ts). The estimate is made from `config.legs` alone, while a leg may also be
    live by a legacy entry or by the plan's own venue key. */
module BeginGate {
  import opened Prelude
  import opened Playbook
  import opened ExecutionDb
  import opened TradeCost

  function ConfiguredLegs(config: Option<Config>): seq<LegEntry>
  {
    if config.Some? && config.value.legs.Some? then config.value.legs.value else []
  }

  /** What the estimator is told of a plan: one input per entry of `config.legs`, none for a `null` entry, and
      of the entry's type. What its sources answer is free. */
  ghost predicate AreInputsOf(inputs: seq<Option<LegInput>>, config: Option<Config>)
  {
    var legs := ConfiguredLegs(config);
    && |inputs| == |legs|
    && forall i :: 0 <= i < |legs| ==>
         && (inputs[i].Some? <==> legs[i].LegEntry?)
         && (inputs[i].Some? ==> (inputs[i].value.BridgeInput? <==> legs[i].legType.Bridge?))
  }

  function GrossProfit(config: Option<Config>): Option<real>
  {
    if config.Some? then config.value.grossProfitUsd else None
  }

  /** Leg number `i` that begins is the leg of entry `i`, and of its type. */
  predicate HasOwnEntry(config: Option<Config>, defs: seq<LegEntry>, i: nat)
    requires i < |defs| && defs[i].LegEntry?
  {
    var legs := ConfiguredLegs(config);
    i < |legs| && legs[i].LegEntry? && legs[i].legType == defs[i].legType
  }

  predicate IsValuedAs(inputs: seq<Option<LegInput>>, i: nat, legType: LegType)
  {
    i < |inputs| && inputs[i].Some? && IsValued(inputs[i].value)
    && (inputs[i].value.BridgeInput? <==> legType.Bridge?)
  }

  ghost predicate AllValued(inputs: seq<Option<LegInput>>, defs: seq<LegEntry>)
    requires AllEntries(defs)
  {
    forall i :: 0 <= i < |defs| ==> IsValuedAs(inputs, i, defs[i].legType)
  }

  /** A plan that may begin, with at least one live leg. */
  predicate MayBeginLive(db: Db, planId: nat, legacyCount: int)
  {
    && planId in db.plans && db.plans[planId].state == Armed
    && (forall l :: l in db.legs ==> db.legs[l].planId != planId)
    && LegDefs(db.plans[planId].config, legacyCount).Some?
    && HasLiveLeg(db.plans[planId].config, LegDefs(db.plans[planId].config, legacyCount).value)
  }

  /** Whatever the sources answer and whatever the floor is, the plan begins on a completed estimate only if
      each of its legs has been valued. */
  ghost predicate BeginsOnlyValued(db: Db, planId: nat, legacyCount: int)
    requires MayBeginLive(db, planId, legacyCount)
  {
    var config := db.plans[planId].config;
    forall inputs, costs, floor ::
      AreInputsOf(inputs, config) && AreEstimates(costs, inputs)
      && BeginExecution(db, planId, legacyCount, Some(Breakdown(costs, GrossProfit(config))), floor).1.Began?
      ==> AllValued(inputs, LegDefs(config, legacyCount).value)
  }

  /** Inputs that are fine in every respect. */
  function GoodInputs(legs: seq<LegEntry>): seq<Option<LegInput>>
  {
    seq(|legs|, i requires 0 <= i < |legs| => GoodInput(legs[i]))
  }

  function GoodInput(entry: LegEntry): Option<LegInput>
  {
    if entry.NullEntry? then None
    else if entry.legType.Bridge? then Some(BridgeInput(Some(ZERO), GasValue(0.0)))
    else Some(DexInput(GasValue(0.0), None, 0, None, None, None, None, 0))
  }

  function GoodCost(legIndex: nat, input: LegInput): LegCost
  {
    if input.BridgeInput? then LegCost(legIndex, Bridge, ZERO, ZERO, ZERO, ZERO, ZERO, ZERO, Exact)
    else LegCost(legIndex, Dex, ZERO, ZERO, ZERO, ZERO, ZERO, Finite(50.0), Modeled)
  }

  function GoodCosts(inputs: seq<Option<LegInput>>): seq<LegCost>
  {
    var at := Estimated(inputs);
    seq(|at|, k requires 0 <= k < |at| => GoodCost(at[k], inputs[at[k]].value))
  }

  lemma GoodCostsAreEstimates(legs: seq<LegEntry>)
    ensures AreEstimates(GoodCosts(GoodInputs(legs)), GoodInputs(legs))
    ensures AggregateConfidence(GoodCosts(GoodInputs(legs))) != Confidence.Unavailable
  {
    var inputs := GoodInputs(legs);
    var at := Estimated(inputs);
    forall k | 0 <= k < |at|
      ensures IsEstimate(GoodCosts(inputs)[k], at[k], inputs[at[k]].value)
    {
      assert inputs[at[k]] == GoodInput(legs[at[k]]);
    }
  }

  /** With good inputs and a floor at the net profit, the gate allows the plan. */
  lemma GoodPlanBegins(db: Db, planId: nat, legacyCount: int) returns (floor: real)
    requires MayBeginLive(db, planId, legacyCount)
    ensures var config := db.plans[planId].config;
            var costs := GoodCosts(GoodInputs(ConfiguredLegs(config)));
            BeginExecution(db, planId, legacyCount, Some(Breakdown(costs, GrossProfit(config))), floor).1.Began?
  {
    var config := db.plans[planId].config;
    GoodCostsAreEstimates(ConfiguredLegs(config));
    var plan := Breakdown(GoodCosts(GoodInputs(ConfiguredLegs(config))), GrossProfit(config));
    floor := if plan.netProfitUsd.Some? then plan.netProfitUsd.value else 0.0;
  }

  ghost predicate AllHaveOwnEntries(config: Option<Config>, defs: seq<LegEntry>)
    requires AllEntries(defs)
  {
    forall i :: 0 <= i < |defs| ==> HasOwnEntry(config, defs, i)
  }

  lemma OwnEntriesAreValued(config: Option<Config>, defs: seq<LegEntry>, inputs: seq<Option<LegInput>>, plan: PlanCost,
                            floor: real)
    requires AllEntries(defs) && AllHaveOwnEntries(config, defs)
    requires AreInputsOf(inputs, config) && AreEstimates(plan.legs, inputs)
    requires plan.estimateConfidence == AggregateConfidence(plan.legs) && Allowed(plan, floor)
    ensures AllValued(inputs, defs)
  {
    forall i | 0 <= i < |defs|
      ensures IsValuedAs(inputs, i, defs[i].legType)
    {
      assert HasOwnEntry(config, defs, i);
      AllowedMeansValued(inputs, plan, floor, i);
    }
  }

  lemma BeganMeansAllowed(db: Db, planId: nat, legacyCount: int, plan: PlanCost, floor: real)
    requires MayBeginLive(db, planId, legacyCount)
    ensures BeginExecution(db, planId, legacyCount, Some(plan), floor).1.Began? <==> Allowed(plan, floor)
  {
  }

  lemma MissingEntryIsNotValued(config: Option<Config>, defs: seq<LegEntry>)
    requires AllEntries(defs) && !AllHaveOwnEntries(config, defs)
    ensures AreInputsOf(GoodInputs(ConfiguredLegs(config)), config)
    ensures !AllValued(GoodInputs(ConfiguredLegs(config)), defs)
  {
    var i :| 0 <= i < |defs| && !HasOwnEntry(config, defs, i);
    assert !IsValuedAs(GoodInputs(ConfiguredLegs(config)), i, defs[i].legType);
  }

  /** The gate does its work exactly when every leg that begins has an entry of its own, of its own type, in
      `config.legs`. */
  lemma LiveBeginValuedIff(db: Db, planId: nat, legacyCount: int)
    requires MayBeginLive(db, planId, legacyCount)
    ensures BeginsOnlyValued(db, planId, legacyCount)
            <==> AllHaveOwnEntries(db.plans[planId].config, LegDefs(db.plans[planId].config, legacyCount).value)
  {
    var config := db.plans[planId].config;
    var defs := LegDefs(config, legacyCount).value;
    if AllHaveOwnEntries(config, defs) {
      forall inputs, costs, floor |
        AreInputsOf(inputs, config) && AreEstimates(costs, inputs)
        && BeginExecution(db, planId, legacyCount, Some(Breakdown(costs, GrossProfit(config))), floor).1.Began?
        ensures AllValued(inputs, defs)
      {
        var plan := Breakdown(costs, GrossProfit(config));
        BeganMeansAllowed(db, planId, legacyCount, plan, floor);
        OwnEntriesAreValued(config, defs, inputs, plan, floor);
      }
    } else {
      var inputs := GoodInputs(ConfiguredLegs(config));
      MissingEntryIsNotValued(config, defs);
      GoodCostsAreEstimates(ConfiguredLegs(config));
      var floor := GoodPlanBegins(db, planId, legacyCount);
    }
  }

  /** A plan of the multi-leg builder meets the condition; so does a legacy plan if and only if `config.legs`
      covers its legs with DEX entries. */
  lemma OwnEntriesIff(config: Option<Config>, legacyCount: int)
    requires LegDefs(config, legacyCount).Some?
    ensures var defs := LegDefs(config, legacyCount).value;
            AllHaveOwnEntries(config, defs)
            <==> MultiLegs(config) != []
                 || (var legs := ConfiguredLegs(config);
                     |defs| <= |legs| && forall i :: 0 <= i < |defs| ==> legs[i].LegEntry? && legs[i].legType.Dex?)
  {
    var defs := LegDefs(config, legacyCount).value;
    if MultiLegs(config) == [] && AllHaveOwnEntries(config, defs) {
      assert HasOwnEntry(config, defs, |defs| - 1);
      forall i | 0 <= i < |defs|
        ensures ConfiguredLegs(config)[i].LegEntry? && ConfiguredLegs(config)[i].legType.Dex?
      {
        assert HasOwnEntry(config, defs, i);
      }
    }
  }

  /** A known net profit below the floor keeps a live plan from beginning. */
  lemma LiveBeginMeetsFloor(db: Db, planId: nat, legacyCount: int, costs: seq<LegCost>, floor: real)
    requires MayBeginLive(db, planId, legacyCount) && GrossProfit(db.plans[planId].config).Some?
    requires var plan := Breakdown(costs, GrossProfit(db.plans[planId].config));
             BeginExecution(db, planId, legacyCount, Some(plan), floor).1.Began?
    ensures GrossProfit(db.plans[planId].config).value - SumOf(Totals(costs)) >= floor
  {
  }

  /** The failing input: a legacy plan whose live venue is the plan's own key. Nothing is estimated, the gate
      allows the empty estimate at every floor, and a live DEX leg begins. */
  lemma LegacyLivePlanBeginsUnvalued(db: Db, planId: nat, legacyCount: int, costs: seq<LegCost>, floor: real)
    requires planId in db.plans && db.plans[planId].state == Armed
    requires forall l :: l in db.legs ==> db.legs[l].planId != planId
    requires db.plans[planId].config == Some(Config(0, None, None, Some("uniswap-v3"), None, None))
    requires AreEstimates(costs, [])
    ensures MayBeginLive(db, planId, legacyCount)
    ensures AreInputsOf([], db.plans[planId].config) && GrossProfit(db.plans[planId].config) == None
    ensures BeginExecution(db, planId, legacyCount, Some(Breakdown(costs, None)), floor).1.Began?
    ensures !BeginsOnlyValued(db, planId, legacyCount)
  {
    var config := db.plans[planId].config;
    var defs := LegDefs(config, legacyCount).value;
    assert defs[0] == LegacyDef(0);
    assert ExtractVenueKey(config, 0) == Some("uniswap-v3");
    assert IsLive(config, defs[0].legType, defs[0].legIndex);
    assert !HasOwnEntry(config, defs, 0);
    LiveBeginValuedIff(db, planId, legacyCount);
  }
}
