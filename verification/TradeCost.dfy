/** Pre-trade cost estimate of a plan and the gate on it (trade-cost-estimator.service.ts).
    USD values are reals; a JavaScript number that is NaN or infinite is `NotFinite`. */
module TradeCost {
  import opened Prelude
  import opened Playbook

  datatype Number = Finite(usd: real) | NotFinite

  datatype Confidence = Exact | Modeled | Unavailable

  /** A gas cost is a finite number, or there is none: the gas estimator gives nothing else. */
  datatype GasEstimate = GasValue(usd: real) | GasError

  datatype Pool = Pool(
    token0: string, token1: string, feeBps: real, reserve0: int,
    isV3: bool, hasSqrtPrice: bool)

  /** What the estimator is told about one leg: its configuration and the answers of its sources. */
  datatype LegInput =
    | DexInput(
        gas: GasEstimate,
        notional: Option<Number>,      // tokenIn amount in USD
        amountIn: int,
        slippageBps: Option<Number>,   // the leg's own tolerance
        fee: Option<int>,
        pool: Option<Pool>,            // `findPoolForLeg`
        v3ImpactBps: Option<int>,      // `estimateV3PriceImpact`
        v2ImpactBps: int)              // constant-product estimate
    | BridgeInput(
        bridgeFee: Option<Number>,     // none: no adapter, or its estimate threw
        sourceGas: GasEstimate)

  datatype LegCost = LegCost(
    legIndex: nat,
    legType: LegType,
    gasUsd: Number,
    slippageCostUsd: Number,
    poolFeeUsd: Number,
    bridgeFeeUsd: Number,
    totalCostUsd: Number,
    slippageBps: Number,
    estimateConfidence: Confidence)

  datatype PlanCost = PlanCost(
    legs: seq<LegCost>,
    totalGasUsd: real,
    totalSlippageUsd: real,
    totalPoolFeeUsd: real,
    totalBridgeFeeUsd: real,
    totalCostUsd: real,
    grossProfitUsd: Option<real>,
    netProfitUsd: Option<real>,
    estimateConfidence: Confidence)

  const ZERO := Finite(0.0)

  function Plus(a: Number, b: Number): Number
  {
    if a.Finite? && b.Finite? then Finite(a.usd + b.usd) else NotFinite
  }

  /** `bps` of `notional`. */
  function BpsOf(notional: Number, bps: Number): Number
  {
    if notional.Finite? && bps.Finite? then Finite(notional.usd * bps.usd / 10_000.0) else NotFinite
  }

  /** The contribution of a value to a total: a value that is not finite counts as zero. */
  function Counted(v: Number): real
  {
    if v.Finite? then v.usd else 0.0
  }

  function SumOf(values: seq<Number>): real
  {
    if values == [] then 0.0 else SumOf(values[..|values| - 1]) + Counted(values[|values| - 1])
  }

  method Sum(values: seq<Number>) returns (total: real)
    ensures total == SumOf(values)
  {
    total := 0.0;
    for i := 0 to |values|
      invariant total == SumOf(values[..i])
    {
      assert values[..i + 1][..i] == values[..i];
      total := total + if values[i].Finite? then values[i].usd else 0.0;
    }
    assert values[..|values|] == values;
  }

  // ----- one leg -----

  /** What a DEX leg estimate promises: it is unavailable exactly when its gas could not be valued,
      exact exactly when every source answered, and its total is the sum of its components. */
  ghost predicate IsDexEstimate(cost: LegCost, legIndex: nat, input: LegInput)
    requires input.DexInput?
  {
    && cost.legIndex == legIndex && cost.legType == Dex
    && (cost.estimateConfidence == Unavailable <==> input.gas.GasError?)
    && (cost.estimateConfidence == Exact <==>
          && input.gas.GasValue? && input.notional.Some? && input.pool.Some? && input.amountIn > 0
          && (UsesV3Quote(input) ==> input.v3ImpactBps.Some?))
    && cost.gasUsd == (if input.gas.GasValue? then Finite(input.gas.usd) else ZERO)
    && cost.bridgeFeeUsd == ZERO
    && cost.slippageCostUsd == BpsOf(EffectiveNotional(input), cost.slippageBps)
    && (input.pool.Some? && input.amountIn > 0 && !UsesV3Quote(input) ==>
          cost.slippageBps == Finite(input.v2ImpactBps as real))
    && (UsesV3Quote(input) && input.v3ImpactBps.Some? ==>
          cost.slippageBps == Finite(input.v3ImpactBps.value as real))
    && (UsesTolerance(input) ==>
          cost.slippageBps == if input.slippageBps.Some? then input.slippageBps.value else Finite(50.0))
    && cost.poolFeeUsd == (if input.pool.Some? && input.amountIn > 0
                           then BpsOf(EffectiveNotional(input), Finite(input.pool.value.feeBps)) else ZERO)
    && cost.totalCostUsd == Plus(Plus(cost.gasUsd, cost.slippageCostUsd), cost.poolFeeUsd)
  }

  /** What a bridge leg estimate promises. A fee that is not finite is kept in the estimate, and makes it
      unavailable: the histogram that is to observe the fee throws inside the `try`. */
  ghost predicate IsBridgeEstimate(cost: LegCost, legIndex: nat, input: LegInput)
    requires input.BridgeInput?
  {
    && cost.legIndex == legIndex && cost.legType == Bridge
    && (cost.estimateConfidence == Unavailable <==> !HasFiniteFee(input))
    && (cost.estimateConfidence == Exact <==> HasFiniteFee(input) && input.sourceGas.GasValue?)
    && cost.slippageCostUsd == ZERO && cost.poolFeeUsd == ZERO
    && cost.bridgeFeeUsd == (if input.bridgeFee.Some? then input.bridgeFee.value else ZERO)
    && cost.gasUsd == (if input.sourceGas.GasValue? then Finite(input.sourceGas.usd) else ZERO)
    && cost.totalCostUsd == Plus(cost.gasUsd, cost.bridgeFeeUsd)
  }

  ghost predicate IsEstimate(cost: LegCost, legIndex: nat, input: LegInput)
  {
    if input.DexInput? then IsDexEstimate(cost, legIndex, input) else IsBridgeEstimate(cost, legIndex, input)
  }

  predicate UsesV3Quote(input: LegInput)
    requires input.DexInput?
  {
    && input.amountIn > 0
    && input.pool.Some? && input.pool.value.isV3 && input.pool.value.hasSqrtPrice
    && input.fee.Some?
  }

  /** Slippage is modeled from the leg's own tolerance. */
  predicate UsesTolerance(input: LegInput)
    requires input.DexInput?
  {
    input.pool.None? || input.amountIn <= 0 || (UsesV3Quote(input) && input.v3ImpactBps.None?)
  }

  predicate HasFiniteFee(input: LegInput)
    requires input.BridgeInput?
  {
    input.bridgeFee.Some? && input.bridgeFee.value.Finite?
  }

  function EffectiveNotional(input: LegInput): Number
    requires input.DexInput?
  {
    if input.notional.Some? then input.notional.value else ZERO
  }

  method EstimateDexLegCost(legIndex: nat, input: LegInput) returns (cost: LegCost)
    requires input.DexInput?
    ensures IsDexEstimate(cost, legIndex, input)
  {
    var confidence := Exact;
    var gasUsd := ZERO;
    if input.gas.GasValue? {
      gasUsd := Finite(input.gas.usd);
    } else {
      confidence := Unavailable;
    }
    if input.notional.None? {
      confidence := if confidence == Exact then Modeled else confidence;
    }
    var slippageCostUsd, poolFeeUsd := ZERO, ZERO;
    var slippageBps := if input.slippageBps.Some? then input.slippageBps.value else Finite(50.0);
    var notional := EffectiveNotional(input);
    if UsesV3Quote(input) {
      poolFeeUsd := BpsOf(notional, Finite(input.pool.value.feeBps));
      if input.v3ImpactBps.Some? {
        slippageBps := Finite(input.v3ImpactBps.value as real);
      } else {
        confidence := if confidence == Exact then Modeled else confidence;
      }
      slippageCostUsd := BpsOf(notional, slippageBps);
    } else if input.pool.Some? && input.amountIn > 0 {
      slippageBps := Finite(input.v2ImpactBps as real);
      slippageCostUsd := BpsOf(notional, slippageBps);
      poolFeeUsd := BpsOf(notional, Finite(input.pool.value.feeBps));
    } else {
      slippageCostUsd := BpsOf(notional, slippageBps);
      confidence := if confidence == Exact then Modeled else confidence;
    }
    cost := LegCost(legIndex, Dex, gasUsd, slippageCostUsd, poolFeeUsd, ZERO,
                    Plus(Plus(gasUsd, slippageCostUsd), poolFeeUsd), slippageBps, confidence);
  }

  method EstimateBridgeLegCost(legIndex: nat, input: LegInput) returns (cost: LegCost)
    requires input.BridgeInput?
    ensures IsBridgeEstimate(cost, legIndex, input)
  {
    var confidence := Exact;
    var bridgeFeeUsd, gasUsd := ZERO, ZERO;
    if input.bridgeFee.Some? {
      bridgeFeeUsd := input.bridgeFee.value;
      if !bridgeFeeUsd.Finite? {
        confidence := Unavailable;
      }
    } else {
      confidence := Unavailable;
    }
    if input.sourceGas.GasValue? {
      gasUsd := Finite(input.sourceGas.usd);
    } else if confidence == Exact {
      confidence := Modeled;
    }
    cost := LegCost(legIndex, Bridge, gasUsd, ZERO, ZERO, bridgeFeeUsd, Plus(gasUsd, bridgeFeeUsd), ZERO, confidence);
  }

  // ----- the plan -----

  /** `aggregateConfidence`. */
  function AggregateConfidence(legs: seq<LegCost>): Confidence
  {
    if exists i :: 0 <= i < |legs| && legs[i].estimateConfidence == Unavailable then Unavailable
    else if exists i :: 0 <= i < |legs| && legs[i].estimateConfidence == Modeled then Modeled
    else Exact
  }

  function Gas(legs: seq<LegCost>): seq<Number>
  {
    seq(|legs|, i requires 0 <= i < |legs| => legs[i].gasUsd)
  }

  function Slippage(legs: seq<LegCost>): seq<Number>
  {
    seq(|legs|, i requires 0 <= i < |legs| => legs[i].slippageCostUsd)
  }

  function PoolFees(legs: seq<LegCost>): seq<Number>
  {
    seq(|legs|, i requires 0 <= i < |legs| => legs[i].poolFeeUsd)
  }

  function BridgeFees(legs: seq<LegCost>): seq<Number>
  {
    seq(|legs|, i requires 0 <= i < |legs| => legs[i].bridgeFeeUsd)
  }

  function Totals(legs: seq<LegCost>): seq<Number>
  {
    seq(|legs|, i requires 0 <= i < |legs| => legs[i].totalCostUsd)
  }

  /** The breakdown of a plan as a function of its leg estimates. */
  function Breakdown(legs: seq<LegCost>, grossProfitUsd: Option<real>): PlanCost
  {
    var total := SumOf(Totals(legs));
    PlanCost(legs, SumOf(Gas(legs)), SumOf(Slippage(legs)), SumOf(PoolFees(legs)), SumOf(BridgeFees(legs)), total,
             grossProfitUsd, if grossProfitUsd.Some? then Some(grossProfitUsd.value - total) else None,
             AggregateConfidence(legs))
  }

  /** Positions of the legs that are estimated: `null` entries of the configuration are skipped. */
  function Estimated(inputs: seq<Option<LegInput>>): (positions: seq<nat>)
    ensures forall k :: 0 <= k < |positions| ==> positions[k] < |inputs| && inputs[positions[k]].Some?
    ensures forall i :: 0 <= i < |inputs| && inputs[i].Some? ==> i in positions
    ensures forall j, k :: 0 <= j < k < |positions| ==> positions[j] < positions[k]
  {
    if inputs == [] then []
    else
      var n := |inputs| - 1;
      Estimated(inputs[..n]) + if inputs[n].Some? then [n] else []
  }

  /** `legs` holds one estimate for each non-null entry, in order. */
  ghost predicate AreEstimates(legs: seq<LegCost>, inputs: seq<Option<LegInput>>)
  {
    && |legs| == |Estimated(inputs)|
    && forall k :: 0 <= k < |legs| ==>
         IsEstimate(legs[k], Estimated(inputs)[k], inputs[Estimated(inputs)[k]].value)
  }

  lemma EstimatesExtend(legs: seq<LegCost>, inputs: seq<Option<LegInput>>, i: nat, more: seq<LegCost>)
    requires i < |inputs| && AreEstimates(legs, inputs[..i])
    requires if inputs[i].Some? then |more| == 1 && IsEstimate(more[0], i, inputs[i].value) else more == []
    ensures AreEstimates(legs + more, inputs[..i + 1])
  {
    assert inputs[..i + 1][..i] == inputs[..i];
  }

  method EstimateLegCost(legIndex: nat, input: LegInput) returns (cost: LegCost)
    ensures IsEstimate(cost, legIndex, input)
  {
    if input.BridgeInput? {
      cost := EstimateBridgeLegCost(legIndex, input);
    } else {
      cost := EstimateDexLegCost(legIndex, input);
    }
  }

  /** The loop of `estimatePlanCost` over the configured legs. */
  method EstimateLegs(inputs: seq<Option<LegInput>>) returns (legs: seq<LegCost>)
    ensures AreEstimates(legs, inputs)
  {
    legs := [];
    for i := 0 to |inputs|
      invariant AreEstimates(legs, inputs[..i])
    {
      if inputs[i].Some? {
        var cost := EstimateLegCost(i, inputs[i].value);
        EstimatesExtend(legs, inputs, i, [cost]);
        legs := legs + [cost];
      } else {
        EstimatesExtend(legs, inputs, i, []);
        assert legs + [] == legs;
      }
    }
    assert inputs[..|inputs|] == inputs;
  }

  /** The totals of `estimatePlanCost`. */
  method SumUp(legs: seq<LegCost>, grossProfitUsd: Option<real>) returns (plan: PlanCost)
    ensures plan == Breakdown(legs, grossProfitUsd)
  {
    var gas := Sum(Gas(legs));
    var slippage := Sum(Slippage(legs));
    var poolFees := Sum(PoolFees(legs));
    var bridgeFees := Sum(BridgeFees(legs));
    var total := Sum(Totals(legs));
    var net := if grossProfitUsd.Some? then Some(grossProfitUsd.value - total) else None;
    plan := PlanCost(legs, gas, slippage, poolFees, bridgeFees, total, grossProfitUsd, net, AggregateConfidence(legs));
  }

  /** `estimatePlanCost`: every configured leg is estimated once, in order, and summed up. */
  method EstimatePlanCost(inputs: seq<Option<LegInput>>, grossProfitUsd: Option<real>) returns (plan: PlanCost)
    ensures plan == Breakdown(plan.legs, grossProfitUsd)
    ensures AreEstimates(plan.legs, inputs)
  {
    var legs := EstimateLegs(inputs);
    plan := SumUp(legs, grossProfitUsd);
  }

  // ----- the gate -----

  datatype GateReason = CostUnavailable | NetProfitBelowFloor

  method EvaluatePlanGate(plan: PlanCost, minNetProfitUsd: real) returns (allowed: bool, reasons: seq<GateReason>)
    ensures allowed <==> Allowed(plan, minNetProfitUsd)
    ensures allowed <==> reasons == []
    ensures CostUnavailable in reasons <==> plan.estimateConfidence == Unavailable
    ensures NetProfitBelowFloor in reasons <==> plan.netProfitUsd.Some? && plan.netProfitUsd.value < minNetProfitUsd
  {
    reasons := [];
    if plan.estimateConfidence == Unavailable {
      reasons := reasons + [CostUnavailable];
    }
    if plan.netProfitUsd.Some? && plan.netProfitUsd.value < minNetProfitUsd {
      reasons := reasons + [NetProfitBelowFloor];
    }
    allowed := |reasons| == 0;
  }

  predicate Allowed(plan: PlanCost, minNetProfitUsd: real)
  {
    && plan.estimateConfidence != Unavailable
    && (plan.netProfitUsd.Some? ==> plan.netProfitUsd.value >= minNetProfitUsd)
  }

  /** A plan is allowed if and only if every leg has been valued and a known net profit, which is the gross profit
      less the counted totals of the legs, is at the floor or above. */
  lemma AllowedIff(legs: seq<LegCost>, grossProfitUsd: Option<real>, floor: real)
    ensures Allowed(Breakdown(legs, grossProfitUsd), floor) <==>
              && (forall i :: 0 <= i < |legs| ==> legs[i].estimateConfidence != Unavailable)
              && (grossProfitUsd.Some? ==> grossProfitUsd.value - SumOf(Totals(legs)) >= floor)
  {
  }

  /** The costs of a DEX leg in numbers: of a notional of 10000 USD, a basis point is one USD. A leg without a known
      notional costs its gas alone. */
  lemma DexCostInNumbers(cost: LegCost, legIndex: nat, input: LegInput, bps: real)
    requires input.DexInput? && IsEstimate(cost, legIndex, input) && cost.slippageBps == Finite(bps)
    ensures input.notional.None? ==>
              cost.slippageCostUsd == Finite(0.0) && cost.poolFeeUsd == Finite(0.0) && cost.totalCostUsd == cost.gasUsd
    ensures input.notional.Some? && input.notional.value.Finite? ==>
              var usd := input.notional.value.usd;
              && cost.slippageCostUsd.Finite? && cost.poolFeeUsd.Finite? && cost.gasUsd.Finite?
              && cost.slippageCostUsd.usd * 10_000.0 == usd * bps
              && cost.poolFeeUsd.usd * 10_000.0 ==
                 (if input.pool.Some? && input.amountIn > 0 then usd * input.pool.value.feeBps else 0.0)
              && cost.totalCostUsd == Finite(cost.gasUsd.usd + cost.slippageCostUsd.usd + cost.poolFeeUsd.usd)
  {
  }

  /** Which basis points those are: of the quote on a V3 pool with a price and a fee tier, of the constant product on
      any other cached pool, and otherwise, or without a V3 quote, the leg's own tolerance, or 50. */
  lemma SlippageSource(cost: LegCost, legIndex: nat, input: LegInput)
    requires input.DexInput? && IsEstimate(cost, legIndex, input)
    ensures var cached := input.pool.Some? && input.amountIn > 0;
            var v3 := cached && input.pool.value.isV3 && input.pool.value.hasSqrtPrice && input.fee.Some?;
            cost.slippageBps ==
            if v3 && input.v3ImpactBps.Some? then Finite(input.v3ImpactBps.value as real)
            else if cached && !v3 then Finite(input.v2ImpactBps as real)
            else if input.slippageBps.Some? then input.slippageBps.value else Finite(50.0)
  {
  }

  // ----- totals -----

  /** The four components of an estimate, and its total, belong together. */
  ghost predicate Consistent(cost: LegCost)
  {
    cost.totalCostUsd == Plus(Plus(Plus(cost.gasUsd, cost.slippageCostUsd), cost.poolFeeUsd), cost.bridgeFeeUsd)
  }

  lemma EstimatesAreConsistent(cost: LegCost, legIndex: nat, input: LegInput)
    requires IsEstimate(cost, legIndex, input)
    ensures Consistent(cost)
  {
  }

  /** What a leg adds to the component totals and not to the plan total. */
  function Uncounted(cost: LegCost): real
  {
    if cost.totalCostUsd.Finite? then 0.0
    else Counted(cost.gasUsd) + Counted(cost.slippageCostUsd) + Counted(cost.poolFeeUsd) + Counted(cost.bridgeFeeUsd)
  }

  function UncountedSum(legs: seq<LegCost>): real
  {
    if legs == [] then 0.0 else UncountedSum(legs[..|legs| - 1]) + Uncounted(legs[|legs| - 1])
  }

  /** The plan total is the sum of the four component totals, short of the finite components of the
      legs one of whose components is not finite. */
  lemma {:induction false} TotalsDiffer(legs: seq<LegCost>, grossProfitUsd: Option<real>)
    requires forall i :: 0 <= i < |legs| ==> Consistent(legs[i])
    ensures var b := Breakdown(legs, grossProfitUsd);
            b.totalGasUsd + b.totalSlippageUsd + b.totalPoolFeeUsd + b.totalBridgeFeeUsd
            == b.totalCostUsd + UncountedSum(legs)
  {
    if legs != [] {
      var init, last := legs[..|legs| - 1], legs[|legs| - 1];
      TotalsDiffer(init, grossProfitUsd);
      assert Gas(legs)[..|legs| - 1] == Gas(init);
      assert Slippage(legs)[..|legs| - 1] == Slippage(init);
      assert PoolFees(legs)[..|legs| - 1] == PoolFees(init);
      assert BridgeFees(legs)[..|legs| - 1] == BridgeFees(init);
      assert Totals(legs)[..|legs| - 1] == Totals(init);
      assert Consistent(last);
    }
  }

  ghost predicate NonNegative(cost: LegCost)
  {
    Counted(cost.gasUsd) >= 0.0 && Counted(cost.slippageCostUsd) >= 0.0
    && Counted(cost.poolFeeUsd) >= 0.0 && Counted(cost.bridgeFeeUsd) >= 0.0
  }

  lemma {:induction false} UncountedSumZero(legs: seq<LegCost>)
    requires forall i :: 0 <= i < |legs| ==> NonNegative(legs[i])
    ensures UncountedSum(legs) >= 0.0
    ensures UncountedSum(legs) == 0.0 <==> forall i :: 0 <= i < |legs| ==> Uncounted(legs[i]) == 0.0
  {
    if legs != [] {
      UncountedSumZero(legs[..|legs| - 1]);
      assert NonNegative(legs[|legs| - 1]);
      assert legs == legs[..|legs| - 1] + [legs[|legs| - 1]];
    }
  }

  /** For non-negative components the totals agree if and only if no leg with a component that is not
      finite has another component above zero; in particular they agree when all costs are finite. */
  lemma TotalsAgreeIff(legs: seq<LegCost>, grossProfitUsd: Option<real>)
    requires forall i :: 0 <= i < |legs| ==> Consistent(legs[i]) && NonNegative(legs[i])
    ensures var b := Breakdown(legs, grossProfitUsd);
            b.totalCostUsd == b.totalGasUsd + b.totalSlippageUsd + b.totalPoolFeeUsd + b.totalBridgeFeeUsd
            <==> forall i :: 0 <= i < |legs| ==> Uncounted(legs[i]) == 0.0
  {
    TotalsDiffer(legs, grossProfitUsd);
    UncountedSumZero(legs);
  }

  // ----- confidence and monotonicity -----

  function Level(c: Confidence): nat
  {
    match c case Exact => 0 case Modeled => 1 case Unavailable => 2
  }

  /** Plan confidence is the join of the leg confidences: the least level above all of them. */
  lemma ConfidenceIsJoin(legs: seq<LegCost>, bound: Confidence)
    ensures Level(AggregateConfidence(legs)) <= Level(bound)
            <==> forall i :: 0 <= i < |legs| ==> Level(legs[i].estimateConfidence) <= Level(bound)
  {
  }

  lemma {:induction false} SumInsert(a: seq<Number>, v: Number, b: seq<Number>)
    ensures SumOf(a + [v] + b) == SumOf(a + b) + Counted(v)
  {
    if b == [] {
      assert (a + [v] + b)[..|a|] == a && a + b == a;
    } else {
      var init := b[..|b| - 1];
      SumInsert(a, v, init);
      assert (a + [v] + b)[..|a + [v] + b| - 1] == a + [v] + init;
      assert (a + b)[..|a + b| - 1] == a + init;
    }
  }

  /** A leg adds its counted total to that of the plan, wherever it stands. */
  lemma InsertTotals(before: seq<LegCost>, leg: LegCost, after: seq<LegCost>)
    ensures SumOf(Totals(before + [leg] + after)) == SumOf(Totals(before + after)) + Counted(leg.totalCostUsd)
  {
    SumInsert(Totals(before), leg.totalCostUsd, Totals(after));
    assert Totals(before + [leg] + after) == Totals(before) + [leg.totalCostUsd] + Totals(after);
    assert Totals(before + after) == Totals(before) + Totals(after);
  }

  /** Adding a leg with a non-negative cost, anywhere in the plan, never turns a blocked plan into an
      allowed one. */
  lemma GateMonotone(before: seq<LegCost>, leg: LegCost, after: seq<LegCost>, grossProfitUsd: Option<real>, floor: real)
    requires Counted(leg.totalCostUsd) >= 0.0
    requires Allowed(Breakdown(before + [leg] + after, grossProfitUsd), floor)
    ensures Allowed(Breakdown(before + after, grossProfitUsd), floor)
  {
    var longer, shorter := before + [leg] + after, before + after;
    ConfidenceIsJoin(longer, Modeled);
    assert forall i :: 0 <= i < |shorter| ==> shorter[i] == longer[if i < |before| then i else i + 1];
    ConfidenceIsJoin(shorter, Modeled);
    InsertTotals(before, leg, after);
  }

  /** The cost that a leg must not do without has been valued: gas for a DEX leg, the bridge fee for a bridge
      leg. */
  predicate IsValued(input: LegInput)
  {
    if input.DexInput? then input.gas.GasValue? else HasFiniteFee(input)
  }

  /** Every leg of an estimate that the gate allows is valued. */
  lemma AllowedMeansValued(inputs: seq<Option<LegInput>>, plan: PlanCost, floor: real, i: nat)
    requires AreEstimates(plan.legs, inputs)
    requires plan.estimateConfidence == AggregateConfidence(plan.legs)
    requires Allowed(plan, floor)
    requires i < |inputs| && inputs[i].Some?
    ensures IsValued(inputs[i].value)
  {
  }

  // ----- which costs an allowed plan is judged by -----

  /** A DEX leg whose notional, or whose own tolerance where slippage is modeled from that, is not finite. */
  predicate HasBoundlessCost(input: LegInput)
  {
    && input.DexInput?
    && (EffectiveNotional(input).NotFinite? || (UsesTolerance(input) && input.slippageBps == Some(NotFinite)))
  }

  lemma CountsIff(cost: LegCost, legIndex: nat, input: LegInput)
    requires IsEstimate(cost, legIndex, input) && IsValued(input)
    ensures cost.totalCostUsd.Finite? <==> !HasBoundlessCost(input)
  {
  }

  /** The total of an allowed plan counts every leg's cost if and only if no DEX leg has a boundless one; it is
      then the sum of the four component totals. Bridge legs are never the reason: a fee that is not finite
      blocks the plan. */
  lemma EveryCostCountsIff(inputs: seq<Option<LegInput>>, costs: seq<LegCost>, grossProfitUsd: Option<real>,
                           floor: real)
    requires AreEstimates(costs, inputs) && Allowed(Breakdown(costs, grossProfitUsd), floor)
    ensures (forall k :: 0 <= k < |costs| ==> costs[k].totalCostUsd.Finite?)
            <==> forall i :: 0 <= i < |inputs| && inputs[i].Some? ==> !HasBoundlessCost(inputs[i].value)
    ensures (forall i :: 0 <= i < |inputs| && inputs[i].Some? ==> !HasBoundlessCost(inputs[i].value)) ==>
              var b := Breakdown(costs, grossProfitUsd);
              b.totalCostUsd == b.totalGasUsd + b.totalSlippageUsd + b.totalPoolFeeUsd + b.totalBridgeFeeUsd
  {
    var plan, at := Breakdown(costs, grossProfitUsd), Estimated(inputs);
    forall k | 0 <= k < |costs|
      ensures costs[k].totalCostUsd.Finite? <==> !HasBoundlessCost(inputs[at[k]].value)
      ensures Consistent(costs[k])
    {
      AllowedMeansValued(inputs, plan, floor, at[k]);
      CountsIff(costs[k], at[k], inputs[at[k]].value);
      EstimatesAreConsistent(costs[k], at[k], inputs[at[k]].value);
    }
    TotalsDiffer(costs, grossProfitUsd);
    if forall k :: 0 <= k < |costs| ==> costs[k].totalCostUsd.Finite? {
      NothingUncounted(costs);
    }
  }

  lemma {:induction false} NothingUncounted(legs: seq<LegCost>)
    requires forall k :: 0 <= k < |legs| ==> legs[k].totalCostUsd.Finite?
    ensures UncountedSum(legs) == 0.0
  {
    if legs != [] {
      NothingUncounted(legs[..|legs| - 1]);
    }
  }

  /** An exact leg leaves the confidence of a plan as it is. */
  lemma InsertExact(before: seq<LegCost>, leg: LegCost, after: seq<LegCost>)
    requires leg.estimateConfidence == Exact
    ensures AggregateConfidence(before + [leg] + after) == Unavailable <==>
            AggregateConfidence(before + after) == Unavailable
  {
    var longer, shorter := before + [leg] + after, before + after;
    if i :| 0 <= i < |longer| && longer[i].estimateConfidence == Unavailable {
      assert i != |before|;
      assert shorter[if i < |before| then i else i - 1] == longer[i];
    }
    if i :| 0 <= i < |shorter| && shorter[i].estimateConfidence == Unavailable {
      assert longer[if i < |before| then i else i + 1] == shorter[i];
    }
  }

  /** The failing input: a DEX leg whose notional is not finite, with its gas valued and its pool cached. It is
      exact, its total is not finite, and it costs nothing: added anywhere to a plan it changes neither the plan
      total nor the answer of the gate at any floor. */
  lemma BoundlessNotionalIsFree(before: seq<LegCost>, leg: LegCost, after: seq<LegCost>, legIndex: nat, input: LegInput,
                                grossProfitUsd: Option<real>, floor: real)
    requires input.DexInput? && input.notional == Some(NotFinite) && input.gas.GasValue?
    requires input.pool.Some? && input.amountIn > 0 && (UsesV3Quote(input) ==> input.v3ImpactBps.Some?)
    requires IsEstimate(leg, legIndex, input)
    ensures leg.estimateConfidence == Exact && leg.totalCostUsd == NotFinite
    ensures var longer := Breakdown(before + [leg] + after, grossProfitUsd);
            var shorter := Breakdown(before + after, grossProfitUsd);
            longer.totalCostUsd == shorter.totalCostUsd && (Allowed(longer, floor) <==> Allowed(shorter, floor))
  {
    InsertTotals(before, leg, after);
    InsertExact(before, leg, after);
  }

  // ----- choice of the pool -----

  function ToLowerChar(c: char): char
  {
    if 'A' <= c <= 'Z' then (c as int + 32) as char else c
  }

  function ToLower(s: string): string
  {
    seq(|s|, i requires 0 <= i < |s| => ToLowerChar(s[i]))
  }

  predicate SamePair(pool: Pool, tokenIn: string, tokenOut: string)
  {
    var t0, t1, i, o := ToLower(pool.token0), ToLower(pool.token1), ToLower(tokenIn), ToLower(tokenOut);
    (t0 == i && t1 == o) || (t0 == o && t1 == i)
  }

  predicate Eligible(pool: Pool, tokenIn: string, tokenOut: string, fee: Option<int>)
  {
    SamePair(pool, tokenIn, tokenOut) && (fee.Some? ==> pool.feeBps == fee.value as real / 100.0)
  }

  /** `findPoolForLeg`: nothing unless a cached pool of the pair, and of the fee tier when one is
      asked for, exists; then the most liquid of that tier, or the first of the pair. */
  function FindPoolForLeg(pools: seq<Pool>, tokenIn: Option<string>, tokenOut: Option<string>, fee: Option<int>)
    : (found: Option<Pool>)
    ensures found.Some? <==>
              tokenIn.Some? && tokenOut.Some?
              && exists p :: p in pools && Eligible(p, tokenIn.value, tokenOut.value, fee)
    ensures found.Some? ==> found.value in pools && Eligible(found.value, tokenIn.value, tokenOut.value, fee)
    ensures found.Some? && fee.Some? ==>
              forall p :: p in pools && Eligible(p, tokenIn.value, tokenOut.value, fee) ==>
                p.reserve0 <= found.value.reserve0
    ensures found.Some? && fee.None? ==>
              exists i :: 0 <= i < |pools| && pools[i] == found.value
                          && forall j :: 0 <= j < i ==> !Eligible(pools[j], tokenIn.value, tokenOut.value, fee)
  {
    if tokenIn.None? || tokenOut.None? then None
    else
      var matches := EligiblePools(pools, tokenIn.value, tokenOut.value, fee);
      if matches == [] then None
      else
        assert matches[0] in matches;
        if fee.Some? then Some(MostLiquid(matches)) else Some(matches[0])
  }

  /** The same letter, in upper or lower case, or the same character. */
  predicate IsSameLetter(c: char, d: char)
  {
    || c == d
    || ('A' <= c <= 'Z' && d as int == c as int + 32)
    || ('A' <= d <= 'Z' && c as int == d as int + 32)
  }

  predicate IsSameText(s: string, t: string)
  {
    |s| == |t| && forall i :: 0 <= i < |s| ==> IsSameLetter(s[i], t[i])
  }

  lemma {:induction false} LowerIff(s: string, t: string)
    ensures ToLower(s) == ToLower(t) <==> IsSameText(s, t)
  {
    assert |ToLower(s)| == |s| && |ToLower(t)| == |t|;
    forall i | 0 <= i < |s| && i < |t|
      ensures ToLower(s)[i] == ToLower(t)[i] <==> IsSameLetter(s[i], t[i])
    {
    }
  }

  /** A pool of the two tokens, whichever comes first and however they are written, and of the fee tier if one is
      asked for: a tier of 3000 is a fee of 30 basis points. */
  lemma EligibleIff(pool: Pool, tokenIn: string, tokenOut: string, fee: Option<int>)
    ensures Eligible(pool, tokenIn, tokenOut, fee) <==>
              && (|| (IsSameText(pool.token0, tokenIn) && IsSameText(pool.token1, tokenOut))
                  || (IsSameText(pool.token0, tokenOut) && IsSameText(pool.token1, tokenIn)))
              && (fee.Some? ==> pool.feeBps * 100.0 == fee.value as real)
  {
    LowerIff(pool.token0, tokenIn);
    LowerIff(pool.token1, tokenOut);
    LowerIff(pool.token0, tokenOut);
    LowerIff(pool.token1, tokenIn);
  }

  function EligiblePools(pools: seq<Pool>, tokenIn: string, tokenOut: string, fee: Option<int>): (r: seq<Pool>)
    ensures forall p :: p in r <==> p in pools && Eligible(p, tokenIn, tokenOut, fee)
    ensures r != [] ==> exists i :: 0 <= i < |pools| && pools[i] == r[0]
                                    && forall j :: 0 <= j < i ==> !Eligible(pools[j], tokenIn, tokenOut, fee)
  {
    if pools == [] then []
    else
      assert pools == [pools[0]] + pools[1..];
      (if Eligible(pools[0], tokenIn, tokenOut, fee) then [pools[0]] else [])
      + EligiblePools(pools[1..], tokenIn, tokenOut, fee)
  }

  function MostLiquid(pools: seq<Pool>): (best: Pool)
    requires pools != []
    ensures best in pools && forall p :: p in pools ==> p.reserve0 <= best.reserve0
    ensures exists i :: 0 <= i < |pools| && pools[i] == best
                        && forall j :: 0 <= j < i ==> pools[j].reserve0 < best.reserve0
  {
    if |pools| == 1 then pools[0]
    else
      var n := |pools| - 1;
      assert pools == pools[..n] + [pools[n]];
      var best := MostLiquid(pools[..n]);
      if pools[n].reserve0 > best.reserve0 then pools[n] else best
  }
}
