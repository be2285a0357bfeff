/** Integer price arithmetic of the pre-trade estimate and of the round-trip quote
    (trade-cost-estimator.service.ts and venue-quote.service.ts). Token amounts are unbounded
    integers, as JavaScript bigints are. */
module PriceImpact {
  import opened Prelude

  const Q192: nat := 0x1_0000_0000_0000_0000_0000_0000_0000_0000_0000_0000_0000_0000

  /** Bigint division: truncates toward zero. */
  function Trunc(a: int, b: int): (q: int)
    requires b > 0
    ensures a >= 0 ==> q * b <= a < (q + 1) * b
    ensures a <= 0 ==> (q - 1) * b < a <= q * b
  {
    if a >= 0 then a / b else -((-a) / b)
  }

  /** Output at the spot price: token1 per token0 is (sqrtPrice / 2^96)^2. */
  function FairAmountOut(sqrtPrice: int, amountIn: int, isToken0In: bool): int
    requires sqrtPrice > 0
  {
    var priceNum := sqrtPrice * sqrtPrice;
    assert priceNum > 0;
    if isToken0In then Trunc(amountIn * priceNum, Q192) else Trunc(amountIn * Q192, priceNum)
  }

  /** `estimateV3PriceImpact`, given the pool's price and the quoter's answer. */
  function EstimateV3PriceImpact(sqrtPrice: Option<int>, isToken0In: bool, amountIn: int, quoted: Option<int>)
    : Option<int>
    requires sqrtPrice.Some? ==> sqrtPrice.value > 0
  {
    if sqrtPrice.None? then None
    else if quoted.None? || quoted.value <= 0 then None
    else
      var fair := FairAmountOut(sqrtPrice.value, amountIn, isToken0In);
      if fair <= 0 then None
      else
        var impact := Trunc((fair - quoted.value) * 10_000, fair);
        Some(if impact < 0 then 0 else impact)
  }

  /** The basis points for a known positive fair output. */
  function ImpactBps(fair: int, actual: int): int
    requires fair > 0
  {
    var impact := Trunc((fair - actual) * 10_000, fair);
    if impact < 0 then 0 else impact
  }

  lemma MulMono(a: int, b: int, c: int)
    requires a <= b && c >= 0
    ensures a * c <= b * c
  {
  }

  lemma QuotientBelow(q: int, a: int, b: int, k: int)
    requires b > 0 && q * b <= a && a < k * b
    ensures q < k
  {
    if q >= k {
      MulMono(k, q, b);
    }
  }

  /** What the impact means: the whole number of basis points lost against the fair output, and zero
      when nothing is lost. */
  lemma ImpactMeaning(fair: int, actual: int)
    requires fair > 0 && actual > 0
    ensures 0 <= ImpactBps(fair, actual) <= 9_999
    ensures actual >= fair ==> ImpactBps(fair, actual) == 0
    ensures actual <= fair ==>
              ImpactBps(fair, actual) * fair <= (fair - actual) * 10_000 < (ImpactBps(fair, actual) + 1) * fair
  {
    var a := (fair - actual) * 10_000;
    var q := Trunc(a, fair);
    if actual <= fair {
      assert a < 10_000 * fair;
      QuotientBelow(q, a, fair, 10_000);
      if q < 0 {
        MulMono(q + 1, 0, fair);
      }
    } else {
      if q > 0 {
        MulMono(0, q - 1, fair);
      }
    }
  }

  /** A better quote never raises the impact. */
  lemma ImpactAntitone(fair: int, actual: int, better: int)
    requires fair > 0 && 0 < actual <= better
    ensures ImpactBps(fair, better) <= ImpactBps(fair, actual)
  {
    ImpactMeaning(fair, actual);
    ImpactMeaning(fair, better);
    if better <= fair {
      QuotientBelow(ImpactBps(fair, better), (fair - better) * 10_000, fair, ImpactBps(fair, actual) + 1);
    }
  }

  /** The exact output at spot is the fraction `num / den`; the code rounds it down to `fair`.
      The computed impact never overstates the exact one and understates it by less than
      one basis point plus 10000 / (fair + 1). Stated without division: the exact impact is
      10000 * (num - actual * den) / num. */
  lemma ImpactBracketsExact(num: int, den: int, fair: int, actual: int)
    requires den > 0 && num > 0 && fair > 0
    requires fair * den <= num < (fair + 1) * den
    requires 0 < actual <= fair
    ensures ImpactBps(fair, actual) * num <= 10_000 * (num - actual * den)
    ensures 10_000 * (num - actual * den) * (fair + 1) < (ImpactBps(fair, actual) + 1) * num * (fair + 1) + 10_000 * num
  {
    var c := ImpactBps(fair, actual);
    ImpactMeaning(fair, actual);
    LowerBracket(num, den, fair, actual, c);
    UpperBracket(num, den, fair, actual, c);
  }

  lemma LowerBracket(num: int, den: int, fair: int, actual: int, c: int)
    requires den > 0 && fair > 0 && 0 <= c <= 10_000 && actual > 0
    requires fair * den <= num
    requires c * fair <= (fair - actual) * 10_000
    ensures c * num <= 10_000 * (num - actual * den)
  {
    // 10000 * actual <= (10000 - c) * fair, hence 10000 * actual * den <= (10000 - c) * num
    calc {
      10_000 * actual * den;
    <= { MulMono(10_000 * actual, (10_000 - c) * fair, den); }
      (10_000 - c) * fair * den;
    == { assert (10_000 - c) * fair * den == (fair * den) * (10_000 - c); }
      (fair * den) * (10_000 - c);
    <= { MulMono(fair * den, num, 10_000 - c); }
      num * (10_000 - c);
    }
  }

  lemma UpperBracket(num: int, den: int, fair: int, actual: int, c: int)
    requires den > 0 && fair > 0 && c >= 0 && num > 0
    requires num < (fair + 1) * den
    requires 0 < actual <= fair
    requires (fair - actual) * 10_000 < (c + 1) * fair
    ensures 10_000 * (num - actual * den) * (fair + 1) < (c + 1) * num * (fair + 1) + 10_000 * num
  {
    var f1, ad := fair + 1, actual * den;
    CrossMultiply(num, den, f1, actual);
    ScaledDifference(num, ad, f1);
    Distribute(f1, actual, num);
    UpperOnCounts(f1, actual, c, num);
  }

  lemma CrossMultiply(num: int, den: int, f1: int, actual: int)
    requires num < f1 * den && actual > 0
    ensures actual * num < actual * den * f1
  {
    StrictMul(num, f1 * den, actual);
    assert actual * (f1 * den) == actual * den * f1;
  }

  lemma ScaledDifference(num: int, ad: int, f1: int)
    ensures 10_000 * (num - ad) * f1 == 10_000 * (f1 * num) - 10_000 * (ad * f1)
  {
  }

  /** The same bound counted in raw units of the rounded-up output. */
  lemma UpperOnCounts(f1: int, actual: int, c: int, num: int)
    requires num > 0 && (f1 - 1 - actual) * 10_000 < (c + 1) * (f1 - 1)
    requires c >= 0
    ensures 10_000 * ((f1 - actual) * num) < (c + 1) * num * f1 + 10_000 * num
  {
    assert (c + 1) * f1 == (c + 1) * (f1 - 1) + (c + 1);
    var left, right := 10_000 * (f1 - actual), (c + 1) * f1 + 10_000;
    StrictMul(left, right, num);
    assert left * num == 10_000 * ((f1 - actual) * num);
    assert right * num == ((c + 1) * f1) * num + 10_000 * num;
    assert ((c + 1) * f1) * num == (c + 1) * num * f1;
  }

  lemma Distribute(a: int, b: int, c: int)
    ensures (a - b) * c == a * c - b * c
  {
  }

  lemma StrictMul(a: int, b: int, c: int)
    requires a < b && c > 0
    ensures a * c < b * c && c * a < c * b
  {
    MulMono(a + 1, b, c);
  }

  /** The fraction whose floor `FairAmountOut` is. */
  function SpotNumerator(sqrtPrice: int, amountIn: int, isToken0In: bool): int
  {
    if isToken0In then amountIn * (sqrtPrice * sqrtPrice) else amountIn * Q192
  }

  function SpotDenominator(sqrtPrice: int, isToken0In: bool): int
  {
    if isToken0In then Q192 else sqrtPrice * sqrtPrice
  }

  /** The estimate answers exactly when both the quote and the rounded spot output are positive; the
      answer lies in 0..9999, and for a quote at or below spot it brackets the exact impact. */
  lemma EstimateV3Correct(sqrtPrice: int, isToken0In: bool, amountIn: int, quoted: Option<int>)
    requires sqrtPrice > 0 && amountIn > 0
    ensures var r := EstimateV3PriceImpact(Some(sqrtPrice), isToken0In, amountIn, quoted);
            var fair := FairAmountOut(sqrtPrice, amountIn, isToken0In);
            var num := SpotNumerator(sqrtPrice, amountIn, isToken0In);
            var den := SpotDenominator(sqrtPrice, isToken0In);
            && (r.Some? <==> quoted.Some? && quoted.value > 0 && fair > 0)
            && (r.Some? ==> 0 <= r.value <= 9_999)
            && (r.Some? && quoted.value > fair ==> r.value == 0)
            && (r.Some? && quoted.value <= fair ==>
                  && r.value * num <= 10_000 * (num - quoted.value * den)
                  && 10_000 * (num - quoted.value * den) * (fair + 1) < (r.value + 1) * num * (fair + 1) + 10_000 * num)
  {
    var fair := FairAmountOut(sqrtPrice, amountIn, isToken0In);
    var num := SpotNumerator(sqrtPrice, amountIn, isToken0In);
    var den := SpotDenominator(sqrtPrice, isToken0In);
    assert sqrtPrice * sqrtPrice > 0;
    StrictMul(0, sqrtPrice * sqrtPrice, amountIn);
    assert num > 0 && den > 0 && fair == Trunc(num, den);
    if quoted.Some? && quoted.value > 0 && fair > 0 {
      ImpactMeaning(fair, quoted.value);
      if quoted.value <= fair {
        ImpactBracketsExact(num, den, fair, quoted.value);
      }
    }
  }

  /** The gap between the exact impact and the computed one, in parts of `num`: what the division of the
      impact drops, and what the division of the spot output drops. */
  lemma ImpactGap(num: int, den: int, fair: int, actual: int, c: int)
    ensures 10_000 * (num - actual * den) - c * num
         == den * (10_000 * (fair - actual) - c * fair) + (num - fair * den) * (10_000 - c)
  {
    var rem := num - fair * den;
    assert num == fair * den + rem;
    assert c * num == c * (fair * den) + c * rem;
    DistributeGap(den, fair, actual, c);
    assert rem * (10_000 - c) == 10_000 * rem - c * rem;
  }

  lemma DistributeGap(den: int, fair: int, actual: int, c: int)
    ensures den * (10_000 * (fair - actual) - c * fair)
         == 10_000 * (fair * den) - 10_000 * (actual * den) - c * (fair * den)
  {
    assert den * (10_000 * (fair - actual)) == 10_000 * (fair * den) - 10_000 * (actual * den);
    assert den * (c * fair) == c * (fair * den);
    Distribute(10_000 * (fair - actual), c * fair, den);
  }

  /** A whole quotient is one without remainder. */
  lemma WholeIff(a: int, b: int, q: int)
    requires b > 0 && q * b <= a < (q + 1) * b
    ensures a % b == 0 <==> a == q * b
  {
    var r := a - q * b;
    assert 0 <= r < b;
    assert a / b == q && a % b == r by {
      DivModUnique(a, b, q, r);
    }
  }

  lemma DivModUnique(a: int, b: int, q: int, r: int)
    requires b > 0 && a == q * b + r && 0 <= r < b
    ensures a / b == q && a % b == r
  {
    var q', r' := a / b, a % b;
    assert a == q' * b + r' && 0 <= r' < b;
    assert (q - q') * b == r' - r;
    if q > q' {
      MulMono(1, q - q', b);
    } else if q < q' {
      MulMono(1, q' - q, b);
    }
  }

  /** For a quote at or below spot: nothing is understated exactly when neither division drops anything. */
  lemma NotUnderstatedIff(num: int, den: int, fair: int, actual: int)
    requires den > 0 && num > 0 && fair > 0 && 0 < actual <= fair
    requires fair * den <= num < (fair + 1) * den
    ensures ImpactBps(fair, actual) * num >= 10_000 * (num - actual * den)
            <==> num % den == 0 && 10_000 * actual % fair == 0
  {
    var c := ImpactBps(fair, actual);
    ImpactMeaning(fair, actual);
    ImpactGap(num, den, fair, actual, c);
    var dropped, rem := 10_000 * (fair - actual) - c * fair, num - fair * den;
    MulMono(0, dropped, den);
    MulMono(0, rem, 10_000 - c);
    WholeIff(num, den, fair);
    if dropped > 0 {
      MulMono(1, dropped, den);
    }
    if rem > 0 {
      MulMono(1, rem, 10_000 - c);
    }
    ImpactWholeIff(fair, actual, c);
  }

  lemma ImpactWholeIff(fair: int, actual: int, c: int)
    requires fair > 0 && 0 <= c <= 9_999
    requires c * fair <= 10_000 * (fair - actual) < (c + 1) * fair
    ensures 10_000 * actual % fair == 0 <==> 10_000 * (fair - actual) == c * fair
  {
    var lost := 10_000 * (fair - actual) - c * fair;
    assert 10_000 * actual == (10_000 - c) * fair - lost;
    if lost == 0 {
      DivModUnique(10_000 * actual, fair, 10_000 - c, 0);
    } else {
      assert (c + 1) * fair == c * fair + fair;
      assert (10_000 - c) * fair == (9_999 - c) * fair + fair;
      DivModUnique(10_000 * actual, fair, 9_999 - c, fair - lost);
    }
  }

  /** When the estimate understates the impact. It does not for a quote above spot; for a quote at or below,
      it does unless the spot output is a whole number of raw units and the impact a whole number of basis
      points. */
  lemma UnderstatesIff(sqrtPrice: int, isToken0In: bool, amountIn: int, quoted: int)
    requires sqrtPrice > 0 && amountIn > 0
    ensures var impact := EstimateV3PriceImpact(Some(sqrtPrice), isToken0In, amountIn, Some(quoted));
            var fair := FairAmountOut(sqrtPrice, amountIn, isToken0In);
            var num := SpotNumerator(sqrtPrice, amountIn, isToken0In);
            var den := SpotDenominator(sqrtPrice, isToken0In);
            impact.Some? ==>
              && fair > 0 && den > 0
              && (impact.value * num < 10_000 * (num - quoted * den)
                  <==> quoted <= fair && (num % den != 0 || 10_000 * quoted % fair != 0))
  {
    var fair := FairAmountOut(sqrtPrice, amountIn, isToken0In);
    if quoted > 0 && fair > 0 {
      var num := SpotNumerator(sqrtPrice, amountIn, isToken0In);
      var den := SpotDenominator(sqrtPrice, isToken0In);
      assert sqrtPrice * sqrtPrice > 0;
      StrictMul(0, sqrtPrice * sqrtPrice, amountIn);
      assert num > 0 && den > 0 && fair == Trunc(num, den);
      ImpactMeaning(fair, quoted);
      if quoted <= fair {
        NotUnderstatedIff(num, den, fair, quoted);
      } else {
        MulMono(fair + 1, quoted, den);
        MulMono(0, ImpactBps(fair, quoted), num);
      }
    }
  }

  /** How far it can go: on a spot output of 9/4 the code sees 2, so a quote of 2 is reported as no impact at
      all, while the exact impact is above 1111 basis points. */
  lemma SmallOutputsHideImpact()
    ensures EstimateV3PriceImpact(Some(3 * 0x8000_0000_0000_0000_0000_0000), true, 1, Some(2)) == Some(0)
    ensures var num := SpotNumerator(3 * 0x8000_0000_0000_0000_0000_0000, 1, true);
            10_000 * (num - 2 * Q192) > 1_111 * num
  {
    var sqrtPrice := 3 * 0x8000_0000_0000_0000_0000_0000;
    assert sqrtPrice * sqrtPrice * 4 == 9 * Q192;
    var fair := FairAmountOut(sqrtPrice, 1, true);
    assert fair * Q192 <= sqrtPrice * sqrtPrice < (fair + 1) * Q192;
    assert fair == 2;
  }

  /** Converting there and back at spot never yields more than was put in, and loses less than one
      raw unit plus what one raw unit of the other token is worth. */
  lemma SpotRoundTrip(sqrtPrice: int, amountIn: int, isToken0In: bool)
    requires sqrtPrice > 0 && amountIn >= 0
    ensures var there := FairAmountOut(sqrtPrice, amountIn, isToken0In);
            var back := FairAmountOut(sqrtPrice, there, !isToken0In);
            var p := SpotDenominator(sqrtPrice, !isToken0In);
            var q := SpotDenominator(sqrtPrice, isToken0In);
            there >= 0 && 0 <= back <= amountIn && (amountIn - back) * p < p + q
  {
    var p := SpotDenominator(sqrtPrice, !isToken0In);
    var q := SpotDenominator(sqrtPrice, isToken0In);
    assert sqrtPrice * sqrtPrice > 0;
    FloorThereAndBack(amountIn, p, q);
  }

  lemma FloorThereAndBack(a: int, p: int, q: int)
    requires a >= 0 && p > 0 && q > 0
    ensures a * p >= 0
    ensures var there := Trunc(a * p, q);
            && there >= 0 && there * q >= 0
            && 0 <= Trunc(there * q, p) <= a && (a - Trunc(there * q, p)) * p < p + q
  {
    MulMono(0, a, p);
    var there := Trunc(a * p, q);
    TruncBounds(a * p, q);
    MulMono(0, there, q);
    var back := Trunc(there * q, p);
    TruncBounds(there * q, p);
    QuotientBelow(back, there * q, p, a + 1);
    Distribute(a, back, p);
  }

  lemma TruncBounds(a: int, b: int)
    requires a >= 0 && b > 0
    ensures var t := Trunc(a, b); t >= 0 && t * b <= a < t * b + b
  {
    var t := Trunc(a, b);
    assert (t + 1) * b == t * b + b;
    if t < 0 {
      MulMono(t + 1, 0, b);
    }
  }

  // ----- round-trip quotes -----

  const V2_VENUE_KEYS: set<string> := {"uniswap-v2", "sushiswap", "pancakeswap-v2", "biswap"}

  datatype Direction = Buy | Sell

  /** The read-only quote primitives: a positive amount or nothing, per direction of the swap. */
  datatype Quoters = Quoters(
    v3: (Direction, int, int) -> Option<int>,
    v2: (string, Direction, int) -> Option<int>)

  datatype RoundTrip = RoundTrip(buyOut: int, sellOut: int, roundTripBps: int)

  function Quote(quoters: Quoters, venueKey: string, direction: Direction, amountIn: int, fee: Option<int>): Option<int>
  {
    if venueKey == "uniswap-v3" then
      if fee.None? then None else quoters.v3(direction, amountIn, fee.value)
    else if venueKey in V2_VENUE_KEYS then quoters.v2(venueKey, direction, amountIn)
    else None
  }

  /** `quoteRoundTrip`: the sell leg is quoted for what the buy leg returns. */
  function QuoteRoundTrip(quoters: Quoters, buyVenue: string, sellVenue: string, buyAmountIn: int, feeTier: Option<int>)
    : Option<RoundTrip>
  {
    if buyAmountIn <= 0 then None
    else
      var buyOut := Quote(quoters, buyVenue, Buy, buyAmountIn, if buyVenue == "uniswap-v3" then feeTier else None);
      if buyOut.None? || buyOut.value <= 0 then None
      else
        var sellFee := if sellVenue == "uniswap-v3" then feeTier else None;
        var sellOut := Quote(quoters, sellVenue, Sell, buyOut.value, sellFee);
        if sellOut.None? || sellOut.value <= 0 then None
        else Some(RoundTrip(buyOut.value, sellOut.value, Trunc((sellOut.value - buyAmountIn) * 10_000, buyAmountIn)))
  }

  /** The reported figure against a threshold: it reaches `bps > 0` exactly when the gain does, and
      falls to `-bps` exactly when the loss does. Less than one basis point either way is reported as 0,
      so a positive figure means a real gain of at least one basis point. */
  lemma RoundTripThreshold(quoters: Quoters, buyVenue: string, sellVenue: string, buyAmountIn: int,
                           feeTier: Option<int>, bps: int)
    requires bps > 0
    requires QuoteRoundTrip(quoters, buyVenue, sellVenue, buyAmountIn, feeTier).Some?
    ensures var r := QuoteRoundTrip(quoters, buyVenue, sellVenue, buyAmountIn, feeTier).value;
            && (r.roundTripBps >= bps <==> (r.sellOut - buyAmountIn) * 10_000 >= bps * buyAmountIn)
            && (r.roundTripBps <= -bps <==> (buyAmountIn - r.sellOut) * 10_000 >= bps * buyAmountIn)
  {
    var r := QuoteRoundTrip(quoters, buyVenue, sellVenue, buyAmountIn, feeTier).value;
    TruncThreshold((r.sellOut - buyAmountIn) * 10_000, buyAmountIn, bps);
  }

  lemma TruncThreshold(a: int, b: int, k: int)
    requires b > 0 && k > 0
    ensures Trunc(a, b) >= k <==> a >= k * b
    ensures Trunc(a, b) <= -k <==> -a >= k * b
  {
    var q := Trunc(a, b);
    if a >= 0 {
      if q >= k { MulMono(k, q, b); } else { MulMono(q + 1, k, b); }
      if q < 0 { MulMono(q + 1, 0, b); }
      MulMono(1, k, b);
    } else {
      if q <= -k { MulMono(q, -k, b); } else { MulMono(-k, q - 1, b); }
      if q > 0 { MulMono(0, q - 1, b); }
      MulMono(1, k, b);
    }
  }

  /** Who is asked for a quote: the V3 quoter, with a fee tier, on Uniswap V3; the V2 quoter of the venue on the
      four V2 venues; nobody for any other venue. The direction and the amount are passed on. */
  lemma QuoteAsks(quoters: Quoters, venueKey: string, direction: Direction, amountIn: int, fee: Option<int>)
    ensures var quote := Quote(quoters, venueKey, direction, amountIn, fee);
            && (venueKey == "uniswap-v3" && fee.Some? ==> quote == quoters.v3(direction, amountIn, fee.value))
            && (venueKey == "uniswap-v3" && fee.None? ==> quote == None)
            && (venueKey in {"uniswap-v2", "sushiswap", "pancakeswap-v2", "biswap"} ==>
                  quote == quoters.v2(venueKey, direction, amountIn))
            && (venueKey !in {"uniswap-v3", "uniswap-v2", "sushiswap", "pancakeswap-v2", "biswap"} ==> quote == None)
  {
  }

  /** A round trip is quoted if and only if the amount is positive, buying it is quoted at a positive output, and
      so is selling exactly that output. Both legs on Uniswap V3 are asked in the one fee tier. */
  lemma RoundTripIff(quoters: Quoters, buyVenue: string, sellVenue: string, buyAmountIn: int, feeTier: Option<int>)
    ensures var r := QuoteRoundTrip(quoters, buyVenue, sellVenue, buyAmountIn, feeTier);
            var bought := Quote(quoters, buyVenue, Buy, buyAmountIn, feeTier);
            && (r.Some? <==>
                  && buyAmountIn > 0 && bought.Some? && bought.value > 0
                  && var sold := Quote(quoters, sellVenue, Sell, bought.value, feeTier);
                     sold.Some? && sold.value > 0)
            && (r.Some? ==>
                  && bought == Some(r.value.buyOut)
                  && Quote(quoters, sellVenue, Sell, r.value.buyOut, feeTier) == Some(r.value.sellOut))
  {
  }
}
