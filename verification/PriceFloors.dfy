/**
 The two floors a swap carries: the least total output, and the least price of its one hop,
 scaled by 10^36 and rounded down.
 */
module PriceFloors {
  import opened Wrappers
  import opened Arithmetic

  const BPS: int := 10_000
  const X36: int := 1_000_000_000_000_000_000_000_000_000_000_000_000

  datatype QuoteError = InvalidSlippage | InvalidQuote

  predicate IsSlippage(slippageBps: int) {
    1 <= slippageBps <= 500
  }

  function ApplySlippage(amountOut: nat, slippageBps: int): Result<int, QuoteError> {
    if !IsSlippage(slippageBps) then Failure(InvalidSlippage)
    else
      var minAmountOut := amountOut * (BPS - slippageBps) / BPS;
      if minAmountOut <= 0 then Failure(InvalidQuote) else Success(minAmountOut)
  }

  function CalculateMinHopPriceX36(amountIn: int, amountOut: nat, slippageBps: int): Result<int, QuoteError> {
    if amountIn <= 0 then Failure(InvalidQuote)
    else
      var applied := ApplySlippage(amountOut, slippageBps);
      if applied.Failure? then Failure(applied.error)
      else
        var minHopPriceX36 := amountOut * (BPS - slippageBps) * X36 / (amountIn * BPS);
        if minHopPriceX36 <= 0 then Failure(InvalidQuote) else Success(minHopPriceX36)
  }

  /** Both floors exist for every quote of at least two units, unless the hop price rounds to zero. */
  lemma FloorsExist(amountIn: int, amountOut: nat, slippageBps: int)
    ensures ApplySlippage(amountOut, slippageBps).Success? <==> 1 <= slippageBps <= 500 && amountOut >= 2
    ensures CalculateMinHopPriceX36(amountIn, amountOut, slippageBps).Success?
        <==> (&& 1 <= slippageBps <= 500 && amountOut >= 2 && amountIn > 0
              && amountIn * 10_000
                 <= amountOut * (10_000 - slippageBps) * 1_000_000_000_000_000_000_000_000_000_000_000_000)
    ensures ApplySlippage(amountOut, slippageBps).Success? ==>
              var minimum := ApplySlippage(amountOut, slippageBps).value;
              minimum * 10_000 <= amountOut * (10_000 - slippageBps) < minimum * 10_000 + 10_000
    ensures CalculateMinHopPriceX36(amountIn, amountOut, slippageBps).Success? ==>
              var hop := CalculateMinHopPriceX36(amountIn, amountOut, slippageBps).value;
              hop * (amountIn * 10_000)
              <= amountOut * (10_000 - slippageBps) * 1_000_000_000_000_000_000_000_000_000_000_000_000
              < hop * (amountIn * 10_000) + amountIn * 10_000
  {
    var kept := amountOut * (BPS - slippageBps);
    if IsSlippage(slippageBps) {
      assert amountOut >= 2 ==> kept >= 2 * (BPS - slippageBps);
      assert amountOut <= 1 ==> kept <= BPS - slippageBps;
      QuotientIsFloor(kept, BPS);
      if amountIn > 0 {
        FloorPositive(kept * X36, amountIn * BPS);
        QuotientIsFloor(kept * X36, amountIn * BPS);
      }
    }
  }

  lemma FloorPositive(n: int, d: int)
    requires d > 0
    ensures n / d > 0 <==> d <= n
  {
    QuotientIsFloor(n, d);
    var q := n / d;
    if q > 0 {
      assert q * d == d + (q - 1) * d;
    } else {
      assert q * d + d == (q + 1) * d;
    }
  }

  /** What an output has to reach for a hop price to be met. */
  predicate MeetsPrice(output: int, amountIn: int, minHopPriceX36: int) {
    output * X36 >= minHopPriceX36 * amountIn
  }

  /** No output below `least` meets the price; this can be computed from a quote before any swap. */
  predicate PriceGuards(least: int, amountIn: int, minHopPriceX36: int) {
    !MeetsPrice(least - 1, amountIn, minHopPriceX36)
  }

  /** Every output that meets a price is at least `least` exactly if the output one below it misses the price. */
  lemma PriceGuardsExactly(least: int, amountIn: int, minHopPriceX36: int)
    requires least > 0
    ensures PriceGuards(least, amountIn, minHopPriceX36)
        <==> forall output: nat :: MeetsPrice(output, amountIn, minHopPriceX36) ==> output >= least
    ensures forall output :: MeetsPrice(output, amountIn, minHopPriceX36)
                        <==> output * 1_000_000_000_000_000_000_000_000_000_000_000_000 >= minHopPriceX36 * amountIn
  {
    if PriceGuards(least, amountIn, minHopPriceX36) {
      forall output: nat | MeetsPrice(output, amountIn, minHopPriceX36)
        ensures output >= least
      {
        FactorKeepsOrder(output, least - 1, X36);
      }
    } else {
      var missing: nat := least - 1;
      assert MeetsPrice(missing, amountIn, minHopPriceX36);
    }
  }

  /** A quote's hop price implies its least total output exactly if the unit below that output misses the price. */
  lemma HopPriceImpliesMinimumExactly(amountIn: int, amountOut: nat, slippageBps: int)
    requires CalculateMinHopPriceX36(amountIn, amountOut, slippageBps).Success?
    ensures ApplySlippage(amountOut, slippageBps).Success?
    ensures var minimum, hop := ApplySlippage(amountOut, slippageBps).value,
                                CalculateMinHopPriceX36(amountIn, amountOut, slippageBps).value;
            (PriceGuards(minimum, amountIn, hop)
             <==> forall output: nat :: MeetsPrice(output, amountIn, hop) ==> output >= minimum)
  {
    PriceGuardsExactly(ApplySlippage(amountOut, slippageBps).value, amountIn,
                       CalculateMinHopPriceX36(amountIn, amountOut, slippageBps).value);
  }

  /** For inputs up to 10^36 it always does. */
  lemma SmallInputsAreGuarded(amountIn: int, amountOut: nat, slippageBps: int)
    requires amountIn <= X36
    requires CalculateMinHopPriceX36(amountIn, amountOut, slippageBps).Success?
    ensures ApplySlippage(amountOut, slippageBps).Success?
    ensures PriceGuards(ApplySlippage(amountOut, slippageBps).value, amountIn,
                        CalculateMinHopPriceX36(amountIn, amountOut, slippageBps).value)
  {
    var kept := amountOut * (BPS - slippageBps);
    var hop, minimum := kept * X36 / (amountIn * BPS), kept / BPS;
    QuotientIsFloor(kept * X36, amountIn * BPS);
    assert hop * (amountIn * BPS) == (hop * amountIn) * BPS;
    QuotientIsFloor(kept, BPS);
  }

  /** For inputs up to 10^36, an output that meets the hop price also meets the least total output. */
  lemma HopPriceImpliesMinimum(amountIn: int, amountOut: nat, slippageBps: int, output: nat)
    requires amountIn <= X36
    requires CalculateMinHopPriceX36(amountIn, amountOut, slippageBps).Success?
    requires MeetsPrice(output, amountIn, CalculateMinHopPriceX36(amountIn, amountOut, slippageBps).value)
    ensures ApplySlippage(amountOut, slippageBps).Success?
    ensures output >= ApplySlippage(amountOut, slippageBps).value
  {
    SmallInputsAreGuarded(amountIn, amountOut, slippageBps);
    HopPriceImpliesMinimumExactly(amountIn, amountOut, slippageBps);
  }

  /** Beyond that the price can be too coarse: three units are promised, and an output of two meets the price. */
  lemma CoarsePrice()
    ensures ApplySlippage(4, 1) == Success(3)
    ensures CalculateMinHopPriceX36(2 * X36, 4, 1) == Success(1)
    ensures MeetsPrice(2, 2 * X36, 1) && 2 < 3
    ensures !PriceGuards(3, 2 * X36, 1)
  {
    assert 4 * (BPS - 1) * X36 / (2 * X36 * BPS) == 1;
  }

  /** The exact slippage bound, rounded up, is enough for both floors. */
  lemma CeilingMeetsBoth(amountIn: int, amountOut: nat, slippageBps: int, bound: int, output: int)
    requires CalculateMinHopPriceX36(amountIn, amountOut, slippageBps).Success?
    requires IsCeiling(bound, amountOut * (BPS - slippageBps), BPS) && bound <= output
    ensures ApplySlippage(amountOut, slippageBps).Success?
    ensures output >= ApplySlippage(amountOut, slippageBps).value
    ensures MeetsPrice(output, amountIn, CalculateMinHopPriceX36(amountIn, amountOut, slippageBps).value)
  {
    var kept := amountOut * (BPS - slippageBps);
    var hop := kept * X36 / (amountIn * BPS);
    QuotientIsFloor(kept * X36, amountIn * BPS);
    assert hop * (amountIn * BPS) == (hop * amountIn) * BPS;
    QuotientIsFloor(kept, BPS);
    assert output * BPS * X36 >= kept * X36;
  }

  lemma KeptFallsWithSlippage(amountOut: nat, low: int, high: int)
    requires low <= high
    ensures amountOut * (BPS - high) <= amountOut * (BPS - low)
  {
    assert amountOut * (BPS - low) == amountOut * (BPS - high) + amountOut * (high - low);
  }

  lemma HopPriceFalls(amountIn: int, less: int, more: int)
    requires amountIn > 0 && less <= more
    ensures less * X36 / (amountIn * BPS) <= more * X36 / (amountIn * BPS)
  {
    QuotientMonotone(less * X36, more * X36, amountIn * BPS);
  }

  /** Both floors fall, or stay, as slippage rises. */
  lemma FloorsFallWithSlippage(amountIn: int, amountOut: nat, low: int, high: int)
    requires low <= high
    requires CalculateMinHopPriceX36(amountIn, amountOut, low).Success?
    requires CalculateMinHopPriceX36(amountIn, amountOut, high).Success?
    ensures ApplySlippage(amountOut, low).Success? && ApplySlippage(amountOut, high).Success?
    ensures ApplySlippage(amountOut, high).value <= ApplySlippage(amountOut, low).value
    ensures CalculateMinHopPriceX36(amountIn, amountOut, high).value
         <= CalculateMinHopPriceX36(amountIn, amountOut, low).value
  {
    KeptFallsWithSlippage(amountOut, low, high);
    QuotientMonotone(amountOut * (BPS - high), amountOut * (BPS - low), BPS);
    HopPriceFalls(amountIn, amountOut * (BPS - high), amountOut * (BPS - low));
  }
}
