/**
 The search for the gross input whose fee-deducted, slippage-adjusted output covers a payroll's
 obligations. The quoter is an oracle: `answers` holds what it will say to the first four probes,
 and none of it is trusted.
 */
module FundingSolver {
  import opened Wrappers
  import opened Arithmetic
  import opened PriceFloors

  const MAX_UINT128: int := 0x1_0000_0000_0000_0000_0000_0000_0000_0000 - 1
  const MAX_ATTEMPTS := 4

  datatype FundingError = InvalidRequest | ExceedsSwapLimit | QuoteUnavailable | NoOutput | NotConverged

  /** One answered probe. */
  datatype Probe = Probe(gross: int, feeAmount: int, net: int, minTotalOut: int, minHopPriceX36: int)

  datatype Request = Request(obligations: int, slippage: int, feeBps: int)

  predicate IsRequest(q: Request) {
    1 <= q.obligations <= MAX_UINT128 && IsSlippage(q.slippage) && 0 <= q.feeBps <= 100
  }

  function FeeOn(gross: int, feeBps: int): int {
    gross * feeBps / BPS
  }

  /** The floors of the quote for a net input; none when the quoter fails or its quote is refused. */
  function LiveQuote(net: int, slippage: int, answer: Option<nat>): Option<(int, int)> {
    if answer.None? || answer.value == 0 then None
    else
      var minimum := ApplySlippage(answer.value, slippage);
      var hop := CalculateMinHopPriceX36(net, answer.value, slippage);
      if minimum.Failure? || hop.Failure? then None else Some((minimum.value, hop.value))
  }

  function ProbeAt(gross: int, q: Request, answer: Option<nat>): Option<Probe> {
    var feeAmount := FeeOn(gross, q.feeBps);
    var live := LiveQuote(gross - feeAmount, q.slippage, answer);
    if live.None? then None else Some(Probe(gross, feeAmount, gross - feeAmount, live.value.0, live.value.1))
  }

  /** The ceiling scale-up toward the obligations, plus one unit. */
  function NextGross(gross: int, obligations: int, minTotalOut: int): int
    requires minTotalOut > 0
  {
    (gross * obligations + minTotalOut - 1) / minTotalOut + 1
  }

  /** Fee and net split the gross input, the fee rounded down, and the floors are those of a real quote. */
  ghost predicate IsProbe(p: Probe, q: Request) {
    && 0 < p.gross <= MAX_UINT128 && 0 < p.net <= p.gross && p.minTotalOut > 0
    && p.feeAmount + p.net == p.gross
    && IsFloor(p.feeAmount, p.gross * q.feeBps, BPS)
    && exists amountOut: nat ::
         && ApplySlippage(amountOut, q.slippage) == Success(p.minTotalOut)
         && CalculateMinHopPriceX36(p.net, amountOut, q.slippage) == Success(p.minHopPriceX36)
  }

  lemma FeeIsSmall(gross: int, feeBps: int)
    requires gross > 0 && 0 <= feeBps <= 100
    ensures IsFloor(FeeOn(gross, feeBps), gross * feeBps, BPS)
    ensures 0 <= FeeOn(gross, feeBps) < gross
  {
    QuotientIsFloor(gross * feeBps, BPS);
    assert gross * 100 == gross * feeBps + gross * (100 - feeBps);
  }

  lemma ProbeIsSound(gross: int, q: Request, answer: Option<nat>)
    requires IsRequest(q) && 0 < gross <= MAX_UINT128
    ensures 0 < gross - FeeOn(gross, q.feeBps) <= gross
    ensures ProbeAt(gross, q, answer).Some? ==> IsProbe(ProbeAt(gross, q, answer).value, q)
  {
    FeeIsSmall(gross, q.feeBps);
    var probe := ProbeAt(gross, q, answer);
    if probe.Some? {
      assert ApplySlippage(answer.value, q.slippage) == Success(probe.value.minTotalOut);
    }
  }

  /** Every retry asks for at least two units more, and enough to scale the last output up to the obligations. */
  lemma NextGrows(gross: int, obligations: int, minTotalOut: int)
    requires gross > 0 && 0 < minTotalOut < obligations
    ensures NextGross(gross, obligations, minTotalOut) >= gross + 2
    ensures NextGross(gross, obligations, minTotalOut) * minTotalOut >= gross * obligations + minTotalOut
  {
    var n := gross * obligations + minTotalOut - 1;
    var quotient := n / minTotalOut;
    QuotientIsFloor(n, minTotalOut);
    assert gross * obligations == gross * minTotalOut + gross * (obligations - minTotalOut);
    FactorKeepsOrder(quotient, gross, minTotalOut);
    assert (quotient + 1) * minTotalOut == quotient * minTotalOut + minTotalOut;
  }

  /** A second output that is no worse for each gross unit covers the obligations. */
  lemma ScaledOutputCovers(gross: int, next: int, obligations: int, first: int, second: int)
    requires gross > 0 && next * first >= gross * obligations && second * gross >= first * next
    ensures second >= obligations
  {
    FactorKeepsOrder(second + 1, obligations, gross);
    assert (second + 1) * gross == second * gross + gross;
  }

  /** What one answered probe holds, in numbers. */
  lemma ProbeFields(gross: int, q: Request, answer: Option<nat>)
    requires IsRequest(q) && 0 < gross <= MAX_UINT128
    ensures var fee := gross * q.feeBps / 10_000;
            && gross - fee > 0
            && (ProbeAt(gross, q, answer).Some?
                <==> && answer.Some? && answer.value * (10_000 - q.slippage) / 10_000 > 0
                     && answer.value * (10_000 - q.slippage) * 1_000_000_000_000_000_000_000_000_000_000_000_000
                        / ((gross - fee) * 10_000) > 0)
            && (ProbeAt(gross, q, answer).Some? ==>
                  ProbeAt(gross, q, answer).value
                  == Probe(gross, fee, gross - fee, answer.value * (10_000 - q.slippage) / 10_000,
                           answer.value * (10_000 - q.slippage) * 1_000_000_000_000_000_000_000_000_000_000_000_000
                           / ((gross - fee) * 10_000)))
  {
    FeeIsSmall(gross, q.feeBps);
  }

  /** A probe is the answer to its own gross input. */
  ghost predicate AnswersAt(probes: seq<Probe>, q: Request, answers: seq<Option<nat>>, i: nat)
    requires |answers| == MAX_ATTEMPTS
  {
    i < |probes| ==> i < MAX_ATTEMPTS && ProbeAt(probes[i].gross, q, answers[i]) == Some(probes[i])
  }

  /**
   The probes of a run: sound and as answered, starting at the obligations, each falling short but the
   last, each scaled up from the one before and at least two units above it.
   */
  ghost predicate IsTrail(probes: seq<Probe>, q: Request, answers: seq<Option<nat>>)
    requires |answers| == MAX_ATTEMPTS
  {
    && (forall i | 0 <= i < |probes| :: IsProbe(probes[i], q) && AnswersAt(probes, q, answers, i))
    && (|probes| > 0 ==> probes[0].gross == q.obligations)
    && (forall i | 0 <= i < |probes| - 1 :: probes[i].minTotalOut < q.obligations)
    && (forall i | 0 < i < |probes| ::
          && probes[i].gross >= probes[i - 1].gross + 2
          && probes[i].gross == NextOf(probes[i - 1], q))
  }

  /**
   The same in numbers: each probe is the answer to its own gross input, the first asks for the
   obligations, and each later one for the ceiling of the last one's gross scaled up to them, plus one.
   */
  lemma TrailInNumbers(probes: seq<Probe>, q: Request, answers: seq<Option<nat>>)
    requires |answers| == 4 && IsRequest(q) && IsTrail(probes, q, answers)
    ensures |probes| <= 4 && (|probes| > 0 ==> probes[0].gross == q.obligations)
    ensures forall i | 0 <= i < |probes| ::
              && probes[i].feeAmount == probes[i].gross * q.feeBps / 10_000
              && probes[i].net == probes[i].gross - probes[i].feeAmount > 0
              && answers[i].Some?
              && probes[i].minTotalOut == answers[i].value * (10_000 - q.slippage) / 10_000 > 0
              && probes[i].minHopPriceX36
                 == answers[i].value * (10_000 - q.slippage) * 1_000_000_000_000_000_000_000_000_000_000_000_000
                    / (probes[i].net * 10_000) > 0
    ensures forall i | 0 <= i < |probes| - 1 ::
              && 0 < probes[i].minTotalOut < q.obligations
              && probes[i + 1].gross
                 == (probes[i].gross * q.obligations + probes[i].minTotalOut - 1) / probes[i].minTotalOut + 1
  {
    hide ProbeAt, IsProbe, IsTrail;
    forall i | 0 <= i < |probes|
      ensures i < 4 && 0 < probes[i].gross <= MAX_UINT128 && ProbeAt(probes[i].gross, q, answers[i]) == Some(probes[i])
    {
      TrailAt(probes, q, answers, i);
    }
    forall i | 0 <= i < |probes|
      ensures && probes[i].feeAmount == probes[i].gross * q.feeBps / 10_000
              && probes[i].net == probes[i].gross - probes[i].feeAmount > 0
              && answers[i].Some?
              && probes[i].minTotalOut == answers[i].value * (10_000 - q.slippage) / 10_000 > 0
              && probes[i].minHopPriceX36
                 == answers[i].value * (10_000 - q.slippage) * 1_000_000_000_000_000_000_000_000_000_000_000_000
                    / (probes[i].net * 10_000) > 0
    {
      ProbeFields(probes[i].gross, q, answers[i]);
    }
    forall i | 0 <= i < |probes| - 1
      ensures 0 < probes[i].minTotalOut < q.obligations && probes[i + 1].gross == NextOf(probes[i], q)
    {
      TrailStep(probes, q, answers, i);
    }
    TrailStart(probes, q, answers);
  }

  lemma TrailStart(probes: seq<Probe>, q: Request, answers: seq<Option<nat>>)
    requires |answers| == 4 && IsTrail(probes, q, answers)
    ensures |probes| <= 4 && (|probes| > 0 ==> probes[0].gross == q.obligations)
  {
    if |probes| > 4 {
      TrailAt(probes, q, answers, 4);
    }
  }

  lemma TrailStep(probes: seq<Probe>, q: Request, answers: seq<Option<nat>>, i: nat)
    requires |answers| == 4 && IsTrail(probes, q, answers) && i < |probes| - 1
    ensures 0 < probes[i].minTotalOut < q.obligations && probes[i + 1].gross == NextOf(probes[i], q)
  {
    assert IsProbe(probes[i], q);
    assert probes[i + 1].gross == NextOf(probes[i + 1 - 1], q);
  }

  lemma TrailAt(probes: seq<Probe>, q: Request, answers: seq<Option<nat>>, i: nat)
    requires |answers| == 4 && IsTrail(probes, q, answers) && i < |probes|
    ensures i < 4 && 0 < probes[i].gross <= MAX_UINT128 && ProbeAt(probes[i].gross, q, answers[i]) == Some(probes[i])
  {
    assert AnswersAt(probes, q, answers, i);
  }

  /** The gross input after a probe that fell short. */
  function NextOf(p: Probe, q: Request): int {
    if p.minTotalOut > 0 then NextGross(p.gross, q.obligations, p.minTotalOut) else 0
  }

  /**
   The first answer gives a quote, and if that falls short the second probe fits, gives a quote,
   and yields no less for each gross unit.
   */
  predicate SecondProbeScales(q: Request, answers: seq<Option<nat>>)
    requires |answers| == MAX_ATTEMPTS
  {
    var first := ProbeAt(q.obligations, q, answers[0]);
    && first.Some?
    && (0 < first.value.minTotalOut < q.obligations ==>
          var gross := NextGross(q.obligations, q.obligations, first.value.minTotalOut);
          var second := ProbeAt(gross, q, answers[1]);
          && gross <= MAX_UINT128 && second.Some?
          && second.value.minTotalOut * q.obligations >= first.value.minTotalOut * gross)
  }

  /** Where the loop stands: after one short probe the second is known, and after two the premise is gone. */
  ghost predicate Progress(probes: seq<Probe>, gross: int, q: Request, answers: seq<Option<nat>>)
    requires |answers| == MAX_ATTEMPTS
  {
    && (probes == [] ==> gross == q.obligations)
    && (probes != [] ==>
          && probes[|probes| - 1].minTotalOut < q.obligations
          && gross >= probes[|probes| - 1].gross + 2 && gross == NextOf(probes[|probes| - 1], q))
    && (|probes| == 1 ==>
          && ProbeAt(q.obligations, q, answers[0]) == Some(probes[0]) && 0 < probes[0].minTotalOut
          && gross == NextGross(q.obligations, q.obligations, probes[0].minTotalOut))
    && (|probes| > 1 ==> !SecondProbeScales(q, answers))
  }

  method PayrollCrossTokenQuote(q: Request, answers: seq<Option<nat>>)
    returns (r: Result<Probe, FundingError>, probes: seq<Probe>)
    requires |answers| == MAX_ATTEMPTS
    ensures |probes| <= 4 && IsTrail(probes, q, answers)
    ensures r == Failure(InvalidRequest)
       <==> !(&& 1 <= q.obligations < 0x1_0000_0000_0000_0000_0000_0000_0000_0000
              && 1 <= q.slippage <= 500 && 0 <= q.feeBps <= 100)
    ensures r != Failure(ExceedsSwapLimit) && r != Failure(NoOutput)
    ensures r.Success? ==>
              |probes| > 0 && r.value == probes[|probes| - 1] && r.value.minTotalOut >= q.obligations
    ensures r.Failure? && |probes| > 0 ==> 0 < probes[|probes| - 1].minTotalOut < q.obligations
    ensures r == Failure(QuoteUnavailable) ==>
              && |probes| < 4
              && var gross := if |probes| == 0 then q.obligations else NextOf(probes[|probes| - 1], q);
              gross < 0x1_0000_0000_0000_0000_0000_0000_0000_0000 && ProbeAt(gross, q, answers[|probes|]).None?
    ensures r == Failure(NotConverged) ==>
              && |probes| > 0
              && (|| |probes| == 4
                  || NextOf(probes[|probes| - 1], q) >= 0x1_0000_0000_0000_0000_0000_0000_0000_0000)
    ensures IsRequest(q) && SecondProbeScales(q, answers) ==> r.Success? && |probes| <= 2
  {
    hide IsTrail, Progress, IsProbe, SecondProbeScales, NextGross, ApplySlippage, CalculateMinHopPriceX36;
    probes := [];
    if !IsRequest(q) {
      NothingAsked(q, answers);
      return Failure(InvalidRequest), probes;
    }
    NothingAsked(q, answers);
    var gross := q.obligations;
    var attempt := 0;
    while attempt < MAX_ATTEMPTS
      invariant 0 <= attempt <= MAX_ATTEMPTS && |probes| == attempt
      invariant 0 < gross <= MAX_UINT128
      invariant IsTrail(probes, q, answers) && Progress(probes, gross, q, answers)
      invariant |probes| > 1 ==> !SecondProbeScales(q, answers)
      invariant gross == if |probes| == 0 then q.obligations else NextOf(probes[|probes| - 1], q)
      invariant |probes| > 0 ==> 0 < probes[|probes| - 1].minTotalOut < q.obligations
    {
      var feeAmount := FeeOn(gross, q.feeBps);
      var net := gross - feeAmount;
      ProbeIsSound(gross, q, answers[attempt]);
      if net <= 0 || gross > MAX_UINT128 || net > MAX_UINT128 {
        return Failure(ExceedsSwapLimit), probes;
      }
      var live := LiveQuote(net, q.slippage, answers[attempt]);
      if live.None? {
        NoAnswer(probes, gross, q, answers);
        return Failure(QuoteUnavailable), probes;
      }
      var probe := Probe(gross, feeAmount, net, live.value.0, live.value.1);
      ghost var before := probes;
      probes := probes + [probe];
      Extended(before, gross, probe, q, answers);
      if probe.minTotalOut >= q.obligations {
        return Success(probe), probes;
      }
      if probe.minTotalOut <= 0 {
        return Failure(NoOutput), probes;
      }
      var next := NextGross(gross, q.obligations, probe.minTotalOut);
      NextGrows(gross, q.obligations, probe.minTotalOut);
      if next <= gross || next > MAX_UINT128 {
        return Failure(NotConverged), probes;
      }
      gross := next;
      attempt := attempt + 1;
    }
    return Failure(NotConverged), probes;
  }

  lemma NothingAsked(q: Request, answers: seq<Option<nat>>)
    requires |answers| == MAX_ATTEMPTS
    ensures IsTrail([], q, answers) && Progress([], q.obligations, q, answers)
  {}

  /** A probe that is not answered refutes the scaling premise. */
  lemma NoAnswer(probes: seq<Probe>, gross: int, q: Request, answers: seq<Option<nat>>)
    requires |answers| == MAX_ATTEMPTS && |probes| < MAX_ATTEMPTS && IsRequest(q)
    requires IsTrail(probes, q, answers) && Progress(probes, gross, q, answers)
    requires ProbeAt(gross, q, answers[|probes|]).None?
    ensures !SecondProbeScales(q, answers)
  {}

  /** One more probe keeps the trail; a second one that falls short refutes the scaling premise. */
  lemma Extended(probes: seq<Probe>, gross: int, probe: Probe, q: Request, answers: seq<Option<nat>>)
    requires |answers| == MAX_ATTEMPTS && |probes| < MAX_ATTEMPTS && IsRequest(q)
    requires IsTrail(probes, q, answers) && Progress(probes, gross, q, answers) && IsProbe(probe, q)
    requires ProbeAt(gross, q, answers[|probes|]) == Some(probe)
    ensures IsTrail(probes + [probe], q, answers)
    ensures |probes| >= 1 && SecondProbeScales(q, answers) ==> |probes| == 1 && probe.minTotalOut >= q.obligations
    ensures probe.minTotalOut > 0
    ensures probe.minTotalOut < q.obligations ==>
              Progress(probes + [probe], NextGross(gross, q.obligations, probe.minTotalOut), q, answers)
    ensures (&& |probes| == 0 && probe.minTotalOut < q.obligations
             && NextGross(gross, q.obligations, probe.minTotalOut) > MAX_UINT128)
        ==> !SecondProbeScales(q, answers)
  {
    assert probe.gross == gross;
    if probe.minTotalOut < q.obligations {
      NextGrows(gross, q.obligations, probe.minTotalOut);
    }
    if |probes| == 1 && SecondProbeScales(q, answers) {
      NextGrows(q.obligations, q.obligations, probes[0].minTotalOut);
      ScaledOutputCovers(q.obligations, gross, q.obligations, probes[0].minTotalOut, probe.minTotalOut);
    }
  }

  /**
   Every swap that meets the hop price of an accepted probe pays all obligations exactly if one
   unit less than the obligations misses that price, which holds whenever the net input is at
   most 10^36.
   */
  lemma FundedSwapCovers(q: Request, p: Probe)
    requires IsRequest(q) && IsProbe(p, q) && p.minTotalOut >= q.obligations
    ensures PriceGuards(q.obligations, p.net, p.minHopPriceX36)
        <==> forall output: nat :: MeetsPrice(output, p.net, p.minHopPriceX36) ==> output >= q.obligations
    ensures p.net <= X36 ==> PriceGuards(q.obligations, p.net, p.minHopPriceX36)
  {
    PriceGuardsExactly(q.obligations, p.net, p.minHopPriceX36);
    if p.net <= X36 {
      var amountOut: nat :| && ApplySlippage(amountOut, q.slippage) == Success(p.minTotalOut)
                            && CalculateMinHopPriceX36(p.net, amountOut, q.slippage) == Success(p.minHopPriceX36);
      SmallInputsAreGuarded(p.net, amountOut, q.slippage);
    }
  }
}
