/**
 Fees of Fast CCTP transfers: what a quote suggests, what creating an intent demands, and when
 the second accepts the first. A fee rate is a whole number of hundredths of a basis point.
 */
module FastFees {
  import opened Wrappers
  import opened Text
  import opened Arithmetic
  import opened BatchReferences

  const RATE_SCALE := 1_000_000
  const MAX_HUNDREDTHS := 10_000
  const MAX_BURN_AMOUNT_UNITS := 10_000_000_000_000
  const FAST_FINALITY_THRESHOLD := 1000

  // ---- The quote ---------------------------------------------------------------------------

  function CalculateFastProtocolFee(amount: int, hundredths: nat): int {
    if amount <= 0 then 0
    else if hundredths == 0 then 0
    else (amount * hundredths + 999_999) / RATE_SCALE
  }

  function CalculateFastMaxFee(protocolFee: int): int {
    if protocolFee <= 0 then 0 else (protocolFee * 120 + 99) / 100
  }

  datatype Quote = Quote(protocolFee: int, maxFeeSuggested: int, receiveAmount: int)

  /** The decision part of a quote on a Fast route; none stands for an unavailable quote. */
  function FastQuote(amount: int, hundredths: nat, allowance: nat): Option<Quote> {
    if amount <= 0 then None
    else
      var protocolFee := CalculateFastProtocolFee(amount, hundredths);
      var maxFeeSuggested := CalculateFastMaxFee(protocolFee);
      if maxFeeSuggested > amount || allowance < amount then None
      else Some(Quote(protocolFee, maxFeeSuggested, amount - protocolFee))
  }

  // ---- Creating the intent -----------------------------------------------------------------

  datatype Admission = Admitted | AmountAboveMax | AmountNotPositive | FeeAboveAmount | FastUnavailable

  /** The live check has its own formula, without the quote's guard on the amount. */
  predicate FastReady(amount: nat, maxFee: nat, hundredths: nat, allowance: nat) {
    var protocolFee := if hundredths == 0 then 0 else (amount * hundredths + 999_999) / 1_000_000;
    hundredths <= MAX_HUNDREDTHS && protocolFee <= maxFee && amount <= allowance
  }

  function CreateFastIntent(amount: nat, maxFee: nat, hundredths: nat, allowance: nat): Admission {
    if amount > MAX_BURN_AMOUNT_UNITS || maxFee > MAX_BURN_AMOUNT_UNITS then AmountAboveMax
    else if amount == 0 then AmountNotPositive
    else if maxFee > amount then FeeAboveAmount
    else if !FastReady(amount, maxFee, hundredths, allowance) then FastUnavailable
    else Admitted
  }

  // ---- The ceilings ------------------------------------------------------------------------

  lemma FeeIsCeiling(amount: nat, hundredths: nat)
    ensures var fee := CalculateFastProtocolFee(amount, hundredths);
            fee * 1_000_000 - 1_000_000 < amount * hundredths <= fee * 1_000_000
  {
    var n := amount * hundredths;
    var q := (n + 999_999) / RATE_SCALE;
    assert q * RATE_SCALE <= n + 999_999 < q * RATE_SCALE + RATE_SCALE;
  }

  lemma MaxFeeIsCeiling(fee: nat)
    ensures CalculateFastMaxFee(fee) * 100 - 100 < fee * 120 <= CalculateFastMaxFee(fee) * 100
  {}

  /** What a quote says: the fee rounded up, a fifth more rounded up, and the rest; and when there is none. */
  lemma QuoteSays(amount: int, hundredths: nat, allowance: nat)
    ensures FastQuote(amount, hundredths, allowance).Some? ==>
              var q := FastQuote(amount, hundredths, allowance).value;
              && q.protocolFee * 1_000_000 - 1_000_000 < amount * hundredths <= q.protocolFee * 1_000_000
              && q.maxFeeSuggested * 100 - 100 < q.protocolFee * 120 <= q.maxFeeSuggested * 100
              && q.receiveAmount == amount - q.protocolFee
              && 0 < amount <= allowance && q.maxFeeSuggested <= amount
    ensures FastQuote(amount, hundredths, allowance).None? ==>
              || amount <= 0 || allowance < amount
              || exists fee: nat, most: nat ::
                   && fee * 1_000_000 - 1_000_000 < amount * hundredths <= fee * 1_000_000
                   && most * 100 - 100 < fee * 120 <= most * 100 && most > amount
  {
    if amount > 0 {
      FeeIsCeiling(amount, hundredths);
      var fee := CalculateFastProtocolFee(amount, hundredths);
      MaxFeeIsCeiling(fee);
    }
  }

  /** An intent is admitted exactly within the caps and the allowance, and with a fee that is enough at the live rate. */
  lemma AdmittedExactly(amount: nat, maxFee: nat, hundredths: nat, allowance: nat)
    ensures CreateFastIntent(amount, maxFee, hundredths, allowance) == Admitted
       <==> && 0 < amount <= 10_000_000_000_000 && maxFee <= amount && amount <= allowance
            && hundredths <= 10_000 && amount * hundredths <= maxFee * 1_000_000
    ensures CreateFastIntent(amount, maxFee, hundredths, allowance) == AmountAboveMax
       <==> amount > 10_000_000_000_000 || maxFee > 10_000_000_000_000
    ensures CreateFastIntent(amount, maxFee, hundredths, allowance) == AmountNotPositive
       <==> amount == 0 && maxFee <= 10_000_000_000_000
    ensures CreateFastIntent(amount, maxFee, hundredths, allowance) == FeeAboveAmount
       <==> 0 < amount <= 10_000_000_000_000 && amount < maxFee <= 10_000_000_000_000
  {
    var n := amount * hundredths;
    var fee := if hundredths == 0 then 0 else (n + 999_999) / 1_000_000;
    assert fee * 1_000_000 - 1_000_000 < n <= fee * 1_000_000;
  }

  lemma FeeMonotone(small: nat, large: nat, hundredths: nat)
    requires small <= large
    ensures CalculateFastProtocolFee(small, hundredths) <= CalculateFastProtocolFee(large, hundredths)
  {
    FeeIsCeiling(small, hundredths);
    FeeIsCeiling(large, hundredths);
    assert small * hundredths <= large * hundredths;
  }

  /** Splitting a transfer never lowers the fee, and raises it by at most one unit. */
  lemma FeeSubadditive(a: nat, b: nat, hundredths: nat)
    ensures CalculateFastProtocolFee(a + b, hundredths)
         <= CalculateFastProtocolFee(a, hundredths) + CalculateFastProtocolFee(b, hundredths)
         <= CalculateFastProtocolFee(a + b, hundredths) + 1
  {
    FeeIsCeiling(a, hundredths);
    FeeIsCeiling(b, hundredths);
    FeeIsCeiling(a + b, hundredths);
    assert (a + b) * hundredths == a * hundredths + b * hundredths;
  }

  // ---- When a quote exists, and what becomes of it --------------------------------------------

  /** With a nonzero rate and enough allowance, every amount but a single unit can be quoted. */
  lemma QuoteExists(amount: int, hundredths: nat, allowance: nat)
    requires 1 <= hundredths <= MAX_HUNDREDTHS && amount <= allowance
    ensures FastQuote(amount, hundredths, allowance).Some? <==> amount >= 2
    ensures FastQuote(amount, hundredths, allowance).Some? ==>
              0 < FastQuote(amount, hundredths, allowance).value.receiveAmount < amount
  {
    if amount > 0 {
      FeeIsCeiling(amount, hundredths);
      var fee := CalculateFastProtocolFee(amount, hundredths);
      MaxFeeIsCeiling(fee);
      assert amount <= amount * hundredths <= amount * MAX_HUNDREDTHS by {
        ProductBetween(amount, hundredths, MAX_HUNDREDTHS);
      }
      assert 1 <= fee && fee * 100 < amount + 100;
    }
  }

  lemma ProductBetween(a: nat, x: nat, most: nat)
    requires 1 <= x <= most
    ensures a <= a * x <= a * most
  {
    assert a * x == a + a * (x - 1);
    assert a * most == a * x + a * (most - x);
  }

  /**
   A quote made at one rate, and an intent checked at another: the suggestion's buffer of a fifth
   covers every rise of the rate by at most a fifth. Only the burn cap, which a quote does not
   look at, is left to decide.
   */
  lemma QuoteIsAdmitted(amount: nat, quoted: nat, live: nat, allowance: nat)
    requires FastQuote(amount, quoted, allowance).Some?
    requires live <= MAX_HUNDREDTHS && 5 * live <= 6 * quoted
    ensures CreateFastIntent(amount, FastQuote(amount, quoted, allowance).value.maxFeeSuggested, live, allowance)
         == if amount <= MAX_BURN_AMOUNT_UNITS then Admitted else AmountAboveMax
  {
    BufferCoversRise(amount, quoted, live);
  }

  lemma BufferCoversRise(amount: nat, quoted: nat, live: nat)
    requires 5 * live <= 6 * quoted
    ensures CalculateFastProtocolFee(amount, live)
         <= CalculateFastMaxFee(CalculateFastProtocolFee(amount, quoted))
  {
    var fee := CalculateFastProtocolFee(amount, quoted);
    FeeIsCeiling(amount, quoted);
    FeeIsCeiling(amount, live);
    MaxFeeIsCeiling(fee);
    ScaledOrder(amount, live, quoted);
    CeilingsCompose(CalculateFastProtocolFee(amount, live), fee, CalculateFastMaxFee(fee),
                    amount * live, amount * quoted);
  }

  lemma ScaledOrder(amount: nat, live: nat, quoted: nat)
    requires 5 * live <= 6 * quoted
    ensures 5 * (amount * live) <= 6 * (amount * quoted)
  {
    var rest := 6 * quoted - 5 * live;
    assert amount * (5 * live + rest) == 5 * (amount * live) + amount * rest;
  }

  lemma CeilingsCompose(needed: int, fee: int, suggested: int, a: int, b: int)
    requires needed * 1_000_000 - 1_000_000 < a <= needed * 1_000_000 && fee * 1_000_000 - 1_000_000 < b <= fee * 1_000_000
    requires suggested * 100 - 100 < fee * 120 <= suggested * 100
    requires 5 * a <= 6 * b
    ensures needed <= suggested
  {}

  /** At the burn cap fees are exact multiples, so a larger rise shows there. */
  lemma CapShowsRise(quoted: nat, live: nat)
    requires 1 <= quoted <= MAX_HUNDREDTHS && live <= MAX_HUNDREDTHS
    ensures var cap := MAX_BURN_AMOUNT_UNITS;
            && FastQuote(cap, quoted, cap).Some?
            && (CreateFastIntent(cap, FastQuote(cap, quoted, cap).value.maxFeeSuggested, live, cap) == Admitted
                <==> 5 * live <= 6 * quoted)
  {
    assert CalculateFastProtocolFee(MAX_BURN_AMOUNT_UNITS, quoted) == 10_000_000 * quoted;
    assert CalculateFastProtocolFee(MAX_BURN_AMOUNT_UNITS, live) == 10_000_000 * live;
  }

  predicate IsAdmittedAt(amount: nat, quoted: nat, live: nat, allowance: nat)
    requires FastQuote(amount, quoted, allowance).Some?
  {
    CreateFastIntent(amount, FastQuote(amount, quoted, allowance).value.maxFeeSuggested, live, allowance) == Admitted
  }

  /** Every quote within the burn cap is admitted at a live rate exactly if the rate has risen by at most a fifth. */
  lemma QuotesAreAdmittedExactly(quoted: nat, live: nat)
    requires 1 <= quoted <= MAX_HUNDREDTHS && live <= MAX_HUNDREDTHS
    ensures 5 * live <= 6 * quoted
        <==> forall amount: nat, allowance: nat
               | amount <= MAX_BURN_AMOUNT_UNITS && FastQuote(amount, quoted, allowance).Some? ::
               IsAdmittedAt(amount, quoted, live, allowance)
  {
    CapShowsRise(quoted, live);
    if 5 * live <= 6 * quoted {
      forall amount: nat, allowance: nat
        | amount <= MAX_BURN_AMOUNT_UNITS && FastQuote(amount, quoted, allowance).Some?
        ensures IsAdmittedAt(amount, quoted, live, allowance)
      {
        QuoteIsAdmitted(amount, quoted, live, allowance);
      }
    } else {
      assert !IsAdmittedAt(MAX_BURN_AMOUNT_UNITS, quoted, live, MAX_BURN_AMOUNT_UNITS);
    }
  }

  /** The plain case: one rate and one allowance for both. */
  lemma QuoteIsAdmittedAtItsRate(amount: nat, hundredths: nat, allowance: nat)
    requires FastQuote(amount, hundredths, allowance).Some? && hundredths <= MAX_HUNDREDTHS
    ensures var q := FastQuote(amount, hundredths, allowance).value;
            && (CreateFastIntent(amount, q.maxFeeSuggested, hundredths, allowance) == Admitted
                <==> amount <= MAX_BURN_AMOUNT_UNITS)
            && (hundredths > 0 ==> q.protocolFee < q.maxFeeSuggested)
  {
    QuoteIsAdmitted(amount, hundredths, hundredths, allowance);
    FeeIsCeiling(amount, hundredths);
    MaxFeeIsCeiling(FastQuote(amount, hundredths, allowance).value.protocolFee);
    if hundredths > 0 {
      ProductBetween(amount, hundredths, hundredths);
    }
  }

  // ---- Which rate each side reads from the same response ----------------------------------------

  /** An entry of the fee list; a malformed rate is none. */
  datatype FeeEntry = FeeEntry(source: nat, destination: nat, threshold: nat, hundredths: Option<nat>)

  function FirstFast(entries: seq<FeeEntry>): Option<FeeEntry> {
    if entries == [] then None
    else if entries[0].threshold == FAST_FINALITY_THRESHOLD then Some(entries[0])
    else FirstFast(entries[1..])
  }

  predicate IsFor(e: FeeEntry, source: nat, destination: nat) {
    e.source == source && e.destination == destination && e.threshold == FAST_FINALITY_THRESHOLD
  }

  function FirstFor(entries: seq<FeeEntry>, source: nat, destination: nat): Option<FeeEntry> {
    if entries == [] then None
    else if IsFor(entries[0], source, destination) then Some(entries[0])
    else FirstFor(entries[1..], source, destination)
  }

  /** The quote prefers the entry of its route; the check at creation takes the first Fast entry. */
  function QuotedEntry(entries: seq<FeeEntry>, source: nat, destination: nat): Option<FeeEntry> {
    var own := FirstFor(entries, source, destination);
    if own.Some? then own else FirstFast(entries)
  }

  function LiveEntry(entries: seq<FeeEntry>): Option<FeeEntry> {
    FirstFast(entries)
  }

  /** The check reads the first Fast entry there is. */
  lemma {:induction false} LiveEntryIsFirst(entries: seq<FeeEntry>)
    ensures LiveEntry(entries).None? <==> forall i | 0 <= i < |entries| :: entries[i].threshold != 1000
    ensures LiveEntry(entries).Some? ==>
              exists k :: && 0 <= k < |entries| && entries[k] == LiveEntry(entries).value && entries[k].threshold == 1000
                          && forall i | 0 <= i < k :: entries[i].threshold != 1000
  {
    if entries != [] && entries[0].threshold != 1000 {
      LiveEntryIsFirst(entries[1..]);
      if LiveEntry(entries).Some? {
        var k :| && 0 <= k < |entries[1..]| && entries[1..][k] == LiveEntry(entries[1..]).value
                 && entries[1..][k].threshold == 1000 && forall i | 0 <= i < k :: entries[1..][i].threshold != 1000;
        assert entries[k + 1] == LiveEntry(entries).value;
        assert forall i | 1 <= i < k + 1 :: entries[i] == entries[1..][i - 1];
      } else {
        assert forall i | 1 <= i < |entries| :: entries[i] == entries[1..][i - 1];
      }
    }
  }

  /** The quote reads the first Fast entry of its route, or else what the check reads. */
  lemma {:induction false} QuotedEntryIsOwn(entries: seq<FeeEntry>, source: nat, destination: nat)
    ensures (exists i :: 0 <= i < |entries|
                         && entries[i].source == source && entries[i].destination == destination
                         && entries[i].threshold == 1000)
       <==> FirstFor(entries, source, destination).Some?
    ensures FirstFor(entries, source, destination).Some? ==>
              exists k :: && 0 <= k < |entries| && QuotedEntry(entries, source, destination) == Some(entries[k])
                          && entries[k].source == source && entries[k].destination == destination
                          && entries[k].threshold == 1000
                          && forall i | 0 <= i < k ::
                               entries[i].source != source || entries[i].destination != destination
                               || entries[i].threshold != 1000
    ensures FirstFor(entries, source, destination).None? ==>
              QuotedEntry(entries, source, destination) == LiveEntry(entries)
  {
    if entries != [] && !IsFor(entries[0], source, destination) {
      var rest := entries[1..];
      QuotedEntryIsOwn(rest, source, destination);
      assert forall i | 1 <= i < |entries| :: entries[i] == rest[i - 1];
      if FirstFor(entries, source, destination).Some? {
        var k :| && 0 <= k < |rest| && QuotedEntry(rest, source, destination) == Some(rest[k])
                 && rest[k].source == source && rest[k].destination == destination && rest[k].threshold == 1000
                 && forall i | 0 <= i < k ::
                      rest[i].source != source || rest[i].destination != destination || rest[i].threshold != 1000;
        assert entries[k + 1] == rest[k];
      }
    }
  }

  /** Both read the same entry exactly when no Fast entry of another route precedes the route's own. */
  lemma {:induction false} SameEntryExactly(entries: seq<FeeEntry>, source: nat, destination: nat)
    ensures FirstFor(entries, source, destination).Some? ==> FirstFast(entries).Some?
    ensures QuotedEntry(entries, source, destination) == LiveEntry(entries)
        <==> (FirstFor(entries, source, destination).Some? ==>
                IsFor(FirstFast(entries).value, source, destination))
  {
    if entries != [] && entries[0].threshold != FAST_FINALITY_THRESHOLD {
      SameEntryExactly(entries[1..], source, destination);
    } else {
      RouteEntry(entries, source, destination);
    }
  }

  lemma {:induction false} RouteEntry(entries: seq<FeeEntry>, source: nat, destination: nat)
    ensures FirstFor(entries, source, destination).Some? ==>
              IsFor(FirstFor(entries, source, destination).value, source, destination)
  {
    if entries != [] {
      RouteEntry(entries[1..], source, destination);
    }
  }

  /** Otherwise a quote can be refused: another route's dearer entry stands first. */
  lemma QuoteCanBeRefused() returns (entries: seq<FeeEntry>)
    ensures QuotedEntry(entries, 6, 26) == Some(FeeEntry(6, 26, 1000, Some(100)))
    ensures LiveEntry(entries) == Some(FeeEntry(0, 26, 1000, Some(1400)))
    ensures var q := FastQuote(1_000_000, 100, 1_000_000);
            q.Some? && CreateFastIntent(1_000_000, q.value.maxFeeSuggested, 1400, 1_000_000) == FastUnavailable
  {
    var own := FeeEntry(6, 26, FAST_FINALITY_THRESHOLD, Some(100));
    entries := [FeeEntry(0, 26, FAST_FINALITY_THRESHOLD, Some(1400)), own];
    assert entries[1..] == [own];
    assert FirstFor([own], 6, 26) == Some(own);
  }

  // ---- The allowance text ------------------------------------------------------------------

  function PointAt(s: string): (k: nat)
    ensures k <= |s|
    ensures k < |s| ==> s[k] == '.'
    ensures forall i | 0 <= i < k :: s[i] != '.'
  {
    if s == [] || s[0] == '.' then 0 else 1 + PointAt(s[1..])
  }

  predicate IsNumeral(s: string) {
    s != [] && AllDigits(s)
  }

  /** Digits, or digits, a point and one to six digits. */
  predicate IsAllowance(s: string) {
    var k := PointAt(s);
    && IsNumeral(s[..k])
    && (k < |s| ==> IsNumeral(s[k + 1..]) && |s[k + 1..]| <= 6)
  }

  function Fraction(s: string): string {
    var k := PointAt(s);
    if k < |s| then s[k + 1..] else []
  }

  function ParseFastAllowanceSubunits(value: string): Option<nat> {
    var text := Trim(value);
    if !IsAllowance(text) then None
    else
      var padded := (Fraction(text) + "000000")[..6];
      Some(ParseDecimal(text[..PointAt(text)]) * 1_000_000 + ParseDecimal(padded))
  }

  lemma {:induction false} ParseOfConcat(a: string, b: string)
    requires AllDigits(a) && AllDigits(b)
    ensures AllDigits(a + b) && ParseDecimal(a + b) == ParseDecimal(a) * Power10(|b|) + ParseDecimal(b)
  {
    if b == [] {
      assert a + b == a;
    } else {
      var c := b[..|b| - 1];
      ParseOfConcat(a, c);
      assert (a + b)[..|a + b| - 1] == a + c;
      assert ParseDecimal(a) * Power10(|b|) == 10 * (ParseDecimal(a) * Power10(|c|));
    }
  }

  function Noughts(n: nat): (s: string)
    ensures |s| == n && AllDigits(s) && ParseDecimal(s) == 0
  {
    if n == 0 then [] else
    var s := Noughts(n - 1) + ['0'];
    assert s[..n - 1] == Noughts(n - 1);
    s
  }

  lemma SixNoughts()
    ensures Noughts(6) == "000000"
  {
    assert Noughts(1) == "0";
    assert Noughts(2) == "00";
    assert Noughts(3) == "000";
    assert Noughts(4) == "0000";
    assert Noughts(5) == "00000";
  }

  lemma {:induction false} NoughtsPrefix(n: nat, k: nat)
    requires k <= n
    ensures Noughts(n)[..k] == Noughts(k)
  {
    if k < n {
      NoughtsPrefix(n - 1, k);
      assert Noughts(n)[..k] == Noughts(n - 1)[..k];
    }
  }

  lemma TakePadded(s: string, padding: string)
    requires |s| <= |padding|
    ensures (s + padding)[..|padding|] == s + padding[..|padding| - |s|]
  {}

  lemma PaddedBy(fraction: string, padding: string, n: nat)
    requires AllDigits(fraction) && |fraction| <= n && padding == Noughts(n)
    ensures var padded := (fraction + padding)[..n];
            AllDigits(padded) && ParseDecimal(padded) == ParseDecimal(fraction) * Power10(n - |fraction|)
  {
    TakePadded(fraction, padding);
    NoughtsPrefix(n, n - |fraction|);
    ParseOfConcat(fraction, Noughts(n - |fraction|));
  }

  lemma PaddedFraction(fraction: string)
    requires AllDigits(fraction) && |fraction| <= 6
    ensures var padded := (fraction + "000000")[..6];
            AllDigits(padded) && ParseDecimal(padded) == ParseDecimal(fraction) * Power10(6 - |fraction|)
  {
    hide Noughts, ParseDecimal, Power10;
    SixNoughts();
    PaddedBy(fraction, "000000", 6);
  }

  /** The parse is exact: the value is the written number, whatever the length of its fraction. */
  lemma AllowanceIsExact(value: string)
    requires ParseFastAllowanceSubunits(value).Some?
    ensures var text := Trim(value);
            var digits := text[..PointAt(text)] + Fraction(text);
            && AllDigits(digits) && |Fraction(text)| <= 6
            && ParseFastAllowanceSubunits(value).value * Power10(|Fraction(text)|)
               == ParseDecimal(digits) * 1_000_000
  {
    var text := Trim(value);
    var whole, fraction := text[..PointAt(text)], Fraction(text);
    ParseOfConcat(whole, fraction);
    PaddedFraction(fraction);
    PowersOfSix(|fraction|);
    ScaledSum(ParseDecimal(whole), ParseDecimal(fraction), Power10(|fraction|), Power10(6 - |fraction|));
  }

  /** What is read: digits, or digits, a point and up to six digits, with white space around them. */
  lemma AllowanceIsReadExactly(value: string)
    ensures ParseFastAllowanceSubunits(value).Some?
       <==> exists k: nat :: IsPointedAt(Trim(value), k)
    ensures forall text, k: nat ::
              (IsPointedAt(text, k)
               <==> && 0 < k <= |text| && (forall i | 0 <= i < k :: '0' <= text[i] <= '9')
                    && (k < |text| ==>
                          && text[k] == '.' && k + 2 <= |text| <= k + 7
                          && forall i | k < i < |text| :: '0' <= text[i] <= '9'))
  {
    var text := Trim(value);
    var point := PointAt(text);
    if IsAllowance(text) {
      assert forall i | 0 <= i < point :: text[i] == text[..point][i];
      assert point < |text| ==> forall i | point < i < |text| :: text[i] == text[point + 1..][i - point - 1];
      assert IsPointedAt(text, point);
    }
    if k: nat :| IsPointedAt(text, k) {
      assert point == k;
    }
  }

  /** A numeral of k digits, and after it, if there is more, a point and one to six digits. */
  ghost predicate IsPointedAt(text: string, k: nat) {
    && 0 < k <= |text| && (forall i | 0 <= i < k :: IsDigit(text[i]))
    && (k < |text| ==> text[k] == '.' && k + 2 <= |text| <= k + 7 && forall i | k < i < |text| :: IsDigit(text[i]))
  }

  lemma PowersOfSix(k: nat)
    requires k <= 6
    ensures Power10(k) * Power10(6 - k) == 1_000_000
  {
    assert Power10(1) == 10 && Power10(2) == 100 && Power10(3) == 1_000;
    assert Power10(4) == 10_000 && Power10(5) == 100_000 && Power10(6) == 1_000_000;
  }

  lemma ScaledSum(w: nat, f: nat, p: nat, q: nat)
    requires p * q == 1_000_000
    ensures (w * 1_000_000 + f * q) * p == (w * p + f) * 1_000_000
  {
    calc {
      (w * 1_000_000 + f * q) * p;
      w * 1_000_000 * p + f * (q * p);
      w * p * 1_000_000 + f * 1_000_000;
    }
  }
}
