/**
 How the batches of one payroll run get their reference ids, and when those ids differ.
 A numeric suffix passes through a double-precision number, so rounding is part of the model.
 */
module BatchReferences {
  import opened Wrappers
  import opened Text
  import opened Arithmetic
  import Sequences

  const TWO_53: nat := 9007199254740992

  // ---- Decimal numerals ---------------------------------------------------------------

  function DigitChar(d: nat): char
    requires d < 10
  {
    ('0' as int + d) as char
  }

  function DigitValue(c: char): nat
    requires IsDigit(c)
  {
    c as int - '0' as int
  }

  predicate AllDigits(s: string) {
    forall i | 0 <= i < |s| :: IsDigit(s[i])
  }

  function Decimal(n: nat): (s: string)
    ensures AllDigits(s) && s != []
  {
    if n < 10 then [DigitChar(n)] else Decimal(n / 10) + [DigitChar(n % 10)]
  }

  function ParseDecimal(s: string): nat
    requires AllDigits(s)
  {
    if s == [] then 0 else 10 * ParseDecimal(s[..|s| - 1]) + DigitValue(s[|s| - 1])
  }

  lemma {:induction false} ParseOfDecimal(n: nat)
    ensures ParseDecimal(Decimal(n)) == n
  {
    if n < 10 {
      assert Decimal(n)[..0] == [];
    } else {
      var s := Decimal(n);
      assert s[..|s| - 1] == Decimal(n / 10);
      ParseOfDecimal(n / 10);
    }
  }

  lemma DecimalInjective(a: nat, b: nat)
    requires Decimal(a) == Decimal(b)
    ensures a == b
  {
    ParseOfDecimal(a);
    ParseOfDecimal(b);
  }

  function Power10(n: nat): (p: nat)
    ensures p >= 1
  {
    if n == 0 then 1 else 10 * Power10(n - 1)
  }

  // ---- Double-precision integers --------------------------------------------------------

  /** The distance between neighbouring doubles at `n`. */
  function Ulp(n: nat): (u: nat)
    ensures u >= 1
  {
    if n < TWO_53 then 1 else 2 * Ulp(n / 2)
  }

  function RoundHalfEven(n: nat, unit: nat): nat
    requires unit >= 1
  {
    var q, r := n / unit, n % unit;
    if 2 * r < unit || (2 * r == unit && q % 2 == 0) then q * unit else (q + 1) * unit
  }

  function ToDouble(n: nat): nat {
    RoundHalfEven(n, Ulp(n))
  }

  function AddDoubles(a: nat, b: nat): nat {
    ToDouble(ToDouble(a) + b)
  }

  lemma SmallIntegersAreExact(n: nat)
    requires n <= TWO_53
    ensures ToDouble(n) == n
  {
    if n == TWO_53 {
      assert Ulp(n) == 2 * Ulp(n / 2) == 2;
    }
  }

  /** The first integer a double cannot hold rounds down onto its neighbour. */
  lemma FirstInexactInteger()
    ensures ToDouble(TWO_53 + 1) == TWO_53
  {
    assert Ulp(TWO_53 + 1) == 2 * Ulp((TWO_53 + 1) / 2) == 2;
  }

  const TWO_52: nat := 4503599627370496

  /** From 2^53 on, a number lies between 2^52 and 2^53 of its units. */
  lemma {:induction false} UlpBounds(n: nat)
    requires n >= TWO_53
    ensures Ulp(n) >= 2 && Ulp(n) * TWO_52 <= n < Ulp(n) * TWO_53
    ensures Ulp(n) == 2 || Ulp(n) == 4 || Ulp(n) >= 8
  {
    if n / 2 >= TWO_53 {
      UlpBounds(n / 2);
    }
  }

  /** The unit of a larger number is that of the smaller one, or at least twice it. */
  lemma {:induction false} UlpGrows(n: nat, m: nat)
    requires n <= m
    ensures Ulp(m) == Ulp(n) || Ulp(m) >= 2 * Ulp(n)
  {
    if n >= TWO_53 {
      UlpGrows(n / 2, m / 2);
    }
  }

  /** Inside the same range of 2^53 units the unit is the same. */
  lemma UlpInRange(n: nat, x: nat)
    requires n >= TWO_53 && x >= TWO_53
    requires Ulp(n) * TWO_52 <= x < Ulp(n) * TWO_53
    ensures Ulp(x) == Ulp(n)
  {
    UlpBounds(n);
    UlpBounds(x);
    if n <= x {
      UlpGrows(n, x);
    } else {
      UlpGrows(x, n);
    }
  }

  lemma ExactWhenMultiple(q: nat, u: nat)
    requires u > 0
    ensures RoundHalfEven(q * u, u) == q * u
  {
    RemainderIs(q * u, q, u, 0);
  }

  /** At the top of a range of 2^53 units the unit doubles. */
  lemma UlpAtTop(n: nat, top: nat)
    requires n >= TWO_53 && top == Ulp(n) * TWO_53
    ensures Ulp(top) == 2 * Ulp(n)
  {
    UlpBounds(n);
    UlpBounds(top);
    UlpGrows(n, top);
  }

  lemma TopIsExact(n: nat, top: nat)
    requires n >= TWO_53 && top == Ulp(n) * TWO_53
    ensures ToDouble(top) == top
  {
    UlpAtTop(n, top);
    ExactWhenMultiple(TWO_52, Ulp(top));
  }

  /** A double at or above 2^53, as a quotient by its own unit. */
  ghost predicate IsDouble(d: nat, q: nat) {
    d >= TWO_53 && d == q * Ulp(d) && q < TWO_53
  }

  /** Rounding picks the multiple of the unit below or above. */
  lemma RoundedQuotient(n: nat, u: nat) returns (q: nat)
    requires u >= 2 && u * TWO_52 <= n < u * TWO_53
    ensures RoundHalfEven(n, u) == q * u && TWO_52 <= q <= TWO_53
  {
    var p := n / u;
    assert p * u <= n < p * u + u;
    FactorKeepsOrder(TWO_53, p, u);
    FactorKeepsOrder(p + 1, TWO_52, u);
    assert (p + 1) * u == p * u + u;
    q := if RoundHalfEven(n, u) == p * u then p else p + 1;
  }

  lemma RoundedIsDouble(n: nat) returns (q: nat)
    requires n >= TWO_53
    ensures IsDouble(ToDouble(n), q)
  {
    var u, d := Ulp(n), ToDouble(n);
    UlpBounds(n);
    q := RoundedQuotient(n, u);
    if q < TWO_53 {
      FactorKeepsOrder(TWO_52, q, u);
      FactorKeepsOrder(q + 1, TWO_53, u);
      assert (q + 1) * u == q * u + u;
      UlpInRange(n, d);
    } else {
      UlpAtTop(n, d);
      q := TWO_52;
    }
  }

  /** Where the next few integers round to, while they stay in the range of the double. */
  lemma RoundsNearDouble(d: nat, q: nat, i: nat)
    requires IsDouble(d, q) && i < Ulp(d)
    ensures ToDouble(d + i)
         == if 2 * i < Ulp(d) || (2 * i == Ulp(d) && q % 2 == 0) then d else d + Ulp(d)
  {
    var u := Ulp(d);
    UlpBounds(d);
    FactorKeepsOrder(q + 1, TWO_53, u);
    assert (q + 1) * u == q * u + u;
    UlpInRange(d, d + i);
    RemainderIs(d + i, q, u, i);
  }

  /** The next double is a double too. */
  lemma NextIsExact(d: nat, q: nat)
    requires IsDouble(d, q)
    ensures ToDouble(d + Ulp(d)) == d + Ulp(d)
    ensures q + 1 < TWO_53 ==> IsDouble(d + Ulp(d), q + 1) && Ulp(d + Ulp(d)) == Ulp(d)
  {
    var u := Ulp(d);
    UlpBounds(d);
    assert d + u == (q + 1) * u;
    if q + 1 < TWO_53 {
      FactorKeepsOrder(q + 2, TWO_53, u);
      assert (q + 2) * u == (q + 1) * u + u;
      UlpInRange(d, d + u);
      ExactWhenMultiple(q + 1, u);
    } else {
      TopIsExact(d, d + u);
    }
  }

  lemma WideUnitCollides(d: nat, q: nat)
    requires IsDouble(d, q) && Ulp(d) >= 8
    ensures ToDouble(d + 1) == ToDouble(d + 2)
  {
    RoundsNearDouble(d, q, 1);
    RoundsNearDouble(d, q, 2);
  }

  lemma UnitFourCollides(d: nat, q: nat)
    requires IsDouble(d, q) && Ulp(d) == 4
    ensures q % 2 == 0 ==> ToDouble(d + 1) == ToDouble(d + 2)
    ensures q % 2 == 1 ==> ToDouble(d + 2) == ToDouble(d + 3)
  {
    RoundsNearDouble(d, q, 1);
    RoundsNearDouble(d, q, 2);
    RoundsNearDouble(d, q, 3);
  }

  lemma OddTieCollides(d: nat, q: nat)
    requires IsDouble(d, q) && Ulp(d) == 2 && q % 2 == 1
    ensures ToDouble(d + 1) == ToDouble(d + 2)
  {
    RoundsNearDouble(d, q, 1);
    NextIsExact(d, q);
  }

  lemma EvenTieCollides(d: nat, q: nat, next: nat)
    requires IsDouble(d, q) && Ulp(d) == 2 && q % 2 == 0 && next == d + 2
    ensures ToDouble(next + 1) == ToDouble(next + 2)
  {
    NextIsExact(d, q);
    OddTieCollides(next, q + 1);
  }

  /** Two of the four integers after a double at or above 2^53 round to the same double. */
  lemma FourIntegersCollide(d: nat, q: nat) returns (i: nat)
    requires IsDouble(d, q)
    ensures 1 <= i < 4 && ToDouble(d + i) == ToDouble(d + i + 1)
  {
    UlpBounds(d);
    if Ulp(d) >= 8 {
      WideUnitCollides(d, q);
      i := 1;
    } else if Ulp(d) == 4 {
      UnitFourCollides(d, q);
      i := if q % 2 == 0 then 1 else 2;
    } else if q % 2 == 1 {
      OddTieCollides(d, q);
      i := 1;
    } else {
      EvenTieCollides(d, q, d + 2);
      i := 3;
    }
  }

  // ---- References ------------------------------------------------------------------------

  lemma TrailingDigit(s: string, k: nat)
    requires k < |s| && AllDigits(s[..|s| - 1][|s| - 1 - k..]) && IsDigit(s[|s| - 1])
    ensures AllDigits(s[|s| - (1 + k)..])
  {
    var inner := s[..|s| - 1][|s| - 1 - k..];
    assert s[|s| - (1 + k)..] == inner + [s[|s| - 1]];
  }

  function TrailingDigits(s: string): (k: nat)
    ensures k <= |s|
    ensures AllDigits(s[|s| - k..])
    ensures k < |s| ==> !IsDigit(s[|s| - k - 1])
  {
    if s == [] || !IsDigit(s[|s| - 1]) then 0
    else
      var k := TrailingDigits(s[..|s| - 1]);
      TrailingDigit(s, k);
      1 + k
  }

  /** A reference that ends in a hyphen and digits, split around that hyphen. */
  function SplitSuffix(s: string): (r: Option<(string, string)>)
    ensures r.Some? ==>
              s == r.value.0 + "-" + r.value.1 && r.value.1 != [] && AllDigits(r.value.1)
  {
    var k := TrailingDigits(s);
    if 0 < k < |s| && s[|s| - k - 1] == '-'
    then Some((s[..|s| - k - 1], s[|s| - k..]))
    else None
  }

  function BatchReference(base: string, index: nat): string {
    if index == 0 then base
    else
      match SplitSuffix(base)
      case Some((prefix, digits)) => prefix + "-" + Decimal(AddDoubles(ParseDecimal(digits), index))
      case None => base + "-" + Decimal(index + 1)
  }

  /** How many batches get references of their own when the suffix reads as `d`, a double of at least 2^53. */
  function Capacity(digits: string, d: nat): (c: nat)
    ensures 1 <= c <= 4
  {
    var isOdd := d / Ulp(d) % 2 == 1;
    if Ulp(d) == 2 && isOdd then 2
    else if digits == Decimal(d) then 1
    else if Ulp(d) == 2 then 4
    else if Ulp(d) == 4 && isOdd then 3
    else 2
  }

  /** The run is short enough for its suffix: up to 2^53 by the last number, beyond by how doubles round. */
  predicate SuffixFits(base: string, count: nat) {
    match SplitSuffix(base)
    case Some((_, digits)) =>
      var n := ParseDecimal(digits);
      if n < TWO_53 then n + count <= TWO_53 + 1 else count <= Capacity(digits, ToDouble(n))
    case None => true
  }

  lemma ReferenceIsExact(base: string, index: nat)
    requires index > 0 && SplitSuffix(base).Some? && ParseDecimal(SplitSuffix(base).value.1) + index <= TWO_53
    ensures var (prefix, digits) := SplitSuffix(base).value;
            BatchReference(base, index) == prefix + "-" + Decimal(ParseDecimal(digits) + index)
  {
    hide ToDouble, ParseDecimal, Decimal;
    var n := ParseDecimal(SplitSuffix(base).value.1);
    SmallIntegersAreExact(n);
    SmallIntegersAreExact(n + index);
  }

  /** A reference ending in a hyphen and a number is counted on from that number. */
  lemma NumberedReferenceIs(prefix: string, digits: string, index: nat)
    requires digits != [] && AllDigits(digits) && ParseDecimal(digits) + index <= 9_007_199_254_740_992
    ensures BatchReference(prefix + "-" + digits, index)
         == if index == 0 then prefix + "-" + digits else prefix + "-" + Decimal(ParseDecimal(digits) + index)
    ensures Decimal(120) == "120"
  {
    SuffixIsSplit(prefix, digits);
    if index > 0 {
      ReferenceIsExact(prefix + "-" + digits, index);
    }
    assert Decimal(12) == "12";
  }

  lemma {:induction false} TrailingDigitsOf(prefix: string, digits: string)
    requires AllDigits(digits)
    ensures TrailingDigits(prefix + "-" + digits) == |digits|
  {
    var s, n := prefix + "-" + digits, |digits| - 1;
    if digits != [] {
      TrailingDigitsOf(prefix, digits[..n]);
      assert s[..|s| - 1] == prefix + "-" + digits[..n];
      assert s[|s| - 1] == digits[n];
    }
  }

  lemma SuffixIsSplit(prefix: string, digits: string)
    requires digits != [] && AllDigits(digits)
    ensures SplitSuffix(prefix + "-" + digits) == Some((prefix, digits))
  {
    var s := prefix + "-" + digits;
    TrailingDigitsOf(prefix, digits);
    assert s[|prefix|] == '-' && s[|prefix| + 1..] == digits && s[..|prefix|] == prefix;
  }

  /** Any other reference gets a number of its own, and the second batch is number two. */
  lemma PlainReferenceIs(base: string, index: nat)
    requires forall k | 0 < k < |base| :: base[k - 1] == '-' ==> !AllDigits(base[k..])
    ensures BatchReference(base, index) == if index == 0 then base else base + "-" + Decimal(index + 1)
  {}

  lemma NumberedReferencesDiffer(prefix: string, a: nat, b: nat)
    requires a != b
    ensures prefix + "-" + Decimal(a) != prefix + "-" + Decimal(b)
  {
    if prefix + "-" + Decimal(a) == prefix + "-" + Decimal(b) {
      Sequences.SameTail(prefix + "-", Decimal(a), Decimal(b));
      DecimalInjective(a, b);
    }
  }

  lemma FirstReferenceDiffers(base: string, prefix: string, digits: string, b: nat)
    requires base == prefix + "-" + digits && AllDigits(digits) && ParseDecimal(digits) != b
    ensures base != prefix + "-" + Decimal(b)
  {
    if base == prefix + "-" + Decimal(b) {
      Sequences.SameTail(prefix + "-", digits, Decimal(b));
      ParseOfDecimal(b);
    }
  }

  /** What the three integers after a double of at least 2^53 round to. */
  lemma NextThree(d: nat, q: nat)
    requires IsDouble(d, q)
    ensures ToDouble(d) == d && ToDouble(d + Ulp(d)) == d + Ulp(d)
    ensures ToDouble(d + 1) == if Ulp(d) == 2 && q % 2 == 1 then d + 2 else d
    ensures !(Ulp(d) == 2 && q % 2 == 1) ==>
              ToDouble(d + 2) == if Ulp(d) == 2 then d + 2 else if Ulp(d) == 4 && q % 2 == 1 then d + 4 else d
    ensures Ulp(d) == 2 && q % 2 == 0 ==> ToDouble(d + 3) == ToDouble(d + 4) == d + 4
  {
    hide Ulp, ToDouble;
    var u := Ulp(d);
    UlpBounds(d);
    NextIsExact(d, q);
    RoundsNearDouble(d, q, 0);
    RoundsNearDouble(d, q, 1);
    if u > 2 {
      RoundsNearDouble(d, q, 2);
    } else if q % 2 == 0 {
      RoundsNearDouble(d + 2, q + 1, 1);
      NextIsExact(d + 2, q + 1);
    }
  }

  /** No text but its own numeral reads as a double and is printed as it. */
  lemma TextIsNoOther(digits: string, d: nat, x: nat)
    requires AllDigits(digits) && ToDouble(ParseDecimal(digits)) == d && ToDouble(x) == x != d
    ensures digits != Decimal(x)
  {
    ParseOfDecimal(x);
  }

  /** The number in the reference of batch `index`, when the suffix reads as the double `d`. */
  function NumberText(digits: string, d: nat, index: nat): string {
    if index == 0 then digits else Decimal(ToDouble(d + index))
  }

  lemma ReferencesAreNumbered(base: string, i: nat, j: nat)
    requires SplitSuffix(base).Some?
    ensures var digits := SplitSuffix(base).value.1;
            var d := ToDouble(ParseDecimal(digits));
            BatchReference(base, i) == BatchReference(base, j) <==> NumberText(digits, d, i) == NumberText(digits, d, j)
  {
    hide ToDouble, ParseDecimal, Decimal;
    var (prefix, digits) := SplitSuffix(base).value;
    var d := ToDouble(ParseDecimal(digits));
    assert BatchReference(base, i) == prefix + "-" + NumberText(digits, d, i);
    assert BatchReference(base, j) == prefix + "-" + NumberText(digits, d, j);
    Sequences.SameTail(prefix + "-", NumberText(digits, d, i), NumberText(digits, d, j));
  }

  lemma CapacityOf(digits: string, d: nat, q: nat)
    requires IsDouble(d, q)
    ensures Capacity(digits, d)
         == if Ulp(d) == 2 && q % 2 == 1 then 2
            else if digits == Decimal(d) then 1
            else if Ulp(d) == 2 then 4
            else if Ulp(d) == 4 && q % 2 == 1 then 3
            else 2
  {
    hide Ulp, Decimal;
    RemainderIs(d, q, Ulp(d), 0);
  }

  /** The doubles that the batches with numbers of their own get are exact, and apart from the first they differ. */
  lemma OwnNumbers(digits: string, d: nat, q: nat, i: nat, j: nat)
    requires IsDouble(d, q) && i < j < Capacity(digits, d)
    ensures ToDouble(ToDouble(d + j)) == ToDouble(d + j)
    ensures i > 0 ==> ToDouble(d + i) != ToDouble(d + j)
    ensures ToDouble(d + j) == d ==> digits != Decimal(d)
  {
    hide Ulp, ToDouble, Decimal, Capacity;
    NextThree(d, q);
    CapacityOf(digits, d, q);
    assert j == 1 || j == 2 || j == 3;
  }

  lemma NumbersDiffer(digits: string, d: nat, q: nat, i: nat, j: nat)
    requires AllDigits(digits) && ToDouble(ParseDecimal(digits)) == d && IsDouble(d, q)
    requires i < j < Capacity(digits, d)
    ensures NumberText(digits, d, i) != NumberText(digits, d, j)
  {
    OwnNumbers(digits, d, q, i, j);
    hide Ulp, ToDouble, ParseDecimal, Decimal, Capacity;
    var x, y := ToDouble(d + i), ToDouble(d + j);
    if i == 0 {
      if y != d {
        TextIsNoOther(digits, d, y);
      }
    } else if Decimal(x) == Decimal(y) {
      DecimalInjective(x, y);
    }
  }

  /** The last batch that has a number of its own shares it with the next. */
  lemma LastNumberCollides(digits: string, d: nat, q: nat, last: nat)
    requires IsDouble(d, q) && last + 1 == Capacity(digits, d)
    ensures NumberText(digits, d, last) == NumberText(digits, d, last + 1)
  {
    hide Ulp, ToDouble, ParseDecimal, Decimal, Capacity;
    NextThree(d, q);
    CapacityOf(digits, d, q);
    if Ulp(d) == 4 && q % 2 == 1 && last == 2 {
      UnitFourCollides(d, q);
    }
  }

  /** Two batches of one run get different references while the run fits. */
  lemma ReferencesDiffer(base: string, i: nat, j: nat)
    requires i < j && SuffixFits(base, j + 1)
    ensures BatchReference(base, i) != BatchReference(base, j)
  {
    hide ToDouble, Capacity, ParseDecimal, Decimal;
    match SplitSuffix(base)
    case Some((prefix, digits)) =>
      var n := ParseDecimal(digits);
      if n >= TWO_53 {
        var q := RoundedIsDouble(n);
        NumbersDiffer(digits, ToDouble(n), q, i, j);
        ReferencesAreNumbered(base, i, j);
      } else {
        ReferenceIsExact(base, j);
        if i > 0 {
          ReferenceIsExact(base, i);
          NumberedReferencesDiffer(prefix, n + i, n + j);
        } else {
          FirstReferenceDiffers(base, prefix, digits, n + j);
        }
      }
    case None =>
      if i > 0 {
        NumberedReferencesDiffer(base, i + 1, j + 1);
      } else {
        assert |BatchReference(base, j)| > |base|;
      }
  }

  /** From 2^53 on, two of the batches one to four share a reference. */
  lemma LargeSuffixesCollide(base: string) returns (i: nat)
    requires SplitSuffix(base).Some? && ParseDecimal(SplitSuffix(base).value.1) >= TWO_53
    ensures 1 <= i < 4 && BatchReference(base, i) == BatchReference(base, i + 1)
  {
    var n := ParseDecimal(SplitSuffix(base).value.1);
    var q := RoundedIsDouble(n);
    i := FourIntegersCollide(ToDouble(n), q);
  }

  /** The references of a run are pairwise distinct exactly when its suffix fits it. */
  lemma ReferencesDifferExactly(base: string, count: nat)
    ensures (forall i: nat, j: nat :: i < j < count ==> BatchReference(base, i) != BatchReference(base, j))
       <==> SuffixFits(base, count)
  {
    if SuffixFits(base, count) {
      forall i: nat, j: nat | i < j < count
        ensures BatchReference(base, i) != BatchReference(base, j)
      {
        ReferencesDiffer(base, i, j);
      }
    } else {
      var i := UnfitSuffixCollides(base, count);
      var j := i + 1;
      assert i < j < count && BatchReference(base, i) == BatchReference(base, j);
    }
  }

  lemma UnfitSuffixCollides(base: string, count: nat) returns (i: nat)
    requires SplitSuffix(base).Some? && !SuffixFits(base, count)
    ensures i + 1 < count && BatchReference(base, i) == BatchReference(base, i + 1)
  {
    hide ToDouble, Capacity, ParseDecimal, Decimal;
    var n := ParseDecimal(SplitSuffix(base).value.1);
    if n >= TWO_53 {
      var q := RoundedIsDouble(n);
      i := Capacity(SplitSuffix(base).value.1, ToDouble(n)) - 1;
      LastNumberCollides(SplitSuffix(base).value.1, ToDouble(n), q, i);
      ReferencesAreNumbered(base, i, i + 1);
    } else {
      i := TWO_53 - n;
      SmallIntegersAreExact(n);
      SmallIntegersAreExact(n + i);
      FirstInexactInteger();
    }
  }

  /** A run numbered at 2^53 gives its first two batches the same reference. */
  lemma CollidingReferences(prefix: string)
    ensures var base := prefix + "-" + Decimal(TWO_53);
            BatchReference(base, 0) == BatchReference(base, 1)
  {
    SplitOf(prefix, Decimal(TWO_53));
    ParseOfDecimal(TWO_53);
    SmallIntegersAreExact(TWO_53);
    FirstInexactInteger();
  }

  lemma {:induction false} TrailingOf(p: string, d: string)
    requires AllDigits(d) && p != [] && !IsDigit(p[|p| - 1])
    ensures TrailingDigits(p + d) == |d|
  {
    if d != [] {
      assert (p + d)[..|p + d| - 1] == p + d[..|d| - 1];
      TrailingOf(p, d[..|d| - 1]);
    } else {
      assert p + d == p;
    }
  }

  lemma SplitOf(prefix: string, digits: string)
    requires digits != [] && AllDigits(digits)
    ensures SplitSuffix(prefix + "-" + digits) == Some((prefix, digits))
  {
    TrailingOf(prefix + "-", digits);
    var s := prefix + "-" + digits;
    assert s[..|prefix|] == prefix && s[|prefix| + 1..] == digits && s[|prefix|] == '-';
  }

  // ---- References survive trimming ---------------------------------------------------------

  predicate IsTrimmed(s: string) {
    s != [] ==> !IsSpace(s[0]) && !IsSpace(s[|s| - 1])
  }

  lemma TrimmedStays(s: string)
    requires IsTrimmed(s)
    ensures Trim(s) == s
  {
    assert TrimStart(s) == s;
  }

  lemma {:induction false} TrimStartLeads(s: string)
    ensures TrimStart(s) == [] || !IsSpace(TrimStart(s)[0])
  {
    if s != [] && IsSpace(s[0]) {
      TrimStartLeads(s[1..]);
    }
  }

  lemma {:induction false} TrimEndKeepsHead(s: string)
    requires s == [] || !IsSpace(s[0])
    ensures IsTrimmed(TrimEnd(s))
  {
    if s != [] && IsSpace(s[|s| - 1]) {
      TrimEndKeepsHead(s[..|s| - 1]);
    }
  }

  lemma TrimTrims(s: string)
    ensures IsTrimmed(Trim(s))
  {
    TrimStartLeads(s);
    TrimEndKeepsHead(TrimStart(s));
  }

  lemma BatchReferenceIsTrimmed(base: string, index: nat)
    requires IsTrimmed(base)
    ensures IsTrimmed(BatchReference(base, index))
  {
    var r := BatchReference(base, index);
    if index > 0 {
      assert IsDigit(r[|r| - 1]);
    }
  }
}
