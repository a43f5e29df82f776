/** The URL-safe base 64 encoding of RFC 4648, section 5, without padding. */
module Base64Url {
  import opened Wrappers
  import Sequences

  type Byte = b: nat | b < 256

  type Sextet = v: nat | v < 64

  // ---- The alphabet ------------------------------------------------------------------------

  predicate IsDigit(c: char) {
    'A' <= c <= 'Z' || 'a' <= c <= 'z' || '0' <= c <= '9' || c == '-' || c == '_'
  }

  function DigitOf(v: Sextet): (c: char)
    ensures IsDigit(c)
  {
    if v < 26 then ('A' as int + v) as char
    else if v < 52 then ('a' as int + v - 26) as char
    else if v < 62 then ('0' as int + v - 52) as char
    else if v == 62 then '-' else '_'
  }

  function ValueOf(c: char): Sextet
    requires IsDigit(c)
  {
    if 'A' <= c <= 'Z' then c as int - 'A' as int
    else if 'a' <= c <= 'z' then c as int - 'a' as int + 26
    else if '0' <= c <= '9' then c as int - '0' as int + 52
    else if c == '-' then 62 else 63
  }

  predicate AllDigits(text: string) {
    forall i | 0 <= i < |text| :: IsDigit(text[i])
  }

  function Digits(values: seq<Sextet>): (text: string)
    ensures |text| == |values| && AllDigits(text)
  {
    seq(|values|, i requires 0 <= i < |values| => DigitOf(values[i]))
  }

  function Values(text: string): (values: seq<Sextet>)
    requires AllDigits(text)
    ensures |values| == |text|
  {
    seq(|text|, i requires 0 <= i < |text| => ValueOf(text[i]))
  }

  lemma AlphabetIsOneToOne(values: seq<Sextet>, text: string)
    requires AllDigits(text)
    ensures Values(Digits(values)) == values && Digits(Values(text)) == text
  {
    forall i | 0 <= i < |values|
      ensures ValueOf(DigitOf(values[i])) == values[i]
    {}
    forall i | 0 <= i < |text|
      ensures DigitOf(ValueOf(text[i])) == text[i]
    {}
  }

  // ---- Groups of bits ----------------------------------------------------------------------

  function Sextets(bytes: seq<Byte>): seq<Sextet> {
    if bytes == [] then []
    else if |bytes| == 1 then [bytes[0] / 4, bytes[0] % 4 * 16]
    else if |bytes| == 2 then [bytes[0] / 4, bytes[0] % 4 * 16 + bytes[1] / 16, bytes[1] % 16 * 4]
    else
      [bytes[0] / 4, bytes[0] % 4 * 16 + bytes[1] / 16, bytes[1] % 16 * 4 + bytes[2] / 64, bytes[2] % 64]
      + Sextets(bytes[3..])
  }

  /** A single sextet left over holds no byte. */
  function Octets(values: seq<Sextet>): Option<seq<Byte>> {
    if values == [] then Some([])
    else if |values| == 1 then None
    else if |values| == 2 then Some(One(values[0], values[1]))
    else if |values| == 3 then Some(Two(values[0], values[1], values[2]))
    else
      var rest := Octets(values[4..]);
      if rest.None? then None
      else Some(Three(values[0], values[1], values[2], values[3]) + rest.value)
  }

  function One(a: Sextet, b: Sextet): (bytes: seq<Byte>)
    ensures |bytes| == 1
  {
    [a * 4 + b / 16]
  }

  function Two(a: Sextet, b: Sextet, c: Sextet): (bytes: seq<Byte>)
    ensures |bytes| == 2
  {
    [a * 4 + b / 16, b % 16 * 16 + c / 4]
  }

  function Three(a: Sextet, b: Sextet, c: Sextet, d: Sextet): (bytes: seq<Byte>)
    ensures |bytes| == 3
  {
    [a * 4 + b / 16, b % 16 * 16 + c / 4, c % 4 * 64 + d]
  }

  lemma ThreeBytesReturn(x: Byte, y: Byte, z: Byte)
    ensures Three(x / 4, x % 4 * 16 + y / 16, y % 16 * 4 + z / 64, z % 64) == [x, y, z]
    ensures Two(x / 4, x % 4 * 16 + y / 16, y % 16 * 4) == [x, y]
    ensures One(x / 4, x % 4 * 16) == [x]
  {
    assert x == x / 4 * 4 + x % 4 && y == y / 16 * 16 + y % 16 && z == z / 64 * 64 + z % 64;
    assert (x % 4 * 16 + y / 16) / 16 == x % 4 && (x % 4 * 16 + y / 16) % 16 == y / 16;
    assert (y % 16 * 4 + z / 64) / 4 == y % 16 && (y % 16 * 4 + z / 64) % 4 == z / 64;
  }

  lemma {:induction false} OctetsOfSextets(bytes: seq<Byte>)
    ensures Octets(Sextets(bytes)) == Some(bytes)
  {
    hide One, Two, Three;
    if |bytes| >= 3 {
      OctetsOfSextets(bytes[3..]);
      assert Sextets(bytes)[4..] == Sextets(bytes[3..]);
      ThreeBytesReturn(bytes[0], bytes[1], bytes[2]);
      assert bytes == [bytes[0], bytes[1], bytes[2]] + bytes[3..];
    } else if |bytes| == 2 {
      ThreeBytesReturn(bytes[0], bytes[1], 0);
      assert bytes == [bytes[0], bytes[1]];
    } else if |bytes| == 1 {
      ThreeBytesReturn(bytes[0], 0, 0);
      assert bytes == [bytes[0]];
    } else {
      assert bytes == [];
    }
  }

  /** The unused bits of the last sextet are zero. */
  predicate IsCanonical(values: seq<Sextet>) {
    if |values| % 4 == 2 then values[|values| - 1] % 16 == 0
    else if |values| % 4 == 3 then values[|values| - 1] % 4 == 0
    else |values| % 4 == 0
  }

  lemma Regroup(a: Sextet, b: Sextet, c: Sextet, d: Sextet)
    ensures Sextets(Three(a, b, c, d)) == [a, b, c, d]
  {
    var bytes := Three(a, b, c, d);
    assert bytes[0] / 4 == a && bytes[0] % 4 == b / 16;
    assert bytes[1] / 16 == b % 16 && bytes[1] % 16 == c / 4;
    assert bytes[2] / 64 == c % 4 && bytes[2] % 64 == d;
    assert Sextets(bytes[3..]) == [];
  }

  lemma SextetsOfThree(bytes: seq<Byte>, rest: seq<Byte>)
    requires |bytes| == 3
    ensures Sextets(bytes + rest) == Sextets(bytes) + Sextets(rest)
  {
    assert (bytes + rest)[3..] == rest;
    assert bytes[3..] == [];
  }

  lemma {:induction false} SextetsOfOctets(values: seq<Sextet>)
    requires Octets(values).Some?
    ensures Sextets(Octets(values).value) == values <==> IsCanonical(values)
  {
    if |values| >= 4 {
      SextetsOfOctets(values[4..]);
      FirstFour(values);
      CanonicalTail(values);
    } else if |values| == 3 {
      ThreeSextets(values);
    } else if |values| == 2 {
      TwoSextets(values);
    }
  }

  lemma CanonicalTail(values: seq<Sextet>)
    requires |values| >= 4
    ensures IsCanonical(values) <==> IsCanonical(values[4..])
  {
    if |values| > 4 {
      assert values[4..][|values| - 5] == values[|values| - 1];
    }
  }

  lemma FirstFour(values: seq<Sextet>)
    requires |values| >= 4 && Octets(values).Some?
    ensures Octets(values[4..]).Some?
    ensures Sextets(Octets(values).value) == values <==> Sextets(Octets(values[4..]).value) == values[4..]
  {
    var rest := values[4..];
    Regroup(values[0], values[1], values[2], values[3]);
    SextetsOfThree(Three(values[0], values[1], values[2], values[3]), Octets(rest).value);
    assert values[..4] == [values[0], values[1], values[2], values[3]];
    Sequences.SameTail(values[..4], Sextets(Octets(rest).value), rest);
    assert values == values[..4] + rest;
  }

  lemma OneBack(a: Sextet, b: Sextet)
    ensures Sextets(One(a, b)) == [a, b - b % 16]
  {
    var x := One(a, b)[0];
    assert x / 4 == a && x % 4 == b / 16;
    assert b == b / 16 * 16 + b % 16;
  }

  lemma TwoBack(a: Sextet, b: Sextet, c: Sextet)
    ensures Sextets(Two(a, b, c)) == [a, b, c - c % 4]
  {
    var x, y := Two(a, b, c)[0], Two(a, b, c)[1];
    assert x / 4 == a && x % 4 == b / 16;
    assert y / 16 == b % 16 && y % 16 == c / 4;
    assert b == b / 16 * 16 + b % 16 && c == c / 4 * 4 + c % 4;
  }

  lemma TwoSextets(values: seq<Sextet>)
    requires |values| == 2
    ensures Octets(values).Some? && (Sextets(Octets(values).value) == values <==> values[1] % 16 == 0)
  {
    OneBack(values[0], values[1]);
    assert Octets(values) == Some(One(values[0], values[1]));
    var again := Sextets(Octets(values).value);
    assert again[0] == values[0] && again[1] == values[1] - values[1] % 16;
  }

  lemma ThreeSextets(values: seq<Sextet>)
    requires |values| == 3
    ensures Octets(values).Some? && (Sextets(Octets(values).value) == values <==> values[2] % 4 == 0)
  {
    TwoBack(values[0], values[1], values[2]);
    assert Octets(values) == Some(Two(values[0], values[1], values[2]));
    var again := Sextets(Octets(values).value);
    assert again[0] == values[0] && again[1] == values[1] && again[2] == values[2] - values[2] % 4;
  }

  // ---- The codec ---------------------------------------------------------------------------

  function Encode(bytes: seq<Byte>): (text: string)
    ensures AllDigits(text)
  {
    Digits(Sextets(bytes))
  }

  function Decode(text: string): Option<seq<Byte>> {
    if AllDigits(text) then Octets(Values(text)) else None
  }

  /** The alphabet of RFC 4648, section 5, in order. */
  lemma AlphabetIs(v: Sextet)
    ensures DigitOf(0) == 'A' && DigitOf(25) == 'Z' && DigitOf(26) == 'a' && DigitOf(51) == 'z'
    ensures DigitOf(52) == '0' && DigitOf(61) == '9' && DigitOf(62) == '-' && DigitOf(63) == '_'
    ensures v < 61 && v != 25 && v != 51 ==> DigitOf(v + 1) as int == DigitOf(v) as int + 1
  {}

  /** Three bytes are four digits of the same number, and one or two left over the leading digits of theirs. */
  lemma EncodeByThrees(a: Byte, b: Byte, c: Byte, rest: seq<Byte>)
    ensures Encode([a, b, c] + rest) == Encode([a, b, c]) + Encode(rest)
    ensures var s := Values(Encode([a, b, c]));
            && |s| == 4
            && s[0] as int * 262_144 + s[1] as int * 4_096 + s[2] as int * 64 + s[3] as int
               == a as int * 65_536 + b as int * 256 + c as int
    ensures var s := Values(Encode([a, b]));
            && |s| == 3
            && s[0] as int * 4_096 + s[1] as int * 64 + s[2] as int == (a as int * 256 + b as int) * 4
    ensures var s := Values(Encode([a])); |s| == 2 && s[0] as int * 64 + s[1] as int == a as int * 16
    ensures Encode([]) == ""
  {
    SextetsOfThree([a, b, c], rest);
    assert [a, b, c][3..] == [];
    AlphabetIsOneToOne(Sextets([a, b, c]), Encode([a, b, c]));
    AlphabetIsOneToOne(Sextets([a, b]), Encode([a, b]));
    AlphabetIsOneToOne(Sextets([a]), Encode([a]));
    BytesSplit(a, b, c);
  }

  lemma BytesSplit(a: nat, b: nat, c: nat)
    ensures a / 4 * 262_144 + (a % 4 * 16 + b / 16) * 4_096 + (b % 16 * 4 + c / 64) * 64 + c % 64
         == a * 65_536 + b * 256 + c
    ensures a / 4 * 4_096 + (a % 4 * 16 + b / 16) * 64 + b % 16 * 4 == (a * 256 + b) * 4
    ensures a / 4 * 64 + a % 4 * 16 == a * 16
  {}

  lemma DecodeOfEncode(bytes: seq<Byte>)
    ensures Decode(Encode(bytes)) == Some(bytes)
  {
    AlphabetIsOneToOne(Sextets(bytes), Encode(bytes));
    OctetsOfSextets(bytes);
  }

  /** A decodable text is an encoding exactly when its unused bits are zero. */
  lemma EncodeOfDecode(text: string)
    requires Decode(text).Some?
    ensures Encode(Decode(text).value) == text <==> IsCanonical(Values(text))
  {
    SextetsOfOctets(Values(text));
    AlphabetIsOneToOne(Sextets(Decode(text).value), text);
  }
}
