/**
 The fixed-offset decoder of CCTP V2 burn messages. A message is the sequence of its
 hexadecimal digits after `0x`, so letter case plays no part and an odd length is possible.
 keccak256 is represented by the message itself, which makes message hashes injective.
 */
module CctpMessages {
  import opened Wrappers

  type Digit = d: nat | d < 16
  type Hex = seq<Digit>

  const HEADER_LENGTH: nat := 148
  const BURN_BODY_LENGTH: nat := 228

  /** Addresses are the last 40 digits of their 32-byte words. */
  datatype Decoded = Decoded(
    version: nat,
    sourceDomain: nat,
    destinationDomain: nat,
    nonce: Hex,
    sender: Hex,
    recipient: Hex,
    destinationCaller: Hex,
    minFinalityThreshold: nat,
    finalityThresholdExecuted: nat,
    burnVersion: nat,
    burnToken: Hex,
    mintRecipient: Hex,
    amount: nat,
    messageSender: Hex,
    maxFee: nat,
    feeExecuted: nat,
    expirationBlock: nat)

  function Number(digits: Hex): nat {
    if digits == [] then 0 else 16 * Number(digits[..|digits| - 1]) + digits[|digits| - 1]
  }

  function SliceBytes(message: Hex, offset: nat, length: nat): (r: Hex)
    requires 2 * (offset + length) <= |message|
    ensures |r| == 2 * length
  {
    message[2 * offset..2 * (offset + length)]
  }

  function ReadNumber(message: Hex, offset: nat, length: nat): nat
    requires 2 * (offset + length) <= |message|
  {
    Number(SliceBytes(message, offset, length))
  }

  function AddressOfWord(word: Hex): (r: Hex)
    requires |word| == 64
    ensures |r| == 40
  {
    word[24..]
  }

  function ReadAddress(message: Hex, offset: nat): (r: Hex)
    requires 2 * (offset + 32) <= |message|
    ensures |r| == 40
  {
    AddressOfWord(SliceBytes(message, offset, 32))
  }

  function Zeros(count: nat): (r: Hex)
    ensures |r| == count && forall i | 0 <= i < count :: r[i] == 0
  {
    seq(count, _ => 0 as Digit)
  }

  function AddressToBytes32(address: Hex): (r: Hex)
    requires |address| == 40
    ensures |r| == 64
  {
    Zeros(24) + address
  }

  predicate IsComplete(message: Hex) {
    2 * (HEADER_LENGTH + BURN_BODY_LENGTH) <= |message|
  }

  function DecodeCctpV2Message(message: Hex): Option<Decoded> {
    if !IsComplete(message) then None
    else
      var body := HEADER_LENGTH;
      Some(Decoded(
             ReadNumber(message, 0, 4),
             ReadNumber(message, 4, 4),
             ReadNumber(message, 8, 4),
             SliceBytes(message, 12, 32),
             ReadAddress(message, 44),
             ReadAddress(message, 76),
             ReadAddress(message, 108),
             ReadNumber(message, 140, 4),
             ReadNumber(message, 144, 4),
             ReadNumber(message, body, 4),
             ReadAddress(message, body + 4),
             ReadAddress(message, body + 36),
             ReadNumber(message, body + 68, 32),
             ReadAddress(message, body + 100),
             ReadNumber(message, body + 132, 32),
             ReadNumber(message, body + 164, 32),
             ReadNumber(message, body + 196, 32)))
  }

  /** The burn message carried by MessageReceived, without the header. */
  function CctpMessageBody(message: Hex): Option<Hex> {
    if IsComplete(message) then Some(message[2 * HEADER_LENGTH..]) else None
  }

  // ---- Fixed-width numerals --------------------------------------------------------------

  function Power16(width: nat): (p: nat)
    ensures p >= 1
  {
    if width == 0 then 1 else 16 * Power16(width - 1)
  }

  function Numeral(n: nat, width: nat): (r: Hex)
    requires n < Power16(width)
    ensures |r| == width
  {
    if width == 0 then [] else Numeral(n / 16, width - 1) + [n % 16]
  }

  lemma {:induction false} NumberOfNumeral(n: nat, width: nat)
    requires n < Power16(width)
    ensures Number(Numeral(n, width)) == n
  {
    if width > 0 {
      var r := Numeral(n, width);
      assert r[..width - 1] == Numeral(n / 16, width - 1);
      NumberOfNumeral(n / 16, width - 1);
    }
  }

  lemma {:induction false} NumeralOfNumber(digits: Hex)
    ensures Number(digits) < Power16(|digits|)
    ensures Numeral(Number(digits), |digits|) == digits
  {
    if digits != [] {
      NumeralOfNumber(digits[..|digits| - 1]);
      assert digits == digits[..|digits| - 1] + [digits[|digits| - 1]];
    }
  }

  // ---- The layout --------------------------------------------------------------------------

  const WIDTHS: seq<nat> := [4, 4, 4, 32, 32, 32, 32, 4, 4, 4, 32, 32, 32, 32, 32, 32, 32]

  const OFFSETS: seq<nat> := [0, 4, 8, 12, 44, 76, 108, 140, 144, 148, 152, 184, 216, 248, 280, 312, 344, 376]

  /** The fields cover bytes 0 to 375, each byte exactly once. */
  lemma FieldsTileTheMessage(byte: nat)
    requires byte < HEADER_LENGTH + BURN_BODY_LENGTH
    ensures exists k :: 0 <= k < |WIDTHS| && OFFSETS[k] <= byte < OFFSETS[k] + WIDTHS[k]
    ensures forall j, k :: (&& 0 <= j < |WIDTHS| && 0 <= k < |WIDTHS|
                            && OFFSETS[j] <= byte < OFFSETS[j] + WIDTHS[j]
                            && OFFSETS[k] <= byte < OFFSETS[k] + WIDTHS[k]) ==> j == k
  {
    forall j, k | 0 <= j < k < |WIDTHS|
      ensures OFFSETS[j] + WIDTHS[j] <= OFFSETS[k]
    {
      FieldsFollow(j, k);
    }
    var k := FieldOf(byte, |WIDTHS|);
  }

  lemma {:induction false} FieldsFollow(j: nat, k: nat)
    requires j < k <= |WIDTHS|
    ensures OFFSETS[j] + WIDTHS[j] <= OFFSETS[k]
  {
    if j + 1 < k {
      FieldsFollow(j, k - 1);
    }
  }

  lemma {:induction false} FieldOf(byte: nat, upTo: nat) returns (k: nat)
    requires 0 < upTo <= |WIDTHS| && byte < OFFSETS[upTo]
    ensures k < upTo && OFFSETS[k] <= byte < OFFSETS[k] + WIDTHS[k]
  {
    if OFFSETS[upTo - 1] <= byte {
      k := upTo - 1;
    } else {
      k := FieldOf(byte, upTo - 1);
    }
  }

  function Concat(parts: seq<Hex>): Hex {
    if parts == [] then [] else Concat(parts[..|parts| - 1]) + parts[|parts| - 1]
  }

  /** Parts that fill the gaps between consecutive byte offsets. */
  ghost predicate Fits(parts: seq<Hex>, offsets: seq<nat>) {
    && |parts| < |offsets| && offsets[0] == 0
    && forall k | 0 <= k < |parts| :: 2 * offsets[k] + |parts[k]| == 2 * offsets[k + 1]
  }

  lemma {:induction false} ConcatLength(parts: seq<Hex>, offsets: seq<nat>)
    requires Fits(parts, offsets)
    ensures |Concat(parts)| == 2 * offsets[|parts|]
  {
    if parts != [] {
      ConcatLength(parts[..|parts| - 1], offsets);
    }
  }

  /** Laid out one after another, each part stands at its offset. */
  lemma {:induction false} PartAtOffset(parts: seq<Hex>, offsets: seq<nat>, tail: Hex, k: nat)
    requires Fits(parts, offsets) && k < |parts|
    ensures offsets[k] <= offsets[k + 1] && 2 * offsets[k + 1] <= |Concat(parts) + tail|
    ensures (Concat(parts) + tail)[2 * offsets[k]..2 * offsets[k + 1]] == parts[k]
  {
    var n := |parts| - 1;
    ConcatLength(parts, offsets);
    ConcatLength(parts[..n], offsets);
    assert Concat(parts) == Concat(parts[..n]) + parts[n];
    if k < n {
      PartAtOffset(parts[..n], offsets, parts[n] + tail, k);
      assert Concat(parts[..n]) + (parts[n] + tail) == Concat(parts) + tail;
    }
  }

  ghost predicate Ascending(offsets: seq<nat>) {
    && |offsets| > 0 && offsets[0] == 0
    && forall k | 0 <= k < |offsets| - 1 :: offsets[k] <= offsets[k + 1]
  }

  ghost function Cut(message: Hex, offsets: seq<nat>): (parts: seq<Hex>)
    requires Ascending(offsets) && 2 * offsets[|offsets| - 1] <= |message|
    ensures |parts| == |offsets| - 1
    decreases |offsets|
  {
    var n := |offsets| - 1;
    if n == 0 then []
    else
      assert offsets[n - 1] <= offsets[n - 1 + 1];
      Cut(message, offsets[..n]) + [message[2 * offsets[n - 1]..2 * offsets[n]]]
  }

  lemma {:induction false} CutFits(message: Hex, offsets: seq<nat>)
    requires Ascending(offsets) && 2 * offsets[|offsets| - 1] <= |message|
    ensures Fits(Cut(message, offsets), offsets)
    decreases |offsets|
  {
    var n := |offsets| - 1;
    if n > 0 {
      assert offsets[n - 1] <= offsets[n - 1 + 1];
      CutFits(message, offsets[..n]);
    }
  }

  lemma CutStep(message: Hex, offsets: seq<nat>)
    requires Ascending(offsets) && 2 * offsets[|offsets| - 1] <= |message| && |offsets| > 1
    ensures var n := |offsets| - 1;
            && Ascending(offsets[..n]) && offsets[n - 1] <= offsets[n]
            && Cut(message, offsets)
            == Cut(message, offsets[..n]) + [message[2 * offsets[n - 1]..2 * offsets[n]]]
  {
    var n := |offsets| - 1;
    assert offsets[n - 1] <= offsets[n - 1 + 1];
  }

  lemma ConcatStep(parts: seq<Hex>, last: Hex)
    ensures Concat(parts + [last]) == Concat(parts) + last
  {
    assert (parts + [last])[..|parts|] == parts;
  }

  /** Cutting a message at the offsets and joining the pieces gives back its first bytes. */
  lemma {:induction false} CutRebuilds(message: Hex, offsets: seq<nat>)
    requires Ascending(offsets) && 2 * offsets[|offsets| - 1] <= |message|
    ensures Concat(Cut(message, offsets)) == message[..2 * offsets[|offsets| - 1]]
    decreases |offsets|
  {
    var n := |offsets| - 1;
    if n > 0 {
      CutStep(message, offsets);
      ConcatStep(Cut(message, offsets[..n]), message[2 * offsets[n - 1]..2 * offsets[n]]);
      CutRebuilds(message, offsets[..n]);
      assert message[..2 * offsets[n]] == message[..2 * offsets[n - 1]] + message[2 * offsets[n - 1]..2 * offsets[n]];
    }
  }

  lemma {:induction false} CutAt(message: Hex, offsets: seq<nat>, k: nat)
    requires Ascending(offsets) && 2 * offsets[|offsets| - 1] <= |message| && k < |offsets| - 1
    ensures offsets[k] <= offsets[k + 1] && 2 * offsets[k + 1] <= |message|
    ensures Cut(message, offsets)[k] == message[2 * offsets[k]..2 * offsets[k + 1]]
    decreases |offsets|
  {
    CutStep(message, offsets);
    var n := |offsets| - 1;
    if k < n - 1 {
      CutAt(message, offsets[..n], k);
    }
  }

  lemma {:induction false} ConcatInjective(left: seq<Hex>, right: seq<Hex>, offsets: seq<nat>)
    requires Fits(left, offsets) && Fits(right, offsets) && |left| == |right|
    requires Concat(left) == Concat(right)
    ensures left == right
  {
    forall k | 0 <= k < |left|
      ensures left[k] == right[k]
    {
      PartAtOffset(left, offsets, [], k);
      PartAtOffset(right, offsets, [], k);
    }
  }

  /** The first digit counts most. */
  lemma {:induction false} NumberIsBigEndian(digits: Hex)
    requires digits != []
    ensures Number(digits) == digits[0] * Power16(|digits| - 1) + Number(digits[1..])
  {
    var n := |digits| - 1;
    if n > 0 {
      var rest := digits[..n];
      NumberIsBigEndian(rest);
      assert Number(digits[1..]) == 16 * Number(rest[1..]) + digits[n] by {
        assert digits[1..][..n - 1] == rest[1..];
      }
      assert 16 * (digits[0] * Power16(n - 1)) == digits[0] * Power16(n);
    }
  }

  lemma WordOfFourBytes(digits: Hex)
    requires |digits| == 8
    ensures Number(digits) < 0x1_0000_0000
  {
    NumeralOfNumber(digits);
    assert Power16(4) == 16 * 16 * 16 * 16;
    assert Power16(8) == 16 * 16 * 16 * 16 * Power16(4);
  }

  /** Where each field stands: digits of header and body, numbers of four bytes below 2^32. */
  lemma FieldsStandAt(message: Hex)
    ensures DecodeCctpV2Message(message).Some? <==> 752 <= |message|
    ensures CctpMessageBody(message) == if 752 <= |message| then Some(message[296..]) else None
    ensures 752 <= |message| ==>
              var d := DecodeCctpV2Message(message).value;
              && d.version == Number(message[0..8]) < 0x1_0000_0000
              && d.sourceDomain == Number(message[8..16]) < 0x1_0000_0000
              && d.destinationDomain == Number(message[16..24]) < 0x1_0000_0000
              && d.nonce == message[24..88]
              && d.sender == message[112..152]
              && d.recipient == message[176..216]
              && d.destinationCaller == message[240..280]
              && d.minFinalityThreshold == Number(message[280..288]) < 0x1_0000_0000
              && d.finalityThresholdExecuted == Number(message[288..296]) < 0x1_0000_0000
              && d.burnVersion == Number(message[296..304]) < 0x1_0000_0000
              && d.burnToken == message[328..368]
              && d.mintRecipient == message[392..432]
              && d.amount == Number(message[432..496])
              && d.messageSender == message[520..560]
              && d.maxFee == Number(message[560..624])
              && d.feeExecuted == Number(message[624..688])
              && d.expirationBlock == Number(message[688..752])
  {
    if 752 <= |message| {
      WordOfFourBytes(message[0..8]);
      WordOfFourBytes(message[8..16]);
      WordOfFourBytes(message[16..24]);
      WordOfFourBytes(message[280..288]);
      WordOfFourBytes(message[288..296]);
      WordOfFourBytes(message[296..304]);
    }
  }

  /** A word holds a padded address: twelve zero bytes and then the address. */
  lemma WordOfAddress(word: Hex, address: Hex)
    requires |address| == 40
    ensures word == AddressToBytes32(address)
       <==> |word| == 64 && word[24..] == address && forall i | 0 <= i < 24 :: word[i] == 0
  {
    var padded := AddressToBytes32(address);
    assert padded[24..] == address;
    if |word| == 64 && word[24..] == address && forall i | 0 <= i < 24 :: word[i] == 0 {
      assert forall i | 24 <= i < 64 :: word[i] == word[24..][i - 24] == padded[i];
    }
  }

  // ---- Encoding and the two round trips ----------------------------------------------------

  predicate IsWord(n: nat, bytes: nat) {
    n < Power16(2 * bytes)
  }

  predicate WellFormed(d: Decoded) {
    && IsWord(d.version, 4) && IsWord(d.sourceDomain, 4) && IsWord(d.destinationDomain, 4)
    && |d.nonce| == 64
    && |d.sender| == 40 && |d.recipient| == 40 && |d.destinationCaller| == 40
    && IsWord(d.minFinalityThreshold, 4) && IsWord(d.finalityThresholdExecuted, 4) && IsWord(d.burnVersion, 4)
    && |d.burnToken| == 40 && |d.mintRecipient| == 40 && |d.messageSender| == 40
    && IsWord(d.amount, 32) && IsWord(d.maxFee, 32) && IsWord(d.feeExecuted, 32) && IsWord(d.expirationBlock, 32)
  }

  function Parts(d: Decoded): (parts: seq<Hex>)
    requires WellFormed(d)
    ensures |parts| == |WIDTHS|
  {
    [Numeral(d.version, 8), Numeral(d.sourceDomain, 8), Numeral(d.destinationDomain, 8),
     d.nonce,
     AddressToBytes32(d.sender), AddressToBytes32(d.recipient), AddressToBytes32(d.destinationCaller),
     Numeral(d.minFinalityThreshold, 8), Numeral(d.finalityThresholdExecuted, 8), Numeral(d.burnVersion, 8),
     AddressToBytes32(d.burnToken), AddressToBytes32(d.mintRecipient), Numeral(d.amount, 64),
     AddressToBytes32(d.messageSender),
     Numeral(d.maxFee, 64), Numeral(d.feeExecuted, 64), Numeral(d.expirationBlock, 64)]
  }

  function Encode(d: Decoded): Hex
    requires WellFormed(d)
  {
    Concat(Parts(d))
  }

  lemma PartsFit(d: Decoded)
    requires WellFormed(d)
    ensures Fits(Parts(d), OFFSETS)
  {}

  lemma FieldAt(d: Decoded, hook: Hex, k: nat)
    requires WellFormed(d) && k < |WIDTHS|
    ensures IsComplete(Encode(d) + hook)
    ensures 2 * (OFFSETS[k] + WIDTHS[k]) <= |Encode(d) + hook|
    ensures SliceBytes(Encode(d) + hook, OFFSETS[k], WIDTHS[k]) == Parts(d)[k]
  {
    PartsFit(d);
    ConcatLength(Parts(d), OFFSETS);
    PartAtOffset(Parts(d), OFFSETS, hook, k);
    assert OFFSETS[k] + WIDTHS[k] == OFFSETS[k + 1];
  }

  lemma NumberFieldAt(d: Decoded, hook: Hex, k: nat, offset: nat, length: nat, value: nat)
    requires WellFormed(d) && k < |WIDTHS| && OFFSETS[k] == offset && WIDTHS[k] == length
    requires IsWord(value, length) && Parts(d)[k] == Numeral(value, 2 * length)
    ensures IsComplete(Encode(d) + hook) && 2 * (offset + length) <= |Encode(d) + hook|
    ensures ReadNumber(Encode(d) + hook, offset, length) == value
  {
    FieldAt(d, hook, k);
    NumberOfNumeral(value, 2 * length);
  }

  lemma VersionFields(d: Decoded, hook: Hex)
    requires WellFormed(d)
    ensures IsComplete(Encode(d) + hook)
    ensures var r := DecodeCctpV2Message(Encode(d) + hook).value;
            r.version == d.version && r.burnVersion == d.burnVersion
  {
    NumberFieldAt(d, hook, 0, 0, 4, d.version);
    NumberFieldAt(d, hook, 9, 148, 4, d.burnVersion);
  }

  lemma RouteFields(d: Decoded, hook: Hex)
    requires WellFormed(d)
    ensures IsComplete(Encode(d) + hook)
    ensures var r := DecodeCctpV2Message(Encode(d) + hook).value;
            r.sourceDomain == d.sourceDomain && r.destinationDomain == d.destinationDomain
  {
    NumberFieldAt(d, hook, 1, 4, 4, d.sourceDomain);
    NumberFieldAt(d, hook, 2, 8, 4, d.destinationDomain);
  }

  lemma NonceField(d: Decoded, hook: Hex)
    requires WellFormed(d)
    ensures IsComplete(Encode(d) + hook)
    ensures DecodeCctpV2Message(Encode(d) + hook).value.nonce == d.nonce
  {
    FieldAt(d, hook, 3);
  }

  lemma FinalityFields(d: Decoded, hook: Hex)
    requires WellFormed(d)
    ensures IsComplete(Encode(d) + hook)
    ensures var r := DecodeCctpV2Message(Encode(d) + hook).value;
            && r.minFinalityThreshold == d.minFinalityThreshold
            && r.finalityThresholdExecuted == d.finalityThresholdExecuted
  {
    NumberFieldAt(d, hook, 7, 140, 4, d.minFinalityThreshold);
    NumberFieldAt(d, hook, 8, 144, 4, d.finalityThresholdExecuted);
  }

  lemma AddressFields(d: Decoded, hook: Hex)
    requires WellFormed(d)
    ensures IsComplete(Encode(d) + hook)
    ensures var r := DecodeCctpV2Message(Encode(d) + hook).value;
            && r.sender == d.sender && r.recipient == d.recipient && r.destinationCaller == d.destinationCaller
            && r.burnToken == d.burnToken && r.mintRecipient == d.mintRecipient
            && r.messageSender == d.messageSender
  {
    FieldAt(d, hook, 4); FieldAt(d, hook, 5); FieldAt(d, hook, 6);
    FieldAt(d, hook, 10); FieldAt(d, hook, 11); FieldAt(d, hook, 13);
  }

  lemma AmountFields(d: Decoded, hook: Hex)
    requires WellFormed(d)
    ensures IsComplete(Encode(d) + hook)
    ensures var r := DecodeCctpV2Message(Encode(d) + hook).value;
            && r.amount == d.amount && r.maxFee == d.maxFee
  {
    NumberFieldAt(d, hook, 12, 216, 32, d.amount);
    NumberFieldAt(d, hook, 14, 280, 32, d.maxFee);
  }

  lemma FeeFields(d: Decoded, hook: Hex)
    requires WellFormed(d)
    ensures IsComplete(Encode(d) + hook)
    ensures var r := DecodeCctpV2Message(Encode(d) + hook).value;
            && r.feeExecuted == d.feeExecuted && r.expirationBlock == d.expirationBlock
  {
    NumberFieldAt(d, hook, 15, 312, 32, d.feeExecuted);
    NumberFieldAt(d, hook, 16, 344, 32, d.expirationBlock);
  }

  /** Decoding a message that was laid out from fields returns those fields, whatever hook data follows. */
  lemma DecodeOfEncode(d: Decoded, hook: Hex)
    requires WellFormed(d)
    ensures DecodeCctpV2Message(Encode(d) + hook) == Some(d)
  {
    VersionFields(d, hook);
    RouteFields(d, hook);
    NonceField(d, hook);
    FinalityFields(d, hook);
    AddressFields(d, hook);
    AmountFields(d, hook);
    FeeFields(d, hook);
  }

  /**
   Padding and reading an address are inverse: reading back a padded address gives the address,
   and padding what was read from a word gives the word exactly if its top twelve bytes are zero.
   */
  lemma AddressReadIsInvertible(word: Hex, address: Hex)
    requires |word| == 64 && |address| == 40
    ensures AddressOfWord(AddressToBytes32(address)) == address
    ensures AddressToBytes32(AddressOfWord(word)) == word <==> (forall i | 0 <= i < 24 :: word[i] == 0)
  {
    var back := AddressToBytes32(AddressOfWord(word));
    assert forall i | 24 <= i < 64 :: back[i] == word[i];
    assert forall i | 0 <= i < 24 :: back[i] == 0;
  }

  predicate HasCleanWord(message: Hex, offset: nat)
    requires 2 * (offset + 32) <= |message|
  {
    forall i | 0 <= i < 24 :: SliceBytes(message, offset, 32)[i] == 0
  }

  /** The six words of a message that hold addresses have zero top bytes. */
  predicate HasCleanAddresses(message: Hex)
    requires IsComplete(message)
  {
    && HasCleanWord(message, 44) && HasCleanWord(message, 76) && HasCleanWord(message, 108)
    && HasCleanWord(message, 152) && HasCleanWord(message, 184) && HasCleanWord(message, 248)
  }

  lemma DecodedIsWellFormed(message: Hex)
    requires IsComplete(message)
    ensures WellFormed(DecodeCctpV2Message(message).value)
  {
    var m := message;
    NumeralOfNumber(SliceBytes(m, 0, 4));
    NumeralOfNumber(SliceBytes(m, 4, 4));
    NumeralOfNumber(SliceBytes(m, 8, 4));
    NumeralOfNumber(SliceBytes(m, 140, 4));
    NumeralOfNumber(SliceBytes(m, 144, 4));
    NumeralOfNumber(SliceBytes(m, 148, 4));
    NumeralOfNumber(SliceBytes(m, 216, 32));
    NumeralOfNumber(SliceBytes(m, 280, 32));
    NumeralOfNumber(SliceBytes(m, 312, 32));
    NumeralOfNumber(SliceBytes(m, 344, 32));
  }

  // Part by part, encoding what was decoded gives back the slice; for the six address words
  // only when the top bytes are zero.

  predicate IsAddressField(k: nat) {
    k == 4 || k == 5 || k == 6 || k == 10 || k == 11 || k == 13
  }

  lemma NumberPart(message: Hex, offset: nat, length: nat)
    requires 2 * (offset + length) <= |message|
    ensures IsWord(ReadNumber(message, offset, length), length)
    ensures Numeral(ReadNumber(message, offset, length), 2 * length) == SliceBytes(message, offset, length)
  {
    NumeralOfNumber(SliceBytes(message, offset, length));
  }

  lemma AddressPart(message: Hex, offset: nat)
    requires 2 * (offset + 32) <= |message|
    ensures AddressToBytes32(ReadAddress(message, offset)) == SliceBytes(message, offset, 32)
        <==> HasCleanWord(message, offset)
  {
    AddressReadIsInvertible(SliceBytes(message, offset, 32), ReadAddress(message, offset));
  }

  lemma NumberFieldsReturn(message: Hex, k: nat)
    requires IsComplete(message) && k < |WIDTHS| && !IsAddressField(k)
    ensures WellFormed(DecodeCctpV2Message(message).value)
    ensures Parts(DecodeCctpV2Message(message).value)[k] == SliceBytes(message, OFFSETS[k], WIDTHS[k])
  {
    DecodedIsWellFormed(message);
    if k != 3 {
      NumberPart(message, OFFSETS[k], WIDTHS[k]);
    }
  }

  /** The six address fields, padded again, are the words they were read from exactly if those words are clean. */
  lemma AddressFieldsReturn(message: Hex)
    requires IsComplete(message)
    ensures var d := DecodeCctpV2Message(message).value;
            && (AddressToBytes32(d.sender) == SliceBytes(message, 44, 32) <==> HasCleanWord(message, 44))
            && (AddressToBytes32(d.recipient) == SliceBytes(message, 76, 32) <==> HasCleanWord(message, 76))
            && (AddressToBytes32(d.destinationCaller) == SliceBytes(message, 108, 32) <==> HasCleanWord(message, 108))
            && (AddressToBytes32(d.burnToken) == SliceBytes(message, 152, 32) <==> HasCleanWord(message, 152))
            && (AddressToBytes32(d.mintRecipient) == SliceBytes(message, 184, 32) <==> HasCleanWord(message, 184))
            && (AddressToBytes32(d.messageSender) == SliceBytes(message, 248, 32) <==> HasCleanWord(message, 248))
  {
    AddressPart(message, 44);
    AddressPart(message, 76);
    AddressPart(message, 108);
    AddressPart(message, 152);
    AddressPart(message, 184);
    AddressPart(message, 248);
  }

  /** The slices of a message, one for each field. */
  ghost function Slices(message: Hex): (parts: seq<Hex>)
    requires IsComplete(message)
    ensures |parts| == |WIDTHS|
    ensures forall k | 0 <= k < |WIDTHS| :: parts[k] == SliceBytes(message, OFFSETS[k], WIDTHS[k])
  {
    seq(|WIDTHS|, k requires 0 <= k < |WIDTHS| => SliceBytes(message, OFFSETS[k], WIDTHS[k]))
  }

  lemma PartsMatchSlices(message: Hex)
    requires IsComplete(message)
    ensures WellFormed(DecodeCctpV2Message(message).value)
    ensures Parts(DecodeCctpV2Message(message).value) == Slices(message) <==> HasCleanAddresses(message)
  {
    DecodedIsWellFormed(message);
    var parts, slices := Parts(DecodeCctpV2Message(message).value), Slices(message);
    forall k | 0 <= k < |WIDTHS| && !IsAddressField(k)
      ensures parts[k] == slices[k]
    {
      NumberFieldsReturn(message, k);
    }
    AddressFieldsReturn(message);
    assert parts[4] == slices[4] <==> HasCleanWord(message, 44);
    assert parts[5] == slices[5] <==> HasCleanWord(message, 76);
    assert parts[6] == slices[6] <==> HasCleanWord(message, 108);
    assert parts[10] == slices[10] <==> HasCleanWord(message, 152);
    assert parts[11] == slices[11] <==> HasCleanWord(message, 184);
    assert parts[13] == slices[13] <==> HasCleanWord(message, 248);
    if HasCleanAddresses(message) {
      forall k | 0 <= k < |WIDTHS| && IsAddressField(k)
        ensures parts[k] == slices[k]
      {}
    }
  }

  lemma CutOfLayout(message: Hex, k: nat)
    requires IsComplete(message) && k < |WIDTHS|
    ensures Ascending(OFFSETS) && Cut(message, OFFSETS)[k] == Slices(message)[k]
  {
    CutAt(message, OFFSETS, k);
    assert OFFSETS[k] + WIDTHS[k] == OFFSETS[k + 1];
  }

  lemma CutIsSlices(message: Hex)
    requires IsComplete(message)
    ensures Ascending(OFFSETS) && Cut(message, OFFSETS) == Slices(message)
  {
    assert Ascending(OFFSETS);
    var cut, slices := Cut(message, OFFSETS), Slices(message);
    assert |cut| == |slices|;
    forall k | 0 <= k < |slices|
      ensures cut[k] == slices[k]
    {
      CutOfLayout(message, k);
    }
  }

  /**
   The reverse round trip: laying the decoded fields out again gives the first 376 bytes of the
   message exactly when no address word carries anything in its top twelve bytes.
   */
  lemma EncodeOfDecode(message: Hex)
    requires IsComplete(message)
    ensures WellFormed(DecodeCctpV2Message(message).value)
    ensures Encode(DecodeCctpV2Message(message).value) == message[..2 * (HEADER_LENGTH + BURN_BODY_LENGTH)]
        <==> HasCleanAddresses(message)
  {
    PartsMatchSlices(message);
    CutIsSlices(message);
    CutRebuilds(message, OFFSETS);
    CutFits(message, OFFSETS);
    var d := DecodeCctpV2Message(message).value;
    PartsFit(d);
    if Encode(d) == Concat(Slices(message)) {
      ConcatInjective(Parts(d), Slices(message), OFFSETS);
    }
  }

  /** Header and body together are the whole message, and the body alone determines the burn fields. */
  lemma HeaderAndBody(message: Hex, other: Hex)
    requires IsComplete(message) && IsComplete(other)
    ensures message[..2 * HEADER_LENGTH] + CctpMessageBody(message).value == message
    ensures CctpMessageBody(message) == CctpMessageBody(other)
        ==> (var d, e := DecodeCctpV2Message(message).value, DecodeCctpV2Message(other).value;
             d == e.(version := d.version, sourceDomain := d.sourceDomain,
                     destinationDomain := d.destinationDomain, nonce := d.nonce, sender := d.sender,
                     recipient := d.recipient, destinationCaller := d.destinationCaller,
                     minFinalityThreshold := d.minFinalityThreshold,
                     finalityThresholdExecuted := d.finalityThresholdExecuted))
  {
    if CctpMessageBody(message) == CctpMessageBody(other) {
      BodySlice(message, other, 148, 4);
      BodySlice(message, other, 152, 32);
      BodySlice(message, other, 184, 32);
      BodySlice(message, other, 216, 32);
      BodySlice(message, other, 248, 32);
      BodySlice(message, other, 280, 32);
      BodySlice(message, other, 312, 32);
      BodySlice(message, other, 344, 32);
    }
  }

  lemma BodySlice(message: Hex, other: Hex, offset: nat, length: nat)
    requires IsComplete(message) && CctpMessageBody(message) == CctpMessageBody(other)
    requires HEADER_LENGTH <= offset && offset + length <= HEADER_LENGTH + BURN_BODY_LENGTH
    ensures IsComplete(other)
    ensures SliceBytes(message, offset, length) == SliceBytes(other, offset, length)
  {
    var body := message[2 * HEADER_LENGTH..];
    assert body == other[2 * HEADER_LENGTH..] && |message| == |other|;
    forall i | 0 <= i < 2 * length
      ensures SliceBytes(message, offset, length)[i] == SliceBytes(other, offset, length)[i]
    {
      var k := 2 * offset + i;
      assert message[k] == body[k - 2 * HEADER_LENGTH] == other[k];
    }
  }
}
