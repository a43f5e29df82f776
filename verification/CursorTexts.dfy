/**
 The text form of a list cursor: base64url over the JSON object that holds the last row's time
 and id.
 */
module CursorTexts {
  import opened Wrappers
  import Base64Url
  import IsoTimes

  type Time = IsoTimes.Time

  datatype Cursor = Cursor(createdAt: Time, id: string)

  /** Printable ASCII without quote and backslash: what JSON leaves as it is. */
  predicate IsPlain(s: string) {
    forall i | 0 <= i < |s| :: ' ' <= s[i] <= '~' && s[i] != '"' && s[i] != '\\'
  }

  // ---- The JSON text ------------------------------------------------------------------------

  /** The fixed text before, between and after the two values. */
  datatype Frame = Frame(opening: string, between: string, closing: string)

  function CursorFrame(): Frame {
    Frame("{\"createdAt\":\"", "\",\"id\":\"", "\"}")
  }

  predicate StartsWithQuote(s: string) {
    s != [] && s[0] == '"'
  }

  function Framed(f: Frame, first: string, second: string): string {
    f.opening + first + f.between + second + f.closing
  }

  function QuoteAt(s: string): (k: nat)
    ensures k <= |s| && forall i | 0 <= i < k :: s[i] != '"'
    ensures k < |s| ==> s[k] == '"'
  {
    if s == [] || s[0] == '"' then 0 else 1 + QuoteAt(s[1..])
  }

  function Dropped(s: string, prefix: string): Option<string> {
    if prefix <= s then Some(s[|prefix|..]) else None
  }

  /** Takes a framed text apart. */
  function Unframed(f: Frame, text: string): Option<(string, string)> {
    var afterOpening := Dropped(text, f.opening);
    if afterOpening.None? then None
    else
      var k := QuoteAt(afterOpening.value);
      var afterFirst := Dropped(afterOpening.value[k..], f.between);
      if afterFirst.None? then None
      else
        var j := QuoteAt(afterFirst.value);
        if afterFirst.value[j..] == f.closing then Some((afterOpening.value[..k], afterFirst.value[..j])) else None
  }

  lemma {:induction false} QuoteAfterPlain(plain: string, rest: string)
    requires IsPlain(plain) && StartsWithQuote(rest)
    ensures QuoteAt(plain + rest) == |plain|
  {
    if plain != [] {
      QuoteAfterPlain(plain[1..], rest);
      assert (plain + rest)[1..] == plain[1..] + rest;
    } else {
      assert plain + rest == rest;
    }
  }

  lemma DroppedOfConcat(prefix: string, rest: string)
    ensures Dropped(prefix + rest, prefix) == Some(rest)
  {
    assert (prefix + rest)[..|prefix|] == prefix && (prefix + rest)[|prefix|..] == rest;
  }

  lemma CutAtQuote(plain: string, rest: string)
    requires IsPlain(plain) && StartsWithQuote(rest)
    ensures var s := plain + rest; s[..QuoteAt(s)] == plain && s[QuoteAt(s)..] == rest
  {
    QuoteAfterPlain(plain, rest);
  }

  lemma UnframedOfFramed(f: Frame, first: string, second: string)
    requires IsPlain(first) && IsPlain(second) && StartsWithQuote(f.between) && StartsWithQuote(f.closing)
    ensures Unframed(f, Framed(f, first, second)) == Some((first, second))
  {
    var tail := second + f.closing;
    var rest := f.between + tail;
    var body := first + rest;
    assert Framed(f, first, second) == f.opening + body;
    assert StartsWithQuote(rest);
    DroppedOfConcat(f.opening, body);
    CutAtQuote(first, rest);
    DroppedOfConcat(f.between, tail);
    CutAtQuote(second, f.closing);
  }

  // ---- Bytes -------------------------------------------------------------------------------

  predicate IsAscii(text: string) {
    forall i | 0 <= i < |text| :: text[i] as int < 128
  }

  function Bytes(text: string): (bytes: seq<Base64Url.Byte>)
    requires IsAscii(text)
    ensures |bytes| == |text|
  {
    seq(|text|, i requires 0 <= i < |text| => text[i] as int)
  }

  /** Only bytes below 128 stand for themselves. */
  function TextOf(bytes: seq<Base64Url.Byte>): Option<string> {
    if forall i | 0 <= i < |bytes| :: bytes[i] < 128
    then Some(seq(|bytes|, i requires 0 <= i < |bytes| => bytes[i] as char))
    else None
  }

  lemma TextOfBytes(text: string)
    requires IsAscii(text)
    ensures TextOf(Bytes(text)) == Some(text)
  {
    var bytes := Bytes(text);
    assert forall i | 0 <= i < |bytes| :: bytes[i] == text[i] as int;
    assert seq(|bytes|, i requires 0 <= i < |bytes| => bytes[i] as char) == text;
  }

  function EncodeText(text: string): string {
    if IsAscii(text) then Base64Url.Encode(Bytes(text)) else ""
  }

  function DecodeText(value: string): Option<string> {
    var bytes := Base64Url.Decode(value);
    if bytes.None? then None else TextOf(bytes.value)
  }

  lemma DecodeOfEncode(text: string)
    requires IsAscii(text) && text != []
    ensures DecodeText(EncodeText(text)) == Some(text) && EncodeText(text) != []
  {
    Base64Url.DecodeOfEncode(Bytes(text));
    TextOfBytes(text);
  }

  // ---- The codec ---------------------------------------------------------------------------

  function EncodeCursor(c: Cursor): string {
    EncodeText(Framed(CursorFrame(), IsoTimes.Write(c.createdAt), c.id))
  }

  /** Reads texts of the form the list writes; an empty id or an unreadable time is refused. */
  function DecodeCursor(value: string): Option<Cursor> {
    var text := DecodeText(value);
    if text.None? then None
    else
      var values := Unframed(CursorFrame(), text.value);
      if values.None? || values.value.1 == "" || IsoTimes.Read(values.value.0).None? then None
      else Some(Cursor(IsoTimes.Read(values.value.0).value, values.value.1))
  }

  lemma FramedIsAscii(f: Frame, first: string, second: string)
    requires IsAscii(f.opening) && IsAscii(f.between) && IsAscii(f.closing) && IsPlain(first) && IsPlain(second)
    ensures IsAscii(Framed(f, first, second))
  {
    assert IsAscii(first) && IsAscii(second);
  }

  /** A cursor of the list: the time of a Date, and an id that needs no escaping. */
  predicate IsCursor(c: Cursor) {
    IsoTimes.IsDate(c.createdAt) && IsPlain(c.id) && c.id != []
  }

  /** Every cursor the list hands out is read back as itself. */
  lemma CursorSurvives(c: Cursor)
    requires IsCursor(c)
    ensures DecodeCursor(EncodeCursor(c)) == Some(c) && EncodeCursor(c) != ""
  {
    var f, time := CursorFrame(), IsoTimes.Write(c.createdAt);
    hide IsoTimes.Write, IsoTimes.Read, Framed, Unframed, EncodeText, DecodeText;
    IsoTimes.ReadOfWrite(c.createdAt);
    IsoTimes.WriteIsPlain(c.createdAt);
    PlainTime(time);
    FramedIsAscii(f, time, c.id);
    FramedIsNotEmpty(f, time, c.id);
    DecodeOfEncode(Framed(f, time, c.id));
    UnframedOfFramed(f, time, c.id);
  }

  /** The text that a cursor stands for. */
  lemma CursorTextIs(c: Cursor)
    requires IsCursor(c)
    ensures DecodeText(EncodeCursor(c))
         == Some("{\"createdAt\":\"" + IsoTimes.Write(c.createdAt) + "\",\"id\":\"" + c.id + "\"}")
  {
    var f, time := CursorFrame(), IsoTimes.Write(c.createdAt);
    hide IsoTimes.Write, EncodeText, DecodeText;
    IsoTimes.WriteIsPlain(c.createdAt);
    PlainTime(time);
    FramedIsAscii(f, time, c.id);
    FramedIsNotEmpty(f, time, c.id);
    DecodeOfEncode(Framed(f, time, c.id));
  }

  lemma PlainTime(time: string)
    requires IsoTimes.IsTimeText(time)
    ensures IsPlain(time)
  {}

  lemma FramedIsNotEmpty(f: Frame, first: string, second: string)
    requires f.closing != []
    ensures Framed(f, first, second) != []
  {}

  /** A pair of functions that write and read cursors. */
  datatype CursorCodec = CursorCodec(write: Cursor -> string, read: string -> Option<Cursor>)

  ghost predicate IsFaithful(codec: CursorCodec) {
    forall c: Cursor :: IsCursor(c) ==> codec.write(c) != "" && codec.read(codec.write(c)) == Some(c)
  }

  function JsonCodec(): CursorCodec {
    CursorCodec(c => EncodeCursor(c), value => DecodeCursor(value))
  }

  lemma JsonCodecIsFaithful()
    ensures IsFaithful(JsonCodec())
  {
    var codec := JsonCodec();
    forall c: Cursor | IsCursor(c)
      ensures codec.write(c) != "" && codec.read(codec.write(c)) == Some(c)
    {
      CursorSurvives(c);
    }
  }
}
