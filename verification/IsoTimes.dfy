/**
 How `toISOString` writes a time and how `new Date` reads that text back: the proleptic Gregorian
 date in UTC, with a signed six-digit year outside the years 0 to 9999.
 */
module IsoTimes {
  import opened Wrappers
  import opened Text
  import opened Arithmetic
  import opened BatchReferences

  type Time = int

  const MS_PER_DAY := 86_400_000
  const MAX_TIME := 8_640_000_000_000_000

  /** The times a Date can hold. */
  predicate IsDate(t: Time) {
    -MAX_TIME <= t <= MAX_TIME
  }

  // ---- The calendar ------------------------------------------------------------------------

  const DAYS_PER_ERA := 146_097
  const YEARS_PER_ERA := 400

  /** Days from the first day of year 0 to the first day of 1970. */
  const EPOCH_DAY := 719_528

  predicate IsLeap(year: int) {
    year % 4 == 0 && (year % 100 != 0 || year % 400 == 0)
  }

  function YearLength(year: int): nat {
    if IsLeap(year) then 366 else 365
  }

  /** Days of an era of 400 years before one of its years. */
  function DaysBeforeYear(y: nat): nat {
    if y == 0 then 0 else DaysBeforeYear(y - 1) + YearLength(y - 1)
  }

  /** The ceiling of a quotient steps up after each multiple. */
  lemma CeilingStep(y: nat, d: nat)
    requires d > 1
    ensures (y + d) / d == (y + (d - 1)) / d + (if y % d == 0 then 1 else 0)
  {
    var q, r := y / d, y % d;
    assert y == q * d + r;
    assert (q + 1) * d == q * d + d;
    RemainderIs(y + d, q + 1, d, r);
    if r == 0 {
      RemainderIs(y + (d - 1), q, d, d - 1);
    } else {
      RemainderIs(y + (d - 1), q + 1, d, r - 1);
    }
  }

  lemma CenturiesAreFourths(y: nat)
    ensures y % 400 == 0 ==> y % 100 == 0
    ensures y % 100 == 0 ==> y % 4 == 0
  {
    if y % 100 == 0 {
      assert y == 4 * (25 * (y / 100));
    }
    if y % 400 == 0 {
      assert y == 100 * (4 * (y / 400));
    }
  }

  lemma {:induction false} DaysBeforeYearIs(y: nat)
    ensures DaysBeforeYear(y) == 365 * y + (y + 3) / 4 - (y + 99) / 100 + (y + 399) / 400
  {
    if y > 0 {
      DaysBeforeYearIs(y - 1);
      CeilingStep(y - 1, 4);
      CeilingStep(y - 1, 100);
      CeilingStep(y - 1, 400);
      CenturiesAreFourths(y - 1);
      assert DaysBeforeYear(y) == DaysBeforeYear(y - 1) + YearLength(y - 1);
    }
  }

  lemma EraLength()
    ensures DaysBeforeYear(YEARS_PER_ERA) == DAYS_PER_ERA
  {
    DaysBeforeYearIs(YEARS_PER_ERA);
  }

  function YearOf(day: nat, y: nat): (r: nat)
    requires y < YEARS_PER_ERA && DaysBeforeYear(y) <= day < DAYS_PER_ERA
    ensures r < YEARS_PER_ERA && DaysBeforeYear(r) <= day < DaysBeforeYear(r + 1)
    decreases YEARS_PER_ERA - y
  {
    EraLength();
    if day < DaysBeforeYear(y + 1) then y else YearOf(day, y + 1)
  }

  /** Months count from 0. */
  function MonthLength(leap: bool, month: nat): nat {
    if month == 1 then (if leap then 29 else 28)
    else if month == 3 || month == 5 || month == 8 || month == 10 then 30
    else 31
  }

  function DaysBeforeMonth(leap: bool, month: nat): nat {
    if month == 0 then 0 else DaysBeforeMonth(leap, month - 1) + MonthLength(leap, month - 1)
  }

  lemma YearOfMonths(leap: bool)
    ensures DaysBeforeMonth(leap, 12) == if leap then 366 else 365
  {
    assert DaysBeforeMonth(leap, 1) == 31;
    assert DaysBeforeMonth(leap, 2) == 59 + (if leap then 1 else 0);
    assert DaysBeforeMonth(leap, 3) == 90 + (if leap then 1 else 0);
    assert DaysBeforeMonth(leap, 4) == 120 + (if leap then 1 else 0);
    assert DaysBeforeMonth(leap, 5) == 151 + (if leap then 1 else 0);
    assert DaysBeforeMonth(leap, 6) == 181 + (if leap then 1 else 0);
    assert DaysBeforeMonth(leap, 7) == 212 + (if leap then 1 else 0);
    assert DaysBeforeMonth(leap, 8) == 243 + (if leap then 1 else 0);
    assert DaysBeforeMonth(leap, 9) == 273 + (if leap then 1 else 0);
    assert DaysBeforeMonth(leap, 10) == 304 + (if leap then 1 else 0);
    assert DaysBeforeMonth(leap, 11) == 334 + (if leap then 1 else 0);
  }

  function MonthOf(leap: bool, day: nat, month: nat): (r: nat)
    requires month < 12 && DaysBeforeMonth(leap, month) <= day < DaysBeforeMonth(leap, 12)
    ensures r < 12 && DaysBeforeMonth(leap, r) <= day < DaysBeforeMonth(leap, r + 1)
    decreases 12 - month
  {
    if day < DaysBeforeMonth(leap, month + 1) then month else MonthOf(leap, day, month + 1)
  }

  /** Month and day count from 1. */
  datatype Date = Date(year: int, month: nat, day: nat)

  function DateOf(days: int): (d: Date)
    ensures 1 <= d.month <= 12 && 1 <= d.day <= 31
  {
    var shifted := days + EPOCH_DAY;
    var era, dayOfEra := shifted / DAYS_PER_ERA, shifted % DAYS_PER_ERA;
    var y := YearOf(dayOfEra, 0);
    var leap, dayOfYear := IsLeap(y), dayOfEra - DaysBeforeYear(y);
    YearOfMonths(leap);
    var month := MonthOf(leap, dayOfYear, 0);
    Date(era * YEARS_PER_ERA + y, month + 1, dayOfYear - DaysBeforeMonth(leap, month) + 1)
  }

  function DaysOf(d: Date): int
    requires d.month >= 1
  {
    var era, y := d.year / YEARS_PER_ERA, d.year % YEARS_PER_ERA;
    era * DAYS_PER_ERA + DaysBeforeYear(y) + DaysBeforeMonth(IsLeap(y), d.month - 1) + d.day - 1 - EPOCH_DAY
  }

  lemma DaysOfDate(days: int)
    ensures DaysOf(DateOf(days)) == days
  {
    var shifted := days + EPOCH_DAY;
    var era, dayOfEra := shifted / DAYS_PER_ERA, shifted % DAYS_PER_ERA;
    var y := YearOf(dayOfEra, 0);
    var year := DateOf(days).year;
    assert year == era * YEARS_PER_ERA + y;
    RemainderIs(year, era, YEARS_PER_ERA, y);
    hide YearOf, DaysBeforeYear, MonthOf, DaysBeforeMonth, IsLeap;
    assert shifted == era * DAYS_PER_ERA + dayOfEra;
  }

  lemma LeapInEra(year: int)
    ensures IsLeap(year % YEARS_PER_ERA) == IsLeap(year)
  {
    var era, y := year / 400, year % 400;
    RemainderIs(year, 100 * era + y / 4, 4, y % 4);
    RemainderIs(year, 4 * era + y / 100, 100, y % 100);
  }

  /** The Gregorian calendar: day zero is the first of January 1970, and each day follows the one before. */
  lemma DaysFollow(year: int, month: nat, day: nat)
    requires 1 <= month < 12
    ensures DaysOf(Date(1970, 1, 1)) == 0
    ensures DaysOf(Date(year, month, day + 1)) == DaysOf(Date(year, month, day)) + 1
    ensures var leap := year % 4 == 0 && (year % 100 != 0 || year % 400 == 0);
            DaysOf(Date(year, month + 1, 1))
            == DaysOf(Date(year, month, 1))
               + (if month == 2 then (if leap then 29 else 28)
                  else if month == 4 || month == 6 || month == 9 || month == 11 then 30 else 31)
    ensures DaysOf(Date(year + 1, 1, 1)) == DaysOf(Date(year, 12, 31)) + 1
  {
    DaysBeforeYearIs(1970 % YEARS_PER_ERA);
    LeapInEra(year);
    EraLength();
    var y := year % YEARS_PER_ERA;
    YearOfMonths(IsLeap(y));
    assert DaysBeforeMonth(IsLeap(y), 12) == DaysBeforeMonth(IsLeap(y), 11) + 31;
    if y == YEARS_PER_ERA - 1 {
      RemainderIs(year + 1, year / YEARS_PER_ERA + 1, YEARS_PER_ERA, 0);
    } else {
      RemainderIs(year + 1, year / YEARS_PER_ERA, YEARS_PER_ERA, y + 1);
    }
  }

  /** Every date has a month of the year and a day of that month. */
  lemma DateIsProper(days: int)
    ensures var d := DateOf(days);
            var leap := d.year % 4 == 0 && (d.year % 100 != 0 || d.year % 400 == 0);
            && 1 <= d.month <= 12
            && 1 <= d.day <= if d.month == 2 then (if leap then 29 else 28)
                             else if d.month == 4 || d.month == 6 || d.month == 9 || d.month == 11 then 30 else 31
  {
    var y := EraYear(days);
    DateParts(days);
    YearInEra((days + EPOCH_DAY) / DAYS_PER_ERA, y);
    hide DateOf, EraYear;
  }

  /** The year of a day in its era. */
  function EraYear(days: int): (y: nat)
    ensures y < YEARS_PER_ERA
  {
    YearOf((days + EPOCH_DAY) % DAYS_PER_ERA, 0)
  }

  lemma DateParts(days: int)
    ensures DateOf(days).year == (days + EPOCH_DAY) / DAYS_PER_ERA * YEARS_PER_ERA + EraYear(days)
    ensures DateOf(days).day <= MonthLength(IsLeap(EraYear(days)), DateOf(days).month - 1)
  {
    var dayOfEra, y := (days + EPOCH_DAY) % DAYS_PER_ERA, EraYear(days);
    DayOfYearFits(dayOfEra);
    hide DaysBeforeYear, DaysBeforeMonth, MonthOf, MonthLength, YearOf, IsLeap;
    MonthIsProper(IsLeap(y), dayOfEra - DaysBeforeYear(y));
  }

  lemma DayOfYearFits(dayOfEra: nat)
    requires dayOfEra < DAYS_PER_ERA
    ensures var y := YearOf(dayOfEra, 0);
            0 <= dayOfEra - DaysBeforeYear(y) < DaysBeforeMonth(IsLeap(y), 12)
  {
    YearOfMonths(IsLeap(YearOf(dayOfEra, 0)));
  }

  lemma YearInEra(era: int, y: nat)
    requires y < YEARS_PER_ERA
    ensures IsLeap(era * YEARS_PER_ERA + y) == IsLeap(y)
  {
    RemainderIs(era * YEARS_PER_ERA + y, era, YEARS_PER_ERA, y);
    LeapInEra(era * YEARS_PER_ERA + y);
  }

  lemma MonthIsProper(leap: bool, dayOfYear: nat)
    requires dayOfYear < DaysBeforeMonth(leap, 12)
    ensures var month := MonthOf(leap, dayOfYear, 0);
            dayOfYear - DaysBeforeMonth(leap, month) < MonthLength(leap, month)
  {
    var month := MonthOf(leap, dayOfYear, 0);
    assert DaysBeforeMonth(leap, month + 1) == DaysBeforeMonth(leap, month) + MonthLength(leap, month);
  }

  /** The years of all dates have at most six digits. */
  lemma YearFits(t: Time)
    requires IsDate(t)
    ensures -999_999 <= DateOf(t / MS_PER_DAY).year <= 999_999
  {
    var shifted := t / MS_PER_DAY + EPOCH_DAY;
    assert -100_000_000 <= t / MS_PER_DAY <= 100_000_000;
    assert -700 <= shifted / DAYS_PER_ERA <= 700;
  }

  // ---- Padded numerals ---------------------------------------------------------------------

  function Padded(n: nat, width: nat): (s: string)
    ensures |s| == width && AllDigits(s)
  {
    if width == 0 then "" else Padded(n / 10, width - 1) + [DigitChar(n % 10)]
  }

  lemma {:induction false} ParseOfPadded(n: nat, width: nat)
    requires n < Power10(width)
    ensures ParseDecimal(Padded(n, width)) == n
  {
    if width > 0 {
      var s := Padded(n, width);
      assert s[..width - 1] == Padded(n / 10, width - 1);
      ParseOfPadded(n / 10, width - 1);
    }
  }

  // ---- Fields of fixed width -----------------------------------------------------------------

  /** The character before a field, and the field's width. */
  datatype Field = Field(separator: char, width: nat)

  const DATE_TIME_FIELDS: seq<Field> :=
    [Field('-', 2), Field('-', 2), Field('T', 2), Field(':', 2), Field(':', 2), Field('.', 3)]

  predicate Fit(values: seq<nat>, fields: seq<Field>) {
    |values| == |fields| && forall i | 0 <= i < |values| :: values[i] < Power10(fields[i].width)
  }

  function WriteFields(values: seq<nat>, fields: seq<Field>): string
    requires |values| == |fields|
  {
    if values == [] then ""
    else
      var n := |values| - 1;
      WriteFields(values[..n], fields[..n]) + [fields[n].separator] + Padded(values[n], fields[n].width)
  }

  function ReadFields(text: string, fields: seq<Field>): (r: Option<seq<nat>>)
    ensures r.Some? ==> |r.value| == |fields|
    decreases |fields|
  {
    if fields == [] then (if text == "" then Some([]) else None)
    else
      var n := |fields| - 1;
      var start := |text| - fields[n].width;
      if start < 1 || text[start - 1] != fields[n].separator || !AllDigits(text[start..]) then None
      else
        var rest := ReadFields(text[..start - 1], fields[..n]);
        if rest.None? then None else Some(rest.value + [ParseDecimal(text[start..])])
  }

  lemma LastFieldIsCut(before: string, separator: char, last: string)
    ensures var text := before + [separator] + last;
            var start := |text| - |last|;
            start == |before| + 1 && text[start - 1] == separator && text[start..] == last && text[..start - 1] == before
  {}

  lemma ReadStep(before: string, value: nat, fields: seq<Field>, field: Field)
    requires value < Power10(field.width)
    ensures var rest := ReadFields(before, fields);
            (ReadFields(before + [field.separator] + Padded(value, field.width), fields + [field])
             == if rest.None? then None else Some(rest.value + [value]))
  {
    hide Padded, ParseDecimal, Power10;
    ParseOfPadded(value, field.width);
    LastFieldIsCut(before, field.separator, Padded(value, field.width));
    assert (fields + [field])[..|fields|] == fields;
  }

  lemma {:induction false} ReadOfWrittenFields(values: seq<nat>, fields: seq<Field>)
    requires Fit(values, fields)
    ensures ReadFields(WriteFields(values, fields), fields) == Some(values)
    decreases |fields|
  {
    hide ReadFields, Padded;
    if values == [] {
      ReadNothing();
    } else {
      var n := |values| - 1;
      ReadOfWrittenFields(values[..n], fields[..n]);
      ReadStep(WriteFields(values[..n], fields[..n]), values[n], fields[..n], fields[n]);
      assert fields == fields[..n] + [fields[n]] && values == values[..n] + [values[n]];
    }
  }

  lemma ReadNothing()
    ensures ReadFields("", []) == Some([])
  {}

  // ---- The text ----------------------------------------------------------------------------

  function WriteYear(year: int): string {
    if 0 <= year <= 9_999 then Padded(year, 4)
    else if year < 0 then "-" + Padded(-year, 6)
    else "+" + Padded(year, 6)
  }

  function ReadYear(text: string): Option<int> {
    if |text| == 4 && AllDigits(text) then Some(ParseDecimal(text))
    else if |text| == 7 && (text[0] == '+' || text[0] == '-') && AllDigits(text[1..]) then
      var size: int := ParseDecimal(text[1..]);
      Some(if text[0] == '-' then -size else size)
    else None
  }

  lemma ReadOfWrittenYear(year: int)
    requires -999_999 <= year <= 999_999
    ensures ReadYear(WriteYear(year)) == Some(year)
  {
    assert Power10(4) == 10_000 && Power10(6) == 1_000_000;
    if 0 <= year <= 9_999 {
      ParseOfPadded(year, 4);
    } else {
      var size := if year < 0 then -year else year;
      ParseOfPadded(size, 6);
      assert WriteYear(year)[1..] == Padded(size, 6);
    }
  }

  /** Month, day, hour, minute, second and millisecond of a time. */
  function FieldsOf(t: Time): (values: seq<nat>)
    ensures |values| == |DATE_TIME_FIELDS|
  {
    var d, ms := DateOf(t / MS_PER_DAY), t % MS_PER_DAY;
    [d.month, d.day, ms / 3_600_000, ms / 60_000 % 60, ms / 1_000 % 60, ms % 1_000]
  }

  function Write(t: Time): string {
    WriteYear(DateOf(t / MS_PER_DAY).year) + (WriteFields(FieldsOf(t), DATE_TIME_FIELDS) + "Z")
  }

  const REST_LENGTH := 20

  /** Reads texts of the form that `Write` gives. */
  function Read(text: string): Option<Time> {
    var split := |text| - REST_LENGTH;
    if split < 0 || text[|text| - 1] != 'Z' then None
    else
      var year := ReadYear(text[..split]);
      var values := ReadFields(text[split..|text| - 1], DATE_TIME_FIELDS);
      if year.None? || values.None? || !(1 <= values.value[0] <= 12) then None
      else Some(TimeOf(year.value, values.value))
  }

  function TimeOf(year: int, values: seq<nat>): Time
    requires |values| == |DATE_TIME_FIELDS| && values[0] >= 1
  {
    DaysOf(Date(year, values[0], values[1])) * MS_PER_DAY
    + values[2] * 3_600_000 + values[3] * 60_000 + values[4] * 1_000 + values[5]
  }

  lemma {:induction false} FieldsLength(values: seq<nat>, fields: seq<Field>, length: nat)
    requires |values| == |fields| && length == TotalLength(fields)
    ensures |WriteFields(values, fields)| == length
    decreases |fields|
  {
    if values != [] {
      var n := |values| - 1;
      FieldsLength(values[..n], fields[..n], TotalLength(fields[..n]));
    }
  }

  function TotalLength(fields: seq<Field>): nat {
    if fields == [] then 0 else TotalLength(fields[..|fields| - 1]) + 1 + fields[|fields| - 1].width
  }

  lemma DateTimeLength()
    ensures TotalLength(DATE_TIME_FIELDS) == REST_LENGTH - 1
  {
    var f := DATE_TIME_FIELDS;
    assert f[..6][..5] == f[..5] && f[..5][..4] == f[..4] && f[..4][..3] == f[..3];
    assert f[..3][..2] == f[..2] && f[..2][..1] == f[..1] && f[..1][..0] == [] && f[..6] == f;
    assert TotalLength(f[..1]) == 3;
    assert TotalLength(f[..2]) == 6;
    assert TotalLength(f[..3]) == 9;
    assert TotalLength(f[..4]) == 12;
    assert TotalLength(f[..5]) == 15;
  }

  lemma FieldsFit(t: Time)
    ensures Fit(FieldsOf(t), DATE_TIME_FIELDS)
  {
    assert Power10(2) == 100 && Power10(3) == 1_000;
    var ms := t % MS_PER_DAY;
    assert ms / 3_600_000 < 24;
  }

  lemma ClockAddsUp(ms: nat)
    ensures ms / 3_600_000 * 3_600_000 + ms / 60_000 % 60 * 60_000 + ms / 1_000 % 60 * 1_000 + ms % 1_000 == ms
  {
    assert ms / 1_000 / 60 == ms / 60_000 && ms / 60_000 / 60 == ms / 3_600_000;
  }

  lemma TimeOfFields(t: Time)
    ensures TimeOf(DateOf(t / MS_PER_DAY).year, FieldsOf(t)) == t
  {
    DaysOfDate(t / MS_PER_DAY);
    ClockAddsUp(t % MS_PER_DAY);
    var d := DateOf(t / MS_PER_DAY);
    assert Date(d.year, d.month, d.day) == d;
  }

  lemma FieldAfter(v: seq<nat>, n: nat, separator: char, width: nat)
    requires |v| == |DATE_TIME_FIELDS| && n < |v| && DATE_TIME_FIELDS[n] == Field(separator, width)
    ensures WriteFields(v[..n + 1], DATE_TIME_FIELDS[..n + 1])
         == WriteFields(v[..n], DATE_TIME_FIELDS[..n]) + [separator] + Padded(v[n], width)
  {
    var f := DATE_TIME_FIELDS;
    assert v[..n + 1][..n] == v[..n] && f[..n + 1][..n] == f[..n];
  }

  lemma DateFields(v: seq<nat>)
    requires |v| == |DATE_TIME_FIELDS|
    ensures WriteFields(v[..3], DATE_TIME_FIELDS[..3])
         == "-" + Padded(v[0], 2) + "-" + Padded(v[1], 2) + "T" + Padded(v[2], 2)
  {
    assert WriteFields(v[..0], DATE_TIME_FIELDS[..0]) == "";
    hide Padded, WriteFields;
    FieldAfter(v, 0, '-', 2);
    FieldAfter(v, 1, '-', 2);
    FieldAfter(v, 2, 'T', 2);
    assert "" + ['-'] == "-";
  }

  lemma SixFields(v: seq<nat>)
    requires |v| == |DATE_TIME_FIELDS|
    ensures WriteFields(v, DATE_TIME_FIELDS)
         == "-" + Padded(v[0], 2) + "-" + Padded(v[1], 2) + "T" + Padded(v[2], 2) + ":" + Padded(v[3], 2)
            + ":" + Padded(v[4], 2) + "." + Padded(v[5], 3)
  {
    hide Padded, WriteFields;
    DateFields(v);
    FieldAfter(v, 3, ':', 2);
    FieldAfter(v, 4, ':', 2);
    FieldAfter(v, 5, '.', 3);
    assert v[..6] == v && DATE_TIME_FIELDS[..6] == DATE_TIME_FIELDS;
  }

  /** The text of a time, field by field. */
  lemma TextOfTime(t: Time)
    ensures var d, ms := DateOf(t / 86_400_000), t % 86_400_000;
            Write(t)
            == (if 0 <= d.year <= 9_999 then Padded(d.year, 4)
                else if d.year < 0 then "-" + Padded(-d.year, 6) else "+" + Padded(d.year, 6))
               + ("-" + Padded(d.month, 2) + "-" + Padded(d.day, 2)
                  + "T" + Padded(ms / 3_600_000, 2) + ":" + Padded(ms / 60_000 % 60, 2)
                  + ":" + Padded(ms / 1_000 % 60, 2) + "." + Padded(ms % 1_000, 3) + "Z")
  {
    hide DateOf;
    SixFields(FieldsOf(t));
  }

  /** Every time a Date can hold is read back from its text. */
  lemma ReadOfWrite(t: Time)
    requires IsDate(t)
    ensures Read(Write(t)) == Some(t)
  {
    var year := DateOf(t / MS_PER_DAY).year;
    var head, rest := WriteYear(year), WriteFields(FieldsOf(t), DATE_TIME_FIELDS);
    YearFits(t);
    ReadOfWrittenYear(year);
    FieldsFit(t);
    ReadOfWrittenFields(FieldsOf(t), DATE_TIME_FIELDS);
    DateTimeLength();
    FieldsLength(FieldsOf(t), DATE_TIME_FIELDS, REST_LENGTH - 1);
    var text := Write(t);
    assert text == head + (rest + "Z");
    assert text[..|text| - REST_LENGTH] == head;
    assert text[|text| - REST_LENGTH..|text| - 1] == rest;
    TimeOfFields(t);
  }

  /** The characters that occur in the text of a time. */
  predicate IsTimeCharacter(c: char) {
    IsDigit(c) || c == '+' || c == '-' || c == ':' || c == '.' || c == 'T' || c == 'Z'
  }

  predicate IsTimeText(s: string) {
    forall i | 0 <= i < |s| :: IsTimeCharacter(s[i])
  }

  lemma {:induction false} FieldsAreTimeText(values: seq<nat>, fields: seq<Field>)
    requires |values| == |fields| && forall i | 0 <= i < |fields| :: IsTimeCharacter(fields[i].separator)
    ensures IsTimeText(WriteFields(values, fields))
    decreases |fields|
  {
    if values != [] {
      FieldsAreTimeText(values[..|values| - 1], fields[..|values| - 1]);
    }
  }

  lemma WriteIsPlain(t: Time)
    ensures IsTimeText(Write(t))
  {
    FieldsAreTimeText(FieldsOf(t), DATE_TIME_FIELDS);
  }
}
