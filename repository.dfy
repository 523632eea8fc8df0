/** `Repository.toIsoString` (repository.ts): a timestamp rendered from the
    LOCAL date and time fields of a date as `year-MM-DDThh:mm:ss.000Z`, with
    milliseconds fixed at `.000` and the offset written as `Z`. The year is
    not padded, so only a four-digit year gives the shape of an RFC 3339
    (section 5.6) `date-time`; year 999 is written "999-..." and year -1
    "-1-...". The local timezone offset is read but not used, so the `Z`
    does not mean UTC unless the local zone is UTC. */
module Repository {
  import opened JsValues
  import opened Decimal

  /** The local fields of a `Date`. `toIsoString` reads getFullYear,
      getMonth (0-based), getDate, getHours, getMinutes, getSeconds and
      getTimezoneOffset (in minutes), which it then does not use. It never
      reads the milliseconds: `.000` is a literal. The `milliseconds` field
      is here only so that IgnoresMillisecondsAndOffset can state that the
      result does not depend on it. */
  datatype LocalDate = LocalDate(
    year: int,
    monthIndex: nat,
    day: nat,
    hours: nat,
    minutes: nat,
    seconds: nat,
    milliseconds: nat,
    timezoneOffset: int)

  /** The ranges a JavaScript `Date` guarantees for its local fields. */
  predicate InRange(d: LocalDate) {
    d.monthIndex < 12 && 1 <= d.day <= 31 && d.hours < 24 &&
    d.minutes < 60 && d.seconds < 60 && d.milliseconds < 1000
  }

  /** The fields the rendered string carries, month 1-based as written. */
  datatype DateTimeFields = DateTimeFields(
    year: int, month: nat, day: nat, hours: nat, minutes: nat, seconds: nat)

  function FieldsOf(d: LocalDate): (f: DateTimeFields) {
    DateTimeFields(d.year, d.monthIndex + 1, d.day, d.hours, d.minutes, d.seconds)
  }

  /** The inner `pad` helper: a '0' in front of numbers below ten. Below a
      hundred the result is exactly the tens digit followed by the units
      digit. */
  function Pad(n: nat): (s: string)
    ensures AllDigits(s)
    ensures 10 <= n ==> s == NatToString(n)
    ensures n < 100 ==> s == [DigitChar(n / 10), DigitChar(n % 10)]
  {
    (if n < 10 then "0" else "") + NatToString(n)
  }

  /** A padded field below a hundred reads back as the number it was
      written from. */
  lemma ParseTwoDigits(n: nat)
    requires n < 100
    ensures ParseNat(Pad(n)) == n
  {
    var s := [DigitChar(n / 10), DigitChar(n % 10)];
    var head := [DigitChar(n / 10)];
    assert s[..1] == head && head[..0] == [];
    assert ParseNat(head) == DigitValue(head[0]) == n / 10;
    assert ParseNat(s) == 10 * ParseNat(head) + DigitValue(s[1]);
  }

  /** `toIsoString(date)`: the unpadded year, then the padded fields. Its
      full layout is ToIsoStringLayout; ParseToIsoString reads it back. */
  function ToIsoString(d: LocalDate): (r: string)
    ensures |r| == |IntToString(d.year)| + 5 + |Pad(d.monthIndex + 1)| + |Pad(d.day)| +
                   |Pad(d.hours)| + |Pad(d.minutes)| + |Pad(d.seconds)| + 5
    ensures r[|r| - 5..] == ".000Z"
  {
    IntToString(d.year) +
    "-" + Pad(d.monthIndex + 1) +
    "-" + Pad(d.day) +
    "T" + Pad(d.hours) +
    ":" + Pad(d.minutes) +
    ":" + Pad(d.seconds) + ".000Z"
  }

  /** The length of everything after the year. */
  const SuffixLength: nat := 20

  /** Reads a string back into fields: the year is everything before the
      fixed-width last twenty characters `-MM-DDThh:mm:ss.000Z`. This is the
      read-back definition that ToIsoString is proved against. */
  function ParseIsoString(s: string): (r: Option<DateTimeFields>) {
    if |s| <= SuffixLength then None
    else
      var n := |s| - SuffixLength;
      match ParseInt(s[..n])
      case None => None
      case Some(year) => ParseSuffix(year, s[n..])
  }

  /** Reads the fixed-width part `-MM-DDThh:mm:ss.000Z`. */
  function ParseSuffix(year: int, t: string): (r: Option<DateTimeFields>)
    requires |t| == SuffixLength
  {
    if t[0] == '-' && t[3] == '-' && t[6] == 'T' && t[9] == ':' && t[12] == ':' &&
       t[15..] == ".000Z" &&
       AllDigits(t[1..3]) && AllDigits(t[4..6]) && AllDigits(t[7..9]) &&
       AllDigits(t[10..12]) && AllDigits(t[13..15])
    then
      Some(DateTimeFields(year, ParseNat(t[1..3]), ParseNat(t[4..6]),
                          ParseNat(t[7..9]), ParseNat(t[10..12]), ParseNat(t[13..15])))
    else None
  }

  /** The twenty characters after the year, written out one by one. */
  function Suffix(d: LocalDate): (t: string)
    requires InRange(d)
    ensures |t| == SuffixLength
  {
    var mo, dd, hh, mi, ss := d.monthIndex + 1, d.day, d.hours, d.minutes, d.seconds;
    ['-', DigitChar(mo / 10), DigitChar(mo % 10),
     '-', DigitChar(dd / 10), DigitChar(dd % 10),
     'T', DigitChar(hh / 10), DigitChar(hh % 10),
     ':', DigitChar(mi / 10), DigitChar(mi % 10),
     ':', DigitChar(ss / 10), DigitChar(ss % 10),
     '.', '0', '0', '0', 'Z']
  }

  lemma AppendAssoc(a: string, b: string, c: string)
    ensures (a + b) + c == a + (b + c)
  {
  }

  /** The rendering is the year followed by the fixed-width suffix. */
  lemma ToIsoStringLayout(d: LocalDate)
    requires InRange(d)
    ensures ToIsoString(d) == IntToString(d.year) + Suffix(d)
  {
    var y := IntToString(d.year);
    var mo, dd, hh, mi, ss := d.monthIndex + 1, d.day, d.hours, d.minutes, d.seconds;
    var m1, m2 := DigitChar(mo / 10), DigitChar(mo % 10);
    var d1, d2 := DigitChar(dd / 10), DigitChar(dd % 10);
    var h1, h2 := DigitChar(hh / 10), DigitChar(hh % 10);
    var i1, i2 := DigitChar(mi / 10), DigitChar(mi % 10);
    var s1, s2 := DigitChar(ss / 10), DigitChar(ss % 10);
    var t0 := ['-'];
    var t1 := t0 + Pad(mo);
    assert t1 == ['-', m1, m2];
    var t2 := t1 + "-";
    assert t2 == ['-', m1, m2, '-'];
    var t3 := t2 + Pad(dd);
    assert t3 == ['-', m1, m2, '-', d1, d2];
    var t4 := t3 + "T";
    assert t4 == ['-', m1, m2, '-', d1, d2, 'T'];
    var t5 := t4 + Pad(hh);
    assert t5 == ['-', m1, m2, '-', d1, d2, 'T', h1, h2];
    var t6 := t5 + ":";
    assert t6 == ['-', m1, m2, '-', d1, d2, 'T', h1, h2, ':'];
    var t7 := t6 + Pad(mi);
    assert t7 == ['-', m1, m2, '-', d1, d2, 'T', h1, h2, ':', i1, i2];
    var t8 := t7 + ":";
    assert t8 == ['-', m1, m2, '-', d1, d2, 'T', h1, h2, ':', i1, i2, ':'];
    var t9 := t8 + Pad(ss);
    assert t9 == ['-', m1, m2, '-', d1, d2, 'T', h1, h2, ':', i1, i2, ':', s1, s2];
    var t10 := t9 + ".000Z";
    assert t10 == Suffix(d);
    AppendAssoc(y, t0, Pad(mo));
    AppendAssoc(y, t1, "-");
    AppendAssoc(y, t2, Pad(dd));
    AppendAssoc(y, t3, "T");
    AppendAssoc(y, t4, Pad(hh));
    AppendAssoc(y, t5, ":");
    AppendAssoc(y, t6, Pad(mi));
    AppendAssoc(y, t7, ":");
    AppendAssoc(y, t8, Pad(ss));
    AppendAssoc(y, t9, ".000Z");
  }

  /** A two-digit field at position `i` reads back as its number. */
  lemma ParseFieldAt(t: string, i: nat, n: nat)
    requires i + 2 <= |t| && n < 100
    requires t[i] == DigitChar(n / 10) && t[i + 1] == DigitChar(n % 10)
    ensures AllDigits(t[i..i + 2]) && ParseNat(t[i..i + 2]) == n
  {
    assert t[i..i + 2] == [DigitChar(n / 10), DigitChar(n % 10)];
    ParseTwoDigits(n);
  }

  /** The suffix reads back as the five fields it was written from. */
  lemma ParseSuffixOf(d: LocalDate)
    requires InRange(d)
    ensures ParseSuffix(d.year, Suffix(d)) == Some(FieldsOf(d))
  {
    var t := Suffix(d);
    ParseFieldAt(t, 1, d.monthIndex + 1);
    ParseFieldAt(t, 4, d.day);
    ParseFieldAt(t, 7, d.hours);
    ParseFieldAt(t, 10, d.minutes);
    ParseFieldAt(t, 13, d.seconds);
    assert t[15..] == ".000Z";
  }

  /** Reading the rendering back recovers the year, the 1-based month and
      the other four fields, whatever the year's width or sign. */
  lemma ParseToIsoString(d: LocalDate)
    requires InRange(d)
    ensures ParseIsoString(ToIsoString(d)) == Some(FieldsOf(d))
  {
    var y, t := IntToString(d.year), Suffix(d);
    var s := ToIsoString(d);
    ToIsoStringLayout(d);
    assert s[..|y|] == y && s[|y|..] == t;
    ParseIntToString(d.year);
    ParseSuffixOf(d);
  }

  /** Distinct in-range dates that differ in a rendered field give distinct
      strings. */
  lemma ToIsoStringInjective(d1: LocalDate, d2: LocalDate)
    requires InRange(d1) && InRange(d2)
    requires ToIsoString(d1) == ToIsoString(d2)
    ensures FieldsOf(d1) == FieldsOf(d2)
  {
    ParseToIsoString(d1);
    ParseToIsoString(d2);
  }

  /** For a four-digit year the result is exactly 24 characters long and has
      the RFC 3339 separators at their fixed positions. */
  lemma FourDigitYearShape(d: LocalDate)
    requires InRange(d) && 1000 <= d.year <= 9999
    ensures var s := ToIsoString(d);
      |s| == 24 && AllDigits(s[..4]) && s[4] == '-' && s[7] == '-' && s[10] == 'T' &&
      s[13] == ':' && s[16] == ':' && s[19..] == ".000Z"
  {
    assert Pow10(3) == 1000 && Pow10(4) == 10000;
    NatToStringLength(d.year, 4);
    ToIsoStringLayout(d);
    var s, y := ToIsoString(d), IntToString(d.year);
    assert s[..4] == y;
  }

  /** The 0-based month index is written 1-based: January (0) is "01" and
      December (11) is "12". */
  lemma MonthIsOneBased(d: LocalDate)
    requires InRange(d)
    ensures var s := ToIsoString(d); var n := |IntToString(d.year)|;
      ParseNat(s[n + 1..n + 3]) == d.monthIndex + 1 &&
      (d.monthIndex == 0 ==> s[n + 1..n + 3] == "01") &&
      (d.monthIndex == 11 ==> s[n + 1..n + 3] == "12")
  {
    var s, y, t := ToIsoString(d), IntToString(d.year), Suffix(d);
    var n, mo := |y|, d.monthIndex + 1;
    ToIsoStringLayout(d);
    assert s[n + 1..n + 3] == t[1..3];
    ParseFieldAt(t, 1, mo);
    assert t[1..3] == [DigitChar(mo / 10), DigitChar(mo % 10)];
    assert Pad(mo) == t[1..3];
  }

  /** Milliseconds and the timezone offset have no influence on the result. */
  lemma IgnoresMillisecondsAndOffset(d: LocalDate, milliseconds: nat, timezoneOffset: int)
    ensures ToIsoString(d.(milliseconds := milliseconds, timezoneOffset := timezoneOffset)) == ToIsoString(d)
  {
  }
}
