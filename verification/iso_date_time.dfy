/** The ISO 8601 date-time check applied to an incident's `reported_at`:
    the complete representation of a calendar date and time of day in the
    extended format (section 4.3.2 of ISO 8601:2004), `YYYY-MM-DDThh:mm:ss`,
    optionally followed by the UTC designator `Z` or a difference from UTC
    `+hh:mm` / `-hh:mm` (sections 4.2.4 and 4.2.5.2). */
module IsoDateTime {
  import opened Common

  datatype Zone = Local | Utc | Offset(ahead: bool, hours: nat, minutes: nat)

  datatype DateTime = DateTime(year: nat, month: nat, day: nat,
                               hour: nat, minute: nat, second: nat, zone: Zone)

  /** Gregorian leap years. */
  predicate IsLeapYear(y: nat) {
    y % 4 == 0 && (y % 100 != 0 || y % 400 == 0)
  }

  function DaysInMonth(y: nat, m: nat): (d: nat)
    requires 1 <= m <= 12
    ensures 28 <= d <= 31
    ensures d == 29 <==> m == 2 && IsLeapYear(y)
  {
    if m == 2 then (if IsLeapYear(y) then 29 else 28)
    else if m == 4 || m == 6 || m == 9 || m == 11 then 30
    else 31
  }

  predicate ValidZone(z: Zone) {
    z.Offset? ==> z.hours <= 23 && z.minutes <= 59
  }

  /** A date-time that names an existing calendar day and time of day. */
  predicate ValidDateTime(dt: DateTime) {
    dt.year <= 9999 && 1 <= dt.month <= 12 && 1 <= dt.day <= DaysInMonth(dt.year, dt.month) &&
    dt.hour <= 23 && dt.minute <= 59 && dt.second <= 59 && ValidZone(dt.zone)
  }

  predicate IsDigit(c: char) { '0' <= c <= '9' }

  predicate AllDigits(s: string) {
    forall i :: 0 <= i < |s| ==> IsDigit(s[i])
  }

  function DigitValue(c: char): (d: nat)
    requires IsDigit(c)
    ensures d < 10
  {
    c as int - '0' as int
  }

  function DigitChar(d: nat): (c: char)
    requires d < 10
    ensures IsDigit(c) && DigitValue(c) == d
  {
    ('0' as int + d) as char
  }

  /** Two decimal digits, zero-padded. */
  function Pad2(n: nat): (s: string)
    requires n < 100
    ensures |s| == 2 && AllDigits(s)
  {
    [DigitChar(n / 10), DigitChar(n % 10)]
  }

  /** Four decimal digits, zero-padded. */
  function Pad4(n: nat): (s: string)
    requires n < 10000
    ensures |s| == 4 && AllDigits(s)
  {
    Pad2(n / 100) + Pad2(n % 100)
  }

  function Num2(s: string): (n: nat)
    requires |s| == 2 && AllDigits(s)
    ensures n < 100
  {
    10 * DigitValue(s[0]) + DigitValue(s[1])
  }

  function Num4(s: string): (n: nat)
    requires |s| == 4 && AllDigits(s)
    ensures n < 10000
  {
    100 * Num2(s[..2]) + Num2(s[2..])
  }

  lemma Num2Pad2(n: nat)
    requires n < 100
    ensures Num2(Pad2(n)) == n
  {
  }

  lemma Pad2Num2(s: string)
    requires |s| == 2 && AllDigits(s)
    ensures Pad2(Num2(s)) == s
  {
    var n := Num2(s);
    assert n / 10 == DigitValue(s[0]) && n % 10 == DigitValue(s[1]);
    assert DigitChar(DigitValue(s[0])) == s[0];
    assert DigitChar(DigitValue(s[1])) == s[1];
  }

  lemma Num4Pad4(n: nat)
    requires n < 10000
    ensures Num4(Pad4(n)) == n
  {
    var s := Pad4(n);
    assert s[..2] == Pad2(n / 100) && s[2..] == Pad2(n % 100);
    Num2Pad2(n / 100);
    Num2Pad2(n % 100);
  }

  lemma Pad4Num4(s: string)
    requires |s| == 4 && AllDigits(s)
    ensures Pad4(Num4(s)) == s
  {
    var n := Num4(s);
    assert n / 100 == Num2(s[..2]) && n % 100 == Num2(s[2..]);
    Pad2Num2(s[..2]);
    Pad2Num2(s[2..]);
    assert s == s[..2] + s[2..];
  }

  function FormatZone(z: Zone): (s: string)
    requires ValidZone(z)
    ensures |s| == 0 || |s| == 1 || |s| == 6
  {
    match z
    case Local => ""
    case Utc => "Z"
    case Offset(ahead, h, m) => [if ahead then '+' else '-'] + Pad2(h) + [':'] + Pad2(m)
  }

  function ParseZone(s: string): Option<Zone> {
    if s == [] then Some(Local)
    else if s == ['Z'] then Some(Utc)
    else if |s| == 6 && (s[0] == '+' || s[0] == '-') && AllDigits(s[1..3]) && s[3] == ':' &&
            AllDigits(s[4..6]) && Num2(s[1..3]) <= 23 && Num2(s[4..6]) <= 59
    then Some(Offset(s[0] == '+', Num2(s[1..3]), Num2(s[4..6])))
    else None
  }

  function DatePart(dt: DateTime): (s: string)
    requires ValidDateTime(dt)
    ensures |s| == 10
  {
    Pad4(dt.year) + ['-'] + Pad2(dt.month) + ['-'] + Pad2(dt.day)
  }

  function TimePart(dt: DateTime): (s: string)
    requires ValidDateTime(dt)
    ensures |s| == 8
  {
    Pad2(dt.hour) + [':'] + Pad2(dt.minute) + [':'] + Pad2(dt.second)
  }

  /** The canonical text of a date-time: `YYYY-MM-DDThh:mm:ss` and its zone. */
  function Format(dt: DateTime): string
    requires ValidDateTime(dt)
  {
    DatePart(dt) + ['T'] + TimePart(dt) + FormatZone(dt.zone)
  }

  /** The fixed-position layout of the first 19 characters. */
  predicate Layout(s: string) {
    |s| >= 19 &&
    AllDigits(s[0..4]) && s[4] == '-' && AllDigits(s[5..7]) && s[7] == '-' && AllDigits(s[8..10]) &&
    s[10] == 'T' &&
    AllDigits(s[11..13]) && s[13] == ':' && AllDigits(s[14..16]) && s[16] == ':' && AllDigits(s[17..19])
  }

  function Parse(s: string): Option<DateTime> {
    if !Layout(s) then None
    else
      match ParseZone(s[19..])
      case None => None
      case Some(z) =>
        var dt := DateTime(Num4(s[0..4]), Num2(s[5..7]), Num2(s[8..10]),
                           Num2(s[11..13]), Num2(s[14..16]), Num2(s[17..19]), z);
        if ValidDateTime(dt) then Some(dt) else None
  }

  /** The check the incident validation applies. */
  predicate IsIsoDateTime(s: string) {
    Parse(s).Some?
  }

  lemma ZoneRoundTrip(z: Zone)
    requires ValidZone(z)
    ensures ParseZone(FormatZone(z)) == Some(z)
  {
    match z
    case Local =>
    case Utc =>
    case Offset(ahead, h, m) =>
      var s := FormatZone(z);
      assert s[1..3] == Pad2(h) && s[4..6] == Pad2(m);
      Num2Pad2(h);
      Num2Pad2(m);
  }

  lemma ZoneCanonical(s: string, z: Zone)
    requires ParseZone(s) == Some(z)
    ensures ValidZone(z) && FormatZone(z) == s
  {
    if |s| == 6 {
      Pad2Num2(s[1..3]);
      Pad2Num2(s[4..6]);
      assert s == [s[0]] + s[1..3] + [':'] + s[4..6];
    }
  }

  /** Every valid date-time is recognised by the check, and parsing its text gives it back. */
  lemma {:induction false} FormatThenParse(dt: DateTime)
    requires ValidDateTime(dt)
    ensures Parse(Format(dt)) == Some(dt)
  {
    var s := Format(dt);
    var d, t := DatePart(dt), TimePart(dt);
    assert s[..10] == d && s[10] == 'T' && s[11..19] == t && s[19..] == FormatZone(dt.zone);
    assert s[0..4] == Pad4(dt.year) && s[5..7] == Pad2(dt.month) && s[8..10] == Pad2(dt.day);
    assert s[11..13] == Pad2(dt.hour) && s[14..16] == Pad2(dt.minute) && s[17..19] == Pad2(dt.second);
    assert Layout(s);
    Num4Pad4(dt.year);
    Num2Pad2(dt.month);
    Num2Pad2(dt.day);
    Num2Pad2(dt.hour);
    Num2Pad2(dt.minute);
    Num2Pad2(dt.second);
    ZoneRoundTrip(dt.zone);
  }

  /** Whatever the check accepts is a valid date-time written in its canonical form. */
  lemma {:induction false} ParseThenFormat(s: string, dt: DateTime)
    requires Parse(s) == Some(dt)
    ensures ValidDateTime(dt) && Format(dt) == s
  {
    ZoneCanonical(s[19..], dt.zone);
    Pad4Num4(s[0..4]);
    Pad2Num2(s[5..7]);
    Pad2Num2(s[8..10]);
    Pad2Num2(s[11..13]);
    Pad2Num2(s[14..16]);
    Pad2Num2(s[17..19]);
    assert DatePart(dt) == s[0..4] + [s[4]] + s[5..7] + [s[7]] + s[8..10];
    assert TimePart(dt) == s[11..13] + [s[13]] + s[14..16] + [s[16]] + s[17..19];
    assert s == s[0..4] + [s[4]] + s[5..7] + [s[7]] + s[8..10] + [s[10]] +
                s[11..13] + [s[13]] + s[14..16] + [s[16]] + s[17..19] + s[19..];
  }

  /** A date-time with the UTC designator is accepted. */
  lemma AcceptsUtcExample()
    ensures IsIsoDateTime("2020-01-30T10:15:00Z")
  {
    var dt := DateTime(2020, 1, 30, 10, 15, 0, Utc);
    FormatThenParse(dt);
    ExampleFormat(dt);
  }

  lemma ExampleFormat(dt: DateTime)
    requires dt == DateTime(2020, 1, 30, 10, 15, 0, Utc)
    ensures Format(dt) == "2020-01-30T10:15:00Z"
  {
    ExampleDatePart(dt);
    ExampleTimePart(dt);
    assert Format(dt) == "2020-01-30" + "T" + "10:15:00" + "Z";
  }

  lemma ExampleDatePart(dt: DateTime)
    requires dt.year == 2020 && dt.month == 1 && dt.day == 30 && ValidDateTime(dt)
    ensures DatePart(dt) == "2020-01-30"
  {
    assert Pad4(dt.year) == Pad2(20) + Pad2(20);
    assert Pad2(20) == "20" && Pad2(dt.month) == "01" && Pad2(dt.day) == "30";
  }

  lemma ExampleTimePart(dt: DateTime)
    requires dt.hour == 10 && dt.minute == 15 && dt.second == 0 && ValidDateTime(dt)
    ensures TimePart(dt) == "10:15:00"
  {
    assert Pad2(dt.hour) == "10" && Pad2(dt.minute) == "15" && Pad2(dt.second) == "00";
  }

  /** A date written with slashes is refused. */
  lemma RejectsSlashesExample()
    ensures !IsIsoDateTime("2019/01/01")
  {
  }

  /** The 29th of February of a common year is refused. */
  lemma RejectsMissingDayExample()
    ensures !IsIsoDateTime("2019-02-29T10:00:00")
  {
    var bad := "2019-02-29T10:00:00";
    assert bad[0..4] == "2019";
    assert bad[5..7] == "02";
    assert bad[8..10] == "29";
  }
}
