/**
 * Calendar dates and date-times as Python's datetime module keeps them (proleptic
 * Gregorian calendar, years 1 to 9999), the text form "YYYY-MM-DD HH:MM:SS" that the
 * pipeline stores in the `published` column, and the day arithmetic the dashboard uses.
 */
module Dates {
  import opened Wrappers

  datatype Date = Date(year: int, month: int, day: int)
  datatype DateTime = DateTime(date: Date, hour: int, minute: int, second: int)

  /** datetime.MINYEAR and datetime.MAXYEAR. */
  const MinYear := 1
  const MaxYear := 9999

  predicate IsLeap(y: int) {
    y % 4 == 0 && (y % 100 != 0 || y % 400 == 0)
  }

  function DaysInMonth(y: int, m: int): (n: int)
    requires 1 <= m <= 12
    ensures 28 <= n <= 31
    ensures m == 2 ==> (n == 29 <==> IsLeap(y))
  {
    if m == 2 then (if IsLeap(y) then 29 else 28)
    else if m == 4 || m == 6 || m == 9 || m == 11 then 30
    else 31
  }

  predicate ValidDate(d: Date) {
    MinYear <= d.year <= MaxYear && 1 <= d.month <= 12 && 1 <= d.day <= DaysInMonth(d.year, d.month)
  }

  predicate ValidDateTime(t: DateTime) {
    ValidDate(t.date) && 0 <= t.hour <= 23 && 0 <= t.minute <= 59 && 0 <= t.second <= 59
  }

  /** Strict chronological order of dates. */
  predicate DateBefore(a: Date, b: Date) {
    a.year < b.year
    || (a.year == b.year && a.month < b.month)
    || (a.year == b.year && a.month == b.month && a.day < b.day)
  }

  /** Strict chronological order of date-times. */
  predicate DateTimeBefore(a: DateTime, b: DateTime) {
    DateBefore(a.date, b.date)
    || (a.date == b.date && a.hour < b.hour)
    || (a.date == b.date && a.hour == b.hour && a.minute < b.minute)
    || (a.date == b.date && a.hour == b.hour && a.minute == b.minute && a.second < b.second)
  }

  /** A date compared with a date-time stands for the start of that day. */
  function Midnight(d: Date): DateTime {
    DateTime(d, 0, 0, 0)
  }

  /** `d + timedelta(days=1)`: fails with OverflowError past the last representable day. */
  function NextDay(d: Date): (r: Result<Date>)
    requires ValidDate(d)
    ensures r.Ok? <==> d != Date(MaxYear, 12, 31)
    ensures r.Ok? ==> ValidDate(r.value) && DateBefore(d, r.value)
  {
    if d.day < DaysInMonth(d.year, d.month) then Ok(Date(d.year, d.month, d.day + 1))
    else if d.month < 12 then Ok(Date(d.year, d.month + 1, 1))
    else if d.year < MaxYear then Ok(Date(d.year + 1, 1, 1))
    else Err("OverflowError: date value out of range")
  }

  /** No valid date lies strictly between a date and the next one. */
  lemma NextDayIsSuccessor(d: Date, e: Date)
    requires ValidDate(d) && ValidDate(e) && NextDay(d).Ok?
    ensures DateBefore(e, NextDay(d).value) <==> !DateBefore(d, e)
  {
  }

  /**
   * The half-open interval [start, end + 1 day) holds a date-time exactly when its
   * calendar date lies between start and end, both included.
   */
  lemma HalfOpenDayRange(t: DateTime, start: Date, end: Date)
    requires ValidDateTime(t) && ValidDate(start) && ValidDate(end) && NextDay(end).Ok?
    ensures (!DateTimeBefore(t, Midnight(start)) && DateTimeBefore(t, Midnight(NextDay(end).value)))
        <==> (!DateBefore(t.date, start) && !DateBefore(end, t.date))
  {
    NextDayIsSuccessor(end, t.date);
  }

  // ---------------------------------------------------------------- digits

  predicate IsDigit(c: char) {
    '0' <= c <= '9'
  }

  predicate AllDigits(s: string) {
    forall i :: 0 <= i < |s| ==> IsDigit(s[i])
  }

  function Digit(n: nat): (c: char)
    requires n < 10
    ensures IsDigit(c)
  {
    ('0' as int + n) as char
  }

  function DigitValue(c: char): (n: nat)
    requires IsDigit(c)
    ensures n < 10 && Digit(n) == c
  {
    c as int - '0' as int
  }

  /** The decimal value of a run of ASCII digits, as int() reads it. */
  function Number(s: string): (n: nat)
    requires AllDigits(s)
  {
    if s == [] then 0 else Number(s[..|s| - 1]) * 10 + DigitValue(s[|s| - 1])
  }

  function Pad2(n: nat): (r: string)
    requires n < 100
    ensures |r| == 2 && AllDigits(r)
  {
    [Digit(n / 10), Digit(n % 10)]
  }

  function Pad4(n: nat): (r: string)
    requires n < 10000
    ensures |r| == 4 && AllDigits(r)
  {
    Pad2(n / 100) + Pad2(n % 100)
  }

  lemma Number2(s: string)
    requires |s| == 2 && AllDigits(s)
    ensures Number(s) == DigitValue(s[0]) * 10 + DigitValue(s[1])
    ensures Number(s) < 100
  {
    assert s[..1][..0] == [];
    assert Number(s[..1]) == DigitValue(s[0]);
  }

  lemma Number4(s: string)
    requires |s| == 4 && AllDigits(s)
    ensures Number(s) == Number(s[..2]) * 100 + Number(s[2..])
    ensures Number(s) < 10000
  {
    assert s[..3][..2] == s[..2];
    assert s[2..][..1] == s[2..3];
    Number2(s[..2]);
    Number2(s[2..]);
    Number2(s[..3][1..]);
    assert Number(s[..3]) == Number(s[..2]) * 10 + DigitValue(s[2]);
  }

  lemma DivMod100(x: nat, y: nat)
    requires y < 100
    ensures (x * 100 + y) / 100 == x && (x * 100 + y) % 100 == y
  {
  }

  /** Zero padding to two digits reads back as the number, and every two-digit text is such a padding. */
  lemma Pad2RoundTrip(n: nat, s: string)
    requires n < 100 && |s| == 2 && AllDigits(s)
    ensures Number(Pad2(n)) == n
    ensures Number(s) < 100 && Pad2(Number(s)) == s
  {
    Number2(Pad2(n));
    Number2(s);
  }

  lemma Pad4Value(n: nat)
    requires n < 10000
    ensures Number(Pad4(n)) == n
  {
    var r := Pad4(n);
    Number4(r);
    assert r[..2] == Pad2(n / 100) && r[2..] == Pad2(n % 100);
    Pad2RoundTrip(n / 100, "00");
    Pad2RoundTrip(n % 100, "00");
  }

  lemma Pad4OfNumber(s: string)
    requires |s| == 4 && AllDigits(s)
    ensures Number(s) < 10000 && Pad4(Number(s)) == s
  {
    Number4(s);
    Pad2RoundTrip(0, s[..2]);
    Pad2RoundTrip(0, s[2..]);
    DivMod100(Number(s[..2]), Number(s[2..]));
    assert s == s[..2] + s[2..];
  }

  lemma Pad4RoundTrip(n: nat, s: string)
    requires n < 10000 && |s| == 4 && AllDigits(s)
    ensures Number(Pad4(n)) == n
    ensures Number(s) < 10000 && Pad4(Number(s)) == s
  {
    Pad4Value(n);
    Pad4OfNumber(s);
  }

  // ---------------------------------------------------------------- canonical text

  /** strftime("%Y-%m-%d %H:%M:%S"). */
  function Format(t: DateTime): (r: string)
    requires ValidDateTime(t)
  {
    Pad4(t.date.year) + "-" + Pad2(t.date.month) + "-" + Pad2(t.date.day) + " "
    + Pad2(t.hour) + ":" + Pad2(t.minute) + ":" + Pad2(t.second)
  }

  /** The shape of the canonical text: 19 characters, digits except the separators. */
  predicate CanonicalShape(s: string) {
    && |s| == 19
    && s[4] == '-' && s[7] == '-' && s[10] == ' ' && s[13] == ':' && s[16] == ':'
    && AllDigits(s[0..4]) && AllDigits(s[5..7]) && AllDigits(s[8..10])
    && AllDigits(s[11..13]) && AllDigits(s[14..16]) && AllDigits(s[17..19])
  }

  /** Reads a canonical text back into a date-time; None unless it names a valid one. */
  function ParseCanonical(s: string): Option<DateTime> {
    if !CanonicalShape(s) then None
    else
      var t := DateTime(Date(Number(s[0..4]), Number(s[5..7]), Number(s[8..10])),
                        Number(s[11..13]), Number(s[14..16]), Number(s[17..19]));
      if ValidDateTime(t) then Some(t) else None
  }

  lemma FormatSlices(t: DateTime)
    requires ValidDateTime(t)
    ensures var r := Format(t);
      && |r| == 19
      && r[4] == '-' && r[7] == '-' && r[10] == ' ' && r[13] == ':' && r[16] == ':'
      && r[0..4] == Pad4(t.date.year) && r[5..7] == Pad2(t.date.month) && r[8..10] == Pad2(t.date.day)
      && r[11..13] == Pad2(t.hour) && r[14..16] == Pad2(t.minute) && r[17..19] == Pad2(t.second)
  {
    Layout(Pad4(t.date.year), Pad2(t.date.month), Pad2(t.date.day), Pad2(t.hour), Pad2(t.minute), Pad2(t.second));
  }

  /** Where the six fields and five separators of the canonical text sit. */
  lemma Layout(y: string, mo: string, d: string, h: string, mi: string, s: string)
    requires |y| == 4 && |mo| == 2 && |d| == 2 && |h| == 2 && |mi| == 2 && |s| == 2
    ensures var r := y + "-" + mo + "-" + d + " " + h + ":" + mi + ":" + s;
      && |r| == 19
      && r[4] == '-' && r[7] == '-' && r[10] == ' ' && r[13] == ':' && r[16] == ':'
      && r[0..4] == y && r[5..7] == mo && r[8..10] == d
      && r[11..13] == h && r[14..16] == mi && r[17..19] == s
  {
    var r := y + "-" + mo + "-" + d + " " + h + ":" + mi + ":" + s;
    assert forall k :: 0 <= k < 4 ==> r[k] == y[k];
    assert forall k :: 0 <= k < 2 ==> r[5 + k] == mo[k] && r[8 + k] == d[k];
    assert forall k :: 0 <= k < 2 ==> r[11 + k] == h[k] && r[14 + k] == mi[k] && r[17 + k] == s[k];
  }

  /** The formatted text has the canonical shape and reads back as the same date-time. */
  lemma FormatRoundTrip(t: DateTime)
    requires ValidDateTime(t)
    ensures CanonicalShape(Format(t))
    ensures ParseCanonical(Format(t)) == Some(t)
  {
    FormatSlices(t);
    Pad4RoundTrip(t.date.year, "0000");
    Pad2RoundTrip(t.date.month, "00");
    Pad2RoundTrip(t.date.day, "00");
    Pad2RoundTrip(t.hour, "00");
    Pad2RoundTrip(t.minute, "00");
    Pad2RoundTrip(t.second, "00");
  }

  /** Every text that reads as a date-time is exactly the formatting of it. */
  lemma ParseCanonicalIsFormat(s: string)
    requires ParseCanonical(s).Some?
    ensures Format(ParseCanonical(s).value) == s
  {
    var t := ParseCanonical(s).value;
    Pad4RoundTrip(0, s[0..4]);
    Pad2RoundTrip(0, s[5..7]);
    Pad2RoundTrip(0, s[8..10]);
    Pad2RoundTrip(0, s[11..13]);
    Pad2RoundTrip(0, s[14..16]);
    Pad2RoundTrip(0, s[17..19]);
    FormatSlices(t);
    var r := Format(t);
    assert forall i :: 0 <= i < 19 ==> r[i] == s[i] by {
      forall i | 0 <= i < 19
        ensures r[i] == s[i]
      {
        if i < 4 { assert r[i] == r[0..4][i]; assert s[i] == s[0..4][i]; }
        else if 5 <= i < 7 { assert r[i] == r[5..7][i - 5]; assert s[i] == s[5..7][i - 5]; }
        else if 8 <= i < 10 { assert r[i] == r[8..10][i - 8]; assert s[i] == s[8..10][i - 8]; }
        else if 11 <= i < 13 { assert r[i] == r[11..13][i - 11]; assert s[i] == s[11..13][i - 11]; }
        else if 14 <= i < 16 { assert r[i] == r[14..16][i - 14]; assert s[i] == s[14..16][i - 14]; }
        else if 17 <= i < 19 { assert r[i] == r[17..19][i - 17]; assert s[i] == s[17..19][i - 17]; }
      }
    }
  }
}
