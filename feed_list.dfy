/**
 * Feed-entry canonicalisation: the four fields kept from each feed post, the
 * publication-date parser that tries two RFC 822 date-time patterns (section 5 of
 * RFC 822 as updated by section 3.3 of RFC 2822) with Python's strptime and rewrites
 * the date as "YYYY-MM-DD HH:MM:SS", and the list that drops entries whose date fails.
 */
module FeedList {
  import opened Wrappers
  import opened Dates
  import opened Records
  import Text
  import Seqs

  /** A feed post as the feed parser hands it over: a dictionary of text fields. */
  type Post = map<string, string>

  /** The dictionary of the four fields kept from a post; `published` is still the feed's text. */
  datatype Item = Item(title: string, summary: string, link: string, published: string)

  /** `post.get(key, "")`. */
  function Get(post: Post, key: string): string {
    if key in post then post[key] else ""
  }

  function Necessary(post: Post): Item {
    Item(Get(post, "title"), Get(post, "summary"), Get(post, "link"), Get(post, "published"))
  }

  /** One item per post, in order; a field the post lacks becomes the empty string. */
  method GettingNecessaryList(posts: seq<Post>) returns (items: seq<Item>)
    ensures |items| == |posts|
    ensures forall i :: 0 <= i < |posts| ==> items[i] == Necessary(posts[i])
  {
    items := [];
    for i := 0 to |posts|
      invariant |items| == i
      invariant forall k :: 0 <= k < i ==> items[k] == Necessary(posts[k])
    {
      items := items + [Necessary(posts[i])];
    }
  }

  // ---------------------------------------------------------------- strptime pieces

  /** The C-locale abbreviations that %a and %b accept. */
  const WeekdayNames: seq<string> := ["Mon", "Tue", "Wed", "Thu", "Fri", "Sat", "Sun"]
  const MonthNames: seq<string> := ["Jan", "Feb", "Mar", "Apr", "May", "Jun", "Jul", "Aug", "Sep", "Oct", "Nov", "Dec"]

  /** strptime matches case-insensitively; ASCII letters fold to lower case. */
  function AsciiLower(c: char): char {
    if 'A' <= c <= 'Z' then (c as int + 32) as char else c
  }

  /** s starts with name, ignoring case. */
  predicate NameAt(s: string, name: string) {
    |name| <= |s| && forall i :: 0 <= i < |name| ==> AsciiLower(s[i]) == AsciiLower(name[i])
  }

  /** The first of names[k..] that s starts with, and what follows it. */
  function MatchName(s: string, names: seq<string>, k: nat): (r: Option<(nat, string)>)
    requires k <= |names|
    ensures r.Some? ==> k <= r.value.0 < |names| && NameAt(s, names[r.value.0])
                        && r.value.1 == s[|names[r.value.0]|..]
    decreases |names| - k
  {
    if k == |names| then None
    else if NameAt(s, names[k]) then Some((k, s[|names[k]|..]))
    else MatchName(s, names, k + 1)
  }

  /** A literal character of the pattern. */
  function Char(s: string, c: char): Option<string> {
    if s != [] && s[0] == c then Some(s[1..]) else None
  }

  /** A blank in the pattern matches one or more whitespace characters, as many as there are. */
  function Spaces1(s: string): Option<string> {
    if s != [] && Text.IsSpace(s[0]) then Some(Text.StripLeading(s)) else None
  }

  /** The length of the leading run of digits. */
  function DigitRun(s: string): (k: nat)
    ensures k <= |s| && AllDigits(s[..k])
    ensures k < |s| ==> !IsDigit(s[k])
  {
    if s == [] || !IsDigit(s[0]) then 0
    else
      var k := 1 + DigitRun(s[1..]);
      assert s[..k] == [s[0]] + s[1..][..k - 1];
      k
  }

  /**
   * A one- or two-digit field (%d, %H, %M, %S) with a value in lo..hi. The pattern
   * never lets a digit follow such a field, so the field is the whole digit run.
   */
  function Field(s: string, lo: nat, hi: nat): (r: Option<(nat, string)>)
    ensures r.Some? ==> lo <= r.value.0 <= hi
  {
    var k := DigitRun(s);
    if 1 <= k <= 2 && lo <= Number(s[..k]) <= hi then Some((Number(s[..k]), s[k..])) else None
  }

  /** %Y: exactly four digits. */
  function Year(s: string): (r: Option<(nat, string)>)
    ensures r.Some? ==> r.value.0 <= MaxYear
  {
    if |s| >= 4 && AllDigits(s[..4]) then
      Pad4OfNumber(s[..4]);
      Some((Number(s[..4]), s[4..]))
    else None
  }

  datatype DatePart = DatePart(weekday: nat, day: nat, month: nat, year: nat)
  datatype TimePart = TimePart(hour: nat, minute: nat, second: nat)

  /** The values the regular expressions of %a, %d, %b and %Y can produce. */
  predicate DateInRange(d: DatePart) {
    d.weekday < 7 && 1 <= d.day <= 31 && 1 <= d.month <= 12 && d.year <= MaxYear
  }

  /** The values the regular expressions of %H, %M and %S can produce (%S allows up to 61). */
  predicate TimeInRange(t: TimePart) {
    t.hour <= 23 && t.minute <= 59 && t.second <= 61
  }

  /** "%a, %d" and the blank after it: the weekday index and the day. */
  function ParseWeekdayDay(s: string): (r: Option<(nat, nat, string)>)
    ensures r.Some? ==> r.value.0 < 7 && 1 <= r.value.1 <= 31
  {
    var (w, s1) :- MatchName(s, WeekdayNames, 0);
    var s2 :- Char(s1, ',');
    var s3 :- Spaces1(s2);
    var (d, s4) :- Field(s3, 1, 31);
    var s5 :- Spaces1(s4);
    Some((w, d, s5))
  }

  /** "%b %Y" and the blank after it: the month (1 to 12) and the year. */
  function ParseMonthYear(s: string): (r: Option<(nat, nat, string)>)
    ensures r.Some? ==> 1 <= r.value.0 <= 12 && r.value.1 <= MaxYear
  {
    var (m, s1) :- MatchName(s, MonthNames, 0);
    var s2 :- Spaces1(s1);
    var (y, s3) :- Year(s2);
    var s4 :- Spaces1(s3);
    Some((m + 1, y, s4))
  }

  /** "%a, %d %b %Y" and the blank after it. */
  function ParseDatePart(s: string): (r: Option<(DatePart, string)>)
    ensures r.Some? ==> DateInRange(r.value.0)
  {
    var (w, d, s1) :- ParseWeekdayDay(s);
    var (m, y, s2) :- ParseMonthYear(s1);
    Some((DatePart(w, d, m, y), s2))
  }

  /** "%H:%M:%S" and the blank after it. */
  function ParseTimePart(s: string): (r: Option<(TimePart, string)>)
    ensures r.Some? ==> TimeInRange(r.value.0)
  {
    var (h, s1) :- Field(s, 0, 23);
    var s2 :- Char(s1, ':');
    var (mi, s3) :- Field(s2, 0, 59);
    var s4 :- Char(s3, ':');
    var (sec, s5) :- Field(s4, 0, 61);
    var s6 :- Spaces1(s5);
    Some((TimePart(h, mi, sec), s6))
  }

  /**
   * What follows the minutes of a %z offset: nothing, or seconds and an optional
   * fraction of one to six digits. The seconds carry a ':' exactly when the hours
   * did; otherwise the offset is refused.
   */
  function ZoneSeconds(t: string, colon: bool): (r: Option<nat>)
    ensures r.Some? ==> r.value <= 59
  {
    if t == [] then Some(0)
    else
      var c := t[0] == ':';
      var k := if c then 1 else 0;
      if |t| < k + 2 || !('0' <= t[k] <= '5') || !IsDigit(t[k + 1]) || c != colon then None
      else
        var f := t[k + 2..];
        if f == [] || (f[0] == '.' && 2 <= |f| <= 7 && AllDigits(f[1..])) then
          Number2(t[k..k + 2]);
          Some(Number(t[k..k + 2]))
        else None
  }

  /**
   * %z matched against the whole rest of the text: "Z", or a sign, two digits of
   * hours, an optional ':', two digits of minutes (first digit 0-5) and optional
   * seconds. The offset in seconds (the fraction dropped); it must stay below one day.
   */
  function ParseZone(z: string): (r: Option<int>)
    ensures r.Some? ==> z != [] && (z[0] == '+' || z[0] == '-' || z[0] == 'Z')
    ensures r.Some? ==> -86400 < r.value < 86400
  {
    if z == "Z" then Some(0)
    else if |z| < 5 || (z[0] != '+' && z[0] != '-') || !AllDigits(z[1..3]) then None
    else
      var colon := z[3] == ':';
      var m := if colon then 4 else 3;
      if |z| < m + 2 || !('0' <= z[m] <= '5') || !IsDigit(z[m + 1]) then None
      else
        var ss :- ZoneSeconds(z[m + 2..], colon);
        var total := Number(z[1..3]) * 3600 + Number(z[m..m + 2]) * 60 + ss;
        if total >= 86400 then None
        else Some(if z[0] == '-' then -total else total)
  }

  /** The literal "GMT" (any case) and nothing after it. */
  predicate IsGmt(z: string) {
    |z| == 3 && NameAt(z, "GMT")
  }

  /** The date-time datetime builds from the fields; None where it raises ValueError. */
  function Combine(d: DatePart, t: TimePart): (r: Option<DateTime>)
    requires DateInRange(d) && TimeInRange(t)
    ensures r.Some? ==> ValidDateTime(r.value)
    ensures r.Some? <==> (MinYear <= d.year && d.day <= DaysInMonth(d.year, d.month) && t.second <= 59)
  {
    if MinYear <= d.year && d.day <= DaysInMonth(d.year, d.month) && t.second <= 59 then
      Some(DateTime(Date(d.year, d.month, d.day), t.hour, t.minute, t.second))
    else None
  }

  /** The two patterns, in the order they are tried. */
  datatype Pattern =
    | WithOffset  // "%a, %d %b %Y %H:%M:%S %z"
    | WithGmt     // "%a, %d %b %Y %H:%M:%S GMT"

  /** What strptime returns: the fields as written, and the offset %z gave, if any. */
  datatype Stamp = Stamp(local: DateTime, offset: Option<int>)

  /** datetime.strptime(s, pattern); None where it raises ValueError. */
  function Strptime(s: string, p: Pattern): (r: Option<Stamp>)
    ensures r.Some? ==> ValidDateTime(r.value.local)
    ensures r.Some? ==> (r.value.offset.Some? <==> p == WithOffset)
  {
    var (d, s1) :- ParseDatePart(s);
    var (t, z) :- ParseTimePart(s1);
    var local :- Combine(d, t);
    match p
    case WithOffset =>
      var offset :- ParseZone(z);
      Some(Stamp(local, Some(offset)))
    case WithGmt =>
      if IsGmt(z) then Some(Stamp(local, None)) else None
  }

  /**
   * parse_date: the first pattern that matches decides, and its date-time is written
   * with strftime("%Y-%m-%d %H:%M:%S"), which prints the fields as they were written
   * and ignores any offset. ValueError when neither pattern matches.
   */
  function ParseDate(s: string): Result<string> {
    match Strptime(s, WithOffset)
    case Some(st) => Ok(Format(st.local))
    case None =>
      match Strptime(s, WithGmt)
      case Some(st) => Ok(Format(st.local))
      case None => Err("ValueError: Unknown date format: " + s)
  }

  // ---------------------------------------------------------------- properties of parse_date

  /** No text matches both patterns, so the order in which they are tried does not matter. */
  lemma PatternsDisjoint(s: string)
    ensures !(Strptime(s, WithOffset).Some? && Strptime(s, WithGmt).Some?)
  {
    if Strptime(s, WithGmt).Some? {
      var (d, s1) := ParseDatePart(s).value;
      var (t, z) := ParseTimePart(s1).value;
      GmtIsNoZone(z);
    }
  }

  /** A "GMT" suffix is not a %z offset. */
  lemma GmtIsNoZone(z: string)
    requires IsGmt(z)
    ensures ParseZone(z).None?
  {
    assert AsciiLower(z[0]) == 'g';
  }

  /** Every date parse_date returns is the 19-character canonical text of a valid date-time. */
  lemma ParseDateIsCanonical(s: string)
    requires ParseDate(s).Ok?
    ensures |ParseDate(s).value| == 19 && CanonicalShape(ParseDate(s).value)
    ensures ParseCanonical(ParseDate(s).value).Some?
    ensures Format(ParseCanonical(ParseDate(s).value).value) == ParseDate(s).value
  {
    var st := if Strptime(s, WithOffset).Some? then Strptime(s, WithOffset).value else Strptime(s, WithGmt).value;
    assert ParseDate(s).value == Format(st.local);
    FormatRoundTrip(st.local);
  }

  // ---------------------------------------------------------------- printing RSS dates

  /** The date part as a feed writes it, "Mon, 03 Feb 2025 ", then rest. */
  function RenderDate(d: DatePart, rest: string): string
    requires DateInRange(d)
  {
    WeekdayNames[d.weekday] + ("," + (" " + (Pad2(d.day) + (" " + (MonthNames[d.month - 1]
      + (" " + (Pad4(d.year) + (" " + rest))))))))
  }

  /** "10:20:30 ", then rest. */
  function RenderTime(t: TimePart, rest: string): string
    requires TimeInRange(t)
  {
    Pad2(t.hour) + (":" + (Pad2(t.minute) + (":" + (Pad2(t.second) + (" " + rest)))))
  }

  /** An RFC 822 numeric zone "+hhmm" or "-hhmm". */
  function RenderZone(negative: bool, hh: nat, mm: nat): string
    requires hh < 100 && mm < 100
  {
    (if negative then "-" else "+") + Pad2(hh) + Pad2(mm)
  }

  lemma DigitNotSpace(c: char)
    requires IsDigit(c)
    ensures !Text.IsSpace(c)
  {
  }

  lemma SpacesStep(rest: string)
    requires rest != [] && !Text.IsSpace(rest[0])
    ensures Spaces1(" " + rest) == Some(rest)
  {
    assert (" " + rest)[1..] == rest;
    assert Text.IsSpace(' ');
    assert Text.StripLeading(rest) == rest;
  }

  lemma CharStep(c: char, rest: string)
    ensures Char([c] + rest, c) == Some(rest)
  {
    assert ([c] + rest)[1..] == rest;
  }

  lemma FieldStep(n: nat, lo: nat, hi: nat, rest: string)
    requires lo <= n <= hi && n < 100
    requires rest == [] || !IsDigit(rest[0])
    ensures Field(Pad2(n) + rest, lo, hi) == Some((n, rest))
  {
    var s := Pad2(n) + rest;
    assert s[..2] == Pad2(n);
    assert DigitRun(s[2..]) == 0 by { assert s[2..] == rest; }
    assert DigitRun(s[1..]) == 1 by { assert s[1..][1..] == s[2..]; }
    Pad2RoundTrip(n, "00");
    assert s[2..] == rest;
  }

  lemma YearStep(n: nat, rest: string)
    requires n < 10000
    ensures Year(Pad4(n) + rest) == Some((n, rest))
  {
    var s := Pad4(n) + rest;
    assert s[..4] == Pad4(n) && s[4..] == rest;
    Pad4RoundTrip(n, "0000");
  }

  /** The three letters of a name folded to lower case, as one number. */
  function Code(s: string): int
    requires |s| >= 3
  {
    (AsciiLower(s[0]) as int * 0x110000 + AsciiLower(s[1]) as int) * 0x110000 + AsciiLower(s[2]) as int
  }

  /** Three-letter names no two of which are equal ignoring case. */
  predicate Distinct(names: seq<string>) {
    && (forall i :: 0 <= i < |names| ==> |names[i]| == 3)
    && (forall i, j :: 0 <= i < |names| && 0 <= j < |names| && i != j ==> Code(names[i]) != Code(names[j]))
  }

  /** Names with different codes differ ignoring case. */
  lemma CodeDiffers(s: string, name: string)
    requires |name| == 3 && |s| >= 3 && Code(s) != Code(name)
    ensures !NameAt(s, name)
  {
    if AsciiLower(s[0]) == AsciiLower(name[0]) && AsciiLower(s[1]) == AsciiLower(name[1]) {
      assert AsciiLower(s[2]) != AsciiLower(name[2]);
    } else if AsciiLower(s[0]) == AsciiLower(name[0]) {
      assert AsciiLower(s[1]) != AsciiLower(name[1]);
    }
  }

  lemma CodeOfPrefix(name: string, rest: string)
    requires |name| == 3
    ensures Code(name + rest) == Code(name)
  {
    assert (name + rest)[..3] == name;
  }

  lemma NameAtSelf(name: string, rest: string)
    ensures NameAt(name + rest, name)
  {
    assert forall i :: 0 <= i < |name| ==> (name + rest)[i] == name[i];
  }

  lemma {:induction false} NameStep(names: seq<string>, i: nat, k: nat, rest: string)
    requires Distinct(names) && k <= i < |names|
    ensures MatchName(names[i] + rest, names, k) == Some((i, rest))
    decreases i - k
  {
    var s := names[i] + rest;
    NameAtSelf(names[i], rest);
    assert s[|names[i]|..] == rest;
    if k < i {
      CodeOfPrefix(names[i], rest);
      CodeDiffers(s, names[k]);
      NameStep(names, i, k + 1, rest);
    }
  }

  lemma WeekdayNamesDistinct()
    ensures Distinct(WeekdayNames)
  {
    assert Code(WeekdayNames[0]) == 135295888457838;
    assert Code(WeekdayNames[1]) == 143984613982309;
    assert Code(WeekdayNames[2]) == 147708332802148;
    assert Code(WeekdayNames[3]) == 143984599498869;
    assert Code(WeekdayNames[4]) == 126607172960361;
    assert Code(WeekdayNames[5]) == 142743346151540;
    assert Code(WeekdayNames[6]) == 142743368433774;
  }

  lemma MonthNamesDistinct()
    ensures Distinct(MonthNames)
  {
    assert Code(MonthNames[0]) == 131572136214638;
    assert Code(MonthNames[1]) == 126607158476898;
    assert Code(MonthNames[2]) == 135295872860274;
    assert Code(MonthNames[3]) == 120400942989426;
    assert Code(MonthNames[4]) == 135295872860281;
    assert Code(MonthNames[5]) == 131572158496878;
    assert Code(MonthNames[6]) == 131572158496876;
    assert Code(MonthNames[7]) == 120400948559975;
    assert Code(MonthNames[8]) == 142743350607984;
    assert Code(MonthNames[9]) == 137778366185588;
    assert Code(MonthNames[10]) == 136537134006390;
    assert Code(MonthNames[11]) == 124124667379811;
  }

  lemma WeekdayDayRoundTrip(w: nat, day: nat, rest: string)
    requires w < 7 && 1 <= day <= 31 && rest != [] && !Text.IsSpace(rest[0])
    ensures ParseWeekdayDay(WeekdayNames[w] + ("," + (" " + (Pad2(day) + (" " + rest)))))
      == Some((w, day, rest))
  {
    var s3 := " " + rest;
    var s2 := Pad2(day) + s3;
    var s1 := " " + s2;
    WeekdayNamesDistinct();
    NameStep(WeekdayNames, w, 0, "," + s1);
    CharStep(',', s1);
    DigitNotSpace(s2[0]);
    SpacesStep(s2);
    FieldStep(day, 1, 31, s3);
    SpacesStep(rest);
  }

  lemma MonthYearRoundTrip(month: nat, year: nat, rest: string)
    requires 1 <= month <= 12 && year <= MaxYear && rest != [] && !Text.IsSpace(rest[0])
    ensures ParseMonthYear(MonthNames[month - 1] + (" " + (Pad4(year) + (" " + rest))))
      == Some((month, year, rest))
  {
    var s3 := " " + rest;
    var s2 := Pad4(year) + s3;
    MonthNamesDistinct();
    NameStep(MonthNames, month - 1, 0, " " + s2);
    DigitNotSpace(s2[0]);
    SpacesStep(s2);
    YearStep(year, s3);
    SpacesStep(rest);
  }

  /** The date part a feed writes reads back as the same fields. */
  lemma DatePartRoundTrip(d: DatePart, rest: string)
    requires DateInRange(d) && rest != [] && !Text.IsSpace(rest[0])
    ensures ParseDatePart(RenderDate(d, rest)) == Some((d, rest))
  {
    var tail := MonthNames[d.month - 1] + (" " + (Pad4(d.year) + (" " + rest)));
    MonthNamesDistinct();
    assert tail != [] && !Text.IsSpace(tail[0]);
    WeekdayDayRoundTrip(d.weekday, d.day, tail);
    MonthYearRoundTrip(d.month, d.year, rest);
  }

  /** The time part a feed writes reads back as the same fields. */
  lemma TimePartRoundTrip(t: TimePart, rest: string)
    requires TimeInRange(t) && rest != [] && !Text.IsSpace(rest[0])
    ensures ParseTimePart(RenderTime(t, rest)) == Some((t, rest))
  {
    var s5 := " " + rest;
    var s4 := Pad2(t.second) + s5;
    var s3 := ":" + s4;
    var s2 := Pad2(t.minute) + s3;
    var s1 := ":" + s2;
    FieldStep(t.hour, 0, 23, s1);
    CharStep(':', s2);
    FieldStep(t.minute, 0, 59, s3);
    CharStep(':', s4);
    FieldStep(t.second, 0, 61, s5);
    SpacesStep(rest);
  }

  /** A numeric zone of at most 23 hours 59 minutes reads back as its offset in seconds. */
  lemma ZoneRoundTrip(negative: bool, hh: nat, mm: nat)
    requires hh <= 23 && mm <= 59
    ensures ParseZone(RenderZone(negative, hh, mm))
      == Some(if negative then -(hh * 3600 + mm * 60) else hh * 3600 + mm * 60)
  {
    var z := RenderZone(negative, hh, mm);
    assert z[1..3] == Pad2(hh) && z[3..5] == Pad2(mm) && z[5..] == [];
    Pad2RoundTrip(hh, "00");
    Pad2RoundTrip(mm, "00");
  }

  /** A zone of 24 hours or more is refused, as datetime.timezone refuses it. */
  lemma ZoneOfADayRefused(negative: bool, hh: nat, mm: nat)
    requires 24 <= hh < 100 && mm <= 59
    ensures ParseZone(RenderZone(negative, hh, mm)) == None
  {
    var z := RenderZone(negative, hh, mm);
    assert z[1..3] == Pad2(hh) && z[3..5] == Pad2(mm) && z[5..] == [];
    Pad2RoundTrip(hh, "00");
    Pad2RoundTrip(mm, "00");
  }

  /** A "GMT" date round-trips: the result holds the day, month, year and time as written. */
  lemma GmtRoundTrip(d: DatePart, t: TimePart)
    requires DateInRange(d) && TimeInRange(t)
    ensures var r := ParseDate(RenderDate(d, RenderTime(t, "GMT")));
      match Combine(d, t)
      case Some(local) => r == Ok(Format(local))
      case None => r.Err?
  {
    var z := "GMT";
    var s1 := RenderTime(t, z);
    DigitNotSpace(s1[0]);
    DatePartRoundTrip(d, s1);
    TimePartRoundTrip(t, z);
    assert ParseZone(z) == None;
    assert IsGmt(z);
  }

  /**
   * A numeric-offset date keeps its wall-clock fields: the offset is dropped, not used to
   * convert the time to UTC. Whatever the offset, the result is the same text.
   */
  lemma OffsetDiscarded(d: DatePart, t: TimePart, negative: bool, hh: nat, mm: nat)
    requires DateInRange(d) && TimeInRange(t) && hh <= 23 && mm <= 59
    ensures var r := ParseDate(RenderDate(d, RenderTime(t, RenderZone(negative, hh, mm))));
      match Combine(d, t)
      case Some(local) => r == Ok(Format(local))
      case None => r.Err?
  {
    var z := RenderZone(negative, hh, mm);
    var s1 := RenderTime(t, z);
    DigitNotSpace(s1[0]);
    DatePartRoundTrip(d, s1);
    TimePartRoundTrip(t, z);
    ZoneRoundTrip(negative, hh, mm);
    assert !IsGmt(z);
  }

  /** The empty text, which a post without a date gets, matches neither pattern. */
  lemma EmptyDateRefused()
    ensures ParseDate("").Err?
  {
  }

  // ---------------------------------------------------------------- the final list

  predicate DateParses(item: Item) {
    ParseDate(item.published).Ok?
  }

  function ToArticle(item: Item): Article
    requires DateParses(item)
  {
    Article(item.title, item.summary, item.link, ParseDate(item.published).value)
  }

  function Articles(items: seq<Item>): (r: seq<Article>)
    requires forall x :: x in items ==> DateParses(x)
    ensures |r| == |items| && forall i :: 0 <= i < |items| ==> r[i] == ToArticle(items[i])
  {
    seq(|items|, i requires 0 <= i < |items| => ToArticle(items[i]))
  }

  /** the_final_list: the items whose date parses, in order, with the date rewritten. */
  function FinalList(items: seq<Item>): seq<Article> {
    Articles(Seqs.Filter(items, DateParses))
  }

  /**
   * The output keeps exactly the items whose date parses: each of them turns into an
   * article with its canonical date, nothing else appears, and the list never grows.
   */
  lemma FinalListKeepsExactly(items: seq<Item>)
    ensures |FinalList(items)| <= |items|
    ensures forall x :: x in items && DateParses(x) ==> ToArticle(x) in FinalList(items)
    ensures forall a :: a in FinalList(items) ==> exists x :: x in items && DateParses(x) && a == ToArticle(x)
  {
    var kept := Seqs.Filter(items, DateParses);
    var r := FinalList(items);
    forall x | x in items && DateParses(x)
      ensures ToArticle(x) in r
    {
      var i :| 0 <= i < |kept| && kept[i] == x;
      assert r[i] == ToArticle(x);
    }
    forall a | a in r
      ensures exists x :: x in items && DateParses(x) && a == ToArticle(x)
    {
      var i :| 0 <= i < |r| && r[i] == a;
      assert kept[i] in kept;
    }
  }

  /** Every article of the final list carries a canonical "YYYY-MM-DD HH:MM:SS" date. */
  lemma FinalListDatesCanonical(items: seq<Item>)
    ensures forall a :: a in FinalList(items) ==> ParseCanonical(a.published).Some?
  {
    forall a | a in FinalList(items)
      ensures ParseCanonical(a.published).Some?
    {
      FinalListKeepsExactly(items);
      var x :| x in items && DateParses(x) && a == ToArticle(x);
      ParseDateIsCanonical(x.published);
    }
  }

  /**
   * The final list is built in input order: one more item appends its article when
   * its date parses, and nothing otherwise.
   */
  lemma FinalListStep(items: seq<Item>, x: Item)
    ensures FinalList(items + [x]) == FinalList(items) + (if DateParses(x) then [ToArticle(x)] else [])
  {
    Seqs.FilterAppend(items, [x], DateParses);
    assert Seqs.Filter([x], DateParses) == (if DateParses(x) then [x] else []);
  }

  /** the_final_list: an item whose date raises is skipped; the others are appended in order. */
  method TheFinalList(items: seq<Item>) returns (out: seq<Article>)
    ensures out == FinalList(items)
  {
    out := [];
    for i := 0 to |items|
      invariant out == FinalList(items[..i])
    {
      var item := items[i];
      var parsed := ParseDate(item.published);
      FinalListStep(items[..i], item);
      assert items[..i + 1] == items[..i] + [item];
      if parsed.Ok? {
        out := out + [Article(item.title, item.summary, item.link, parsed.value)];
      }
    }
    assert items[..|items|] == items;
  }
}
