/**
 * JSON text for the `topic` column: Python's json.dumps of a list of strings (default
 * settings: ensure_ascii, ", " between items) and json.loads of such a text, restricted
 * to a JSON array of strings (section 5 and section 7 of RFC 8259).
 */
module Json {
  import opened Wrappers

  // ---------------------------------------------------------------- encoding

  /** A lower-case hexadecimal digit, as json.dumps writes them. */
  function HexDigit(d: nat): (c: char)
    requires d < 16
    ensures '0' <= c <= '9' || 'a' <= c <= 'f'
  {
    if d < 10 then ('0' as int + d) as char else ('a' as int + d - 10) as char
  }

  /** Four hexadecimal digits for a code unit below 0x10000, most significant first. */
  function Hex4(n: nat): string
    requires n < 0x10000
  {
    [HexDigit(n / 16 / 16 / 16), HexDigit(n / 16 / 16 % 16), HexDigit(n / 16 % 16), HexDigit(n % 16)]
  }

  /** The escape json.dumps writes for one character of a string (ensure_ascii). */
  function EscapeChar(c: char): string {
    var n := c as int;
    if c == '"' then "\\\""
    else if c == '\\' then "\\\\"
    else if c == '\n' then "\\n"
    else if c == '\r' then "\\r"
    else if c == '\t' then "\\t"
    else if n == 8 then "\\b"
    else if n == 12 then "\\f"
    else if ' ' <= c <= '~' then [c]
    else if n < 0x10000 then "\\u" + Hex4(n)
    else
      // a UTF-16 surrogate pair
      var v := n - 0x10000;
      "\\u" + Hex4(0xD800 + v / 0x400) + "\\u" + Hex4(0xDC00 + v % 0x400)
  }

  function EscapeString(s: string): string {
    if s == [] then "" else EscapeChar(s[0]) + EscapeString(s[1..])
  }

  /** json.dumps of one string. */
  function EncodeString(s: string): string {
    "\"" + EscapeString(s) + "\""
  }

  function EncodeItems(xs: seq<string>): string {
    if xs == [] then ""
    else if |xs| == 1 then EncodeString(xs[0])
    else EncodeString(xs[0]) + ", " + EncodeItems(xs[1..])
  }

  /** json.dumps of a list of strings. */
  function EncodeList(xs: seq<string>): string {
    "[" + EncodeItems(xs) + "]"
  }

  // ---------------------------------------------------------------- decoding

  /** The four whitespace characters JSON allows between tokens. */
  predicate IsJsonSpace(c: char) {
    c == ' ' || c == '\t' || c == '\n' || c == '\r'
  }

  function SkipWs(s: string): (r: string)
    ensures |r| <= |s|
  {
    if s != [] && IsJsonSpace(s[0]) then SkipWs(s[1..]) else s
  }

  /** The value of one hexadecimal digit in either case. */
  function HexValue(c: char): Option<nat> {
    if '0' <= c <= '9' then Some(c as int - '0' as int)
    else if 'a' <= c <= 'f' then Some(c as int - 'a' as int + 10)
    else if 'A' <= c <= 'F' then Some(c as int - 'A' as int + 10)
    else None
  }

  /** The code unit written by the first four characters of s. */
  function Hex4Value(s: string): Option<nat>
    requires |s| >= 4
  {
    var a :- HexValue(s[0]);
    var b :- HexValue(s[1]);
    var c :- HexValue(s[2]);
    var d :- HexValue(s[3]);
    Some(((a * 16 + b) * 16 + c) * 16 + d)
  }

  /**
   * A \u escape, s being what follows "\u". A high surrogate followed by a \u escape
   * of a low surrogate joins into one character; a surrogate left alone is refused.
   */
  function ParseUnicodeEscape(s: string): (r: Option<(char, string)>)
    ensures r.Some? ==> |r.value.1| < |s|
  {
    if |s| < 4 then None
    else
      var hi :- Hex4Value(s);
      if 0xD800 <= hi <= 0xDBFF && |s| > 10 && s[4] == '\\' && s[5] == 'u' then
        var lo :- Hex4Value(s[6..]);
        if 0xDC00 <= lo <= 0xDFFF then
          Some(((0x10000 + (hi - 0xD800) * 0x400 + (lo - 0xDC00)) as char, s[10..]))
        else None
      else if 0xD800 <= hi <= 0xDFFF then None
      else Some((hi as char, s[4..]))
  }

  /** One character of a string body: a plain character or an escape. */
  function ParseChar(s: string): (r: Option<(char, string)>)
    requires s != []
    ensures r.Some? ==> |r.value.1| < |s|
  {
    var c := s[0];
    if c == '"' || (c as int) < 0x20 then None
    else if c != '\\' then Some((c, s[1..]))
    else if |s| < 2 then None
    else
      var e := s[1];
      if e == '"' then Some(('"', s[2..]))
      else if e == '\\' then Some(('\\', s[2..]))
      else if e == '/' then Some(('/', s[2..]))
      else if e == 'b' then Some((8 as char, s[2..]))
      else if e == 'f' then Some((12 as char, s[2..]))
      else if e == 'n' then Some(('\n', s[2..]))
      else if e == 'r' then Some(('\r', s[2..]))
      else if e == 't' then Some(('\t', s[2..]))
      else if e == 'u' then ParseUnicodeEscape(s[2..])
      else None
  }

  /** The rest of a string after its opening quote: its value and what follows the closing quote. */
  function ParseStringBody(s: string): (r: Option<(string, string)>)
    ensures r.Some? ==> |r.value.1| < |s|
    decreases |s|
  {
    if s == [] then None
    else if s[0] == '"' then Some(([], s[1..]))
    else
      var (c, rest) :- ParseChar(s);
      var (t, after) :- ParseStringBody(rest);
      Some(([c] + t, after))
  }

  function ParseString(s: string): (r: Option<(string, string)>)
    ensures r.Some? ==> |r.value.1| < |s|
  {
    if s != [] && s[0] == '"' then ParseStringBody(s[1..]) else None
  }

  /** The items of a non-empty array and what follows its closing bracket. */
  function ParseItems(s: string): (r: Option<(seq<string>, string)>)
    decreases |s|
  {
    var (x, rest) :- ParseString(s);
    var t := SkipWs(rest);
    if t != [] && t[0] == ']' then Some(([x], t[1..]))
    else if t != [] && t[0] == ',' then
      var (xs, after) :- ParseItems(SkipWs(t[1..]));
      Some(([x] + xs, after))
    else None
  }

  function ParseArray(s: string): Option<(seq<string>, string)> {
    if s == [] || s[0] != '[' then None
    else
      var t := SkipWs(s[1..]);
      if t != [] && t[0] == ']' then Some(([], t[1..])) else ParseItems(t)
  }

  /** json.loads of a text that must hold one array of strings and nothing else. */
  function DecodeList(s: string): Option<seq<string>> {
    var (xs, rest) :- ParseArray(SkipWs(s));
    if SkipWs(rest) == [] then Some(xs) else None
  }

  // ---------------------------------------------------------------- round trip

  lemma HexDigitValue(d: nat)
    requires d < 16
    ensures HexValue(HexDigit(d)) == Some(d)
  {
  }

  lemma {:induction false} Hex4RoundTrip(n: nat, rest: string)
    requires n < 0x10000
    ensures Hex4Value(Hex4(n) + rest) == Some(n)
  {
    var s := Hex4(n) + rest;
    HexDigitValue(n / 16 / 16 / 16);
    HexDigitValue(n / 16 / 16 % 16);
    HexDigitValue(n / 16 % 16);
    HexDigitValue(n % 16);
    assert s[0] == HexDigit(n / 16 / 16 / 16);
    assert s[1] == HexDigit(n / 16 / 16 % 16);
    assert s[2] == HexDigit(n / 16 % 16);
    assert s[3] == HexDigit(n % 16);
  }

  /** A \u escape of a character of the Basic Multilingual Plane reads back as that character. */
  lemma {:induction false} BmpEscapeRoundTrip(c: char, rest: string)
    requires c as int < 0x10000
    ensures ParseChar("\\u" + Hex4(c as int) + rest) == Some((c, rest))
  {
    var s := "\\u" + Hex4(c as int) + rest;
    assert s[2..] == Hex4(c as int) + rest;
    Hex4RoundTrip(c as int, rest);
    assert (Hex4(c as int) + rest)[4..] == rest;
  }

  /** The code units of a surrogate pair join back into the character they split. */
  lemma SurrogateArithmetic(n: int)
    requires 0x10000 <= n < 0x110000
    ensures var v := n - 0x10000;
      && 0xD800 <= 0xD800 + v / 0x400 <= 0xDBFF
      && 0xDC00 <= 0xDC00 + v % 0x400 <= 0xDFFF
      && 0x10000 + (0xD800 + v / 0x400 - 0xD800) * 0x400 + (0xDC00 + v % 0x400 - 0xDC00) == n
  {
  }

  /** Two \u escapes holding a high and a low surrogate read back as one character. */
  lemma {:induction false} PairUnitsRoundTrip(hi: nat, lo: nat, rest: string)
    requires 0xD800 <= hi <= 0xDBFF && 0xDC00 <= lo <= 0xDFFF && rest != []
    ensures ParseUnicodeEscape(Hex4(hi) + "\\u" + Hex4(lo) + rest)
      == Some(((0x10000 + (hi - 0xD800) * 0x400 + (lo - 0xDC00)) as char, rest))
  {
    var tail := Hex4(lo) + rest;
    var u := Hex4(hi) + "\\u" + Hex4(lo) + rest;
    assert u == Hex4(hi) + ("\\u" + tail);
    Hex4RoundTrip(hi, "\\u" + tail);
    assert u[4] == '\\' && u[5] == 'u';
    assert u[6..] == tail;
    Hex4RoundTrip(lo, rest);
    assert u[10..] == rest;
    PairUnitsJoin(u, hi, lo);
  }

  /** Two \u escapes whose code units are a high and a low surrogate join into one character. */
  lemma PairUnitsJoin(u: string, hi: nat, lo: nat)
    requires |u| > 10 && u[4] == '\\' && u[5] == 'u'
    requires 0xD800 <= hi <= 0xDBFF && 0xDC00 <= lo <= 0xDFFF
    requires Hex4Value(u) == Some(hi) && Hex4Value(u[6..]) == Some(lo)
    ensures ParseUnicodeEscape(u) == Some(((0x10000 + (hi - 0xD800) * 0x400 + (lo - 0xDC00)) as char, u[10..]))
  {
  }

  lemma EscapeCharPair(c: char)
    requires c as int >= 0x10000
    ensures var v := c as int - 0x10000;
      EscapeChar(c) == "\\u" + Hex4(0xD800 + v / 0x400) + "\\u" + Hex4(0xDC00 + v % 0x400)
  {
  }

  lemma ParseCharUnicode(s: string)
    requires |s| >= 2 && s[0] == '\\' && s[1] == 'u'
    ensures ParseChar(s) == ParseUnicodeEscape(s[2..])
  {
  }

  /** A surrogate-pair escape reads back as the character, when something follows it. */
  lemma {:induction false} PairEscapeRoundTrip(c: char, hi: nat, lo: nat, e: string, rest: string)
    requires c as int >= 0x10000 && rest != []
    requires hi == 0xD800 + (c as int - 0x10000) / 0x400 && lo == 0xDC00 + (c as int - 0x10000) % 0x400
    requires e == "\\u" + Hex4(hi) + "\\u" + Hex4(lo)
    ensures ParseChar(e + rest) == Some((c, rest))
  {
    SurrogateArithmetic(c as int);
    var s := "\\u" + Hex4(hi) + "\\u" + Hex4(lo) + rest;
    assert e + rest == s;
    assert s[2..] == Hex4(hi) + "\\u" + Hex4(lo) + rest;
    ParseCharUnicode(s);
    PairUnitsRoundTrip(hi, lo, rest);
  }

  /** The two-character escapes read back as their character. */
  lemma ShortEscapeRoundTrip(c: char, rest: string)
    requires c == '"' || c == '\\' || c == '\n' || c == '\r' || c == '\t' || c as int == 8 || c as int == 12
    ensures ParseChar(EscapeChar(c) + rest) == Some((c, rest))
  {
    var s := EscapeChar(c) + rest;
    assert |EscapeChar(c)| == 2 && EscapeChar(c)[0] == '\\';
    assert s[2..] == rest;
  }

  /** A printable ASCII character other than a quote or a backslash is written as itself. */
  lemma PrintableRoundTrip(c: char, rest: string)
    requires ' ' <= c <= '~' && c != '"' && c != '\\'
    ensures ParseChar(EscapeChar(c) + rest) == Some((c, rest))
  {
    assert EscapeChar(c) == [c];
    assert ([c] + rest)[1..] == rest;
  }

  /** Every escape json.dumps writes reads back as its character. */
  lemma {:induction false} EscapeCharRoundTrip(c: char, rest: string)
    requires rest != []
    ensures ParseChar(EscapeChar(c) + rest) == Some((c, rest))
  {
    var n := c as int;
    if c == '"' || c == '\\' || c == '\n' || c == '\r' || c == '\t' || n == 8 || n == 12 {
      ShortEscapeRoundTrip(c, rest);
    } else if ' ' <= c <= '~' {
      PrintableRoundTrip(c, rest);
    } else if n < 0x10000 {
      BmpEscapeRoundTrip(c, rest);
    } else {
      var v := n - 0x10000;
      EscapeCharPair(c);
      PairEscapeRoundTrip(c, 0xD800 + v / 0x400, 0xDC00 + v % 0x400, EscapeChar(c), rest);
    }
  }

  /** No escape begins with a quote or a control character, so none ends a string early. */
  lemma EscapeCharStart(c: char)
    ensures |EscapeChar(c)| > 0
    ensures EscapeChar(c)[0] != '"' && EscapeChar(c)[0] as int >= 0x20
  {
  }

  lemma {:induction false} EscapeStringRoundTrip(s: string, rest: string)
    ensures ParseStringBody(EscapeString(s) + "\"" + rest) == Some((s, rest))
  {
    if s == [] {
      assert EscapeString(s) + "\"" + rest == ['"'] + rest;
    } else {
      var tail := EscapeString(s[1..]) + "\"" + rest;
      var whole := EscapeString(s) + "\"" + rest;
      assert whole == EscapeChar(s[0]) + tail;
      EscapeCharStart(s[0]);
      assert whole[0] == EscapeChar(s[0])[0];
      EscapeCharRoundTrip(s[0], tail);
      EscapeStringRoundTrip(s[1..], rest);
      assert [s[0]] + s[1..] == s;
    }
  }

  /** json.loads reads back the string json.dumps wrote, leaving what follows. */
  lemma EncodeStringRoundTrip(s: string, rest: string)
    ensures ParseString(EncodeString(s) + rest) == Some((s, rest))
  {
    var whole := EncodeString(s) + rest;
    assert whole[1..] == EscapeString(s) + "\"" + rest;
    EscapeStringRoundTrip(s, rest);
  }

  lemma EncodeItemsStart(xs: seq<string>)
    requires xs != []
    ensures |EncodeItems(xs)| > 0 && EncodeItems(xs)[0] == '"'
  {
  }

  /** The separator json.dumps writes between items is skipped up to the next string. */
  lemma SeparatorSkipped(more: string)
    requires more != [] && more[0] == '"'
    ensures SkipWs(", " + more) == ", " + more
    ensures SkipWs((", " + more)[1..]) == more
  {
    assert (", " + more)[1..] == [' '] + more;
    assert ([' '] + more)[1..] == more;
  }

  /** ParseItems reads one string, a comma and the remaining items. */
  lemma ItemsCons(s: string, x: string, more: string, xs: seq<string>, rest: string)
    requires ParseString(s) == Some((x, ", " + more))
    requires more != [] && more[0] == '"'
    requires ParseItems(more) == Some((xs, rest))
    ensures ParseItems(s) == Some(([x] + xs, rest))
  {
    SeparatorSkipped(more);
  }

  lemma EncodeItemsCons(xs: seq<string>)
    requires |xs| > 1
    ensures EncodeItems(xs) == EncodeString(xs[0]) + ", " + EncodeItems(xs[1..])
  {
  }

  /** The first item of an encoded list reads back, leaving ", " and the other items. */
  lemma ItemsHead(xs: seq<string>, rest: string)
    requires |xs| > 1
    ensures ParseString(EncodeItems(xs) + "]" + rest) == Some((xs[0], ", " + (EncodeItems(xs[1..]) + "]" + rest)))
  {
    var more := EncodeItems(xs[1..]) + "]" + rest;
    EncodeItemsCons(xs);
    Regroup(EncodeString(xs[0]), ", ", EncodeItems(xs[1..]), "]", rest);
    EncodeStringRoundTrip(xs[0], ", " + more);
  }

  lemma Regroup(a: string, b: string, c: string, d: string, e: string)
    ensures a + b + c + d + e == a + (b + (c + d + e))
  {
  }

  /** One step of ItemsRoundTrip: a string, ", ", then items that read back. */
  lemma ItemsStep(xs: seq<string>, rest: string)
    requires |xs| > 1
    requires ParseItems(EncodeItems(xs[1..]) + "]" + rest) == Some((xs[1..], rest))
    ensures ParseItems(EncodeItems(xs) + "]" + rest) == Some((xs, rest))
  {
    var more := EncodeItems(xs[1..]) + "]" + rest;
    var whole := EncodeItems(xs) + "]" + rest;
    ItemsHead(xs, rest);
    EncodeItemsStart(xs[1..]);
    ItemsCons(whole, xs[0], more, xs[1..], rest);
    assert [xs[0]] + xs[1..] == xs;
  }

  lemma {:induction false} ItemsRoundTrip(xs: seq<string>, rest: string)
    requires xs != []
    ensures ParseItems(EncodeItems(xs) + "]" + rest) == Some((xs, rest))
  {
    if |xs| == 1 {
      var after := "]" + rest;
      assert EncodeItems(xs) + "]" + rest == EncodeString(xs[0]) + after;
      EncodeStringRoundTrip(xs[0], after);
      assert SkipWs(after) == after;
      assert after[1..] == rest;
      assert xs == [xs[0]];
    } else {
      ItemsRoundTrip(xs[1..], rest);
      ItemsStep(xs, rest);
    }
  }

  /** Decoding the stored topic gives back exactly the list of categories that was encoded. */
  lemma ListRoundTrip(xs: seq<string>)
    ensures DecodeList(EncodeList(xs)) == Some(xs)
  {
    var s := EncodeList(xs);
    assert SkipWs(s) == s;
    var t := EncodeItems(xs) + "]";
    assert s[1..] == t;
    if xs == [] {
      assert t == "]";
    } else {
      EncodeItemsStart(xs);
      assert SkipWs(t) == t;
      ItemsRoundTrip(xs, "");
      assert EncodeItems(xs) + "]" + "" == t;
    }
  }

  lemma EscapeCharIsAscii(c: char)
    ensures forall i :: 0 <= i < |EscapeChar(c)| ==> ' ' <= EscapeChar(c)[i] <= '~'
  {
    var n := c as int;
    if n >= 0x10000 {
      EscapeCharPair(c);
    } else if n < 0x10000 && !(' ' <= c <= '~') && n !in {8, 9, 10, 12, 13} && c != '"' && c != '\\' {
      assert EscapeChar(c) == "\\u" + Hex4(n);
    }
  }

  /** json.dumps with ensure_ascii writes printable ASCII only. */
  lemma {:induction false} EscapeStringIsAscii(s: string)
    ensures forall i :: 0 <= i < |EscapeString(s)| ==> ' ' <= EscapeString(s)[i] <= '~'
  {
    if s != [] {
      EscapeStringIsAscii(s[1..]);
      EscapeCharIsAscii(s[0]);
      var e, t := EscapeChar(s[0]), EscapeString(s[1..]);
      assert EscapeString(s) == e + t;
    }
  }
}
