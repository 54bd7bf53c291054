/**
 * Python string primitives the pipeline relies on: whitespace (str.isspace, which
 * str.strip(), str.split() and the regex class \s share), strip, split and " ".join,
 * and the Unicode tables behind str.lower(), \w and \d, which stay abstract.
 */
module Text {

  /** str.isspace() for one character: the code points CPython treats as whitespace. */
  predicate IsSpace(c: char) {
    var n := c as int;
    || (9 <= n <= 13) || (28 <= n <= 32) || n == 0x85 || n == 0xA0 || n == 0x1680
    || (0x2000 <= n <= 0x200A) || n == 0x2028 || n == 0x2029 || n == 0x202F
    || n == 0x205F || n == 0x3000
  }

  /** Length of the leading run of whitespace. */
  function LeadingSpaces(s: string): (n: nat)
    ensures n <= |s|
    ensures forall i :: 0 <= i < n ==> IsSpace(s[i])
    ensures n < |s| ==> !IsSpace(s[n])
  {
    if s != [] && IsSpace(s[0]) then 1 + LeadingSpaces(s[1..]) else 0
  }

  /** s.lstrip(): drops the leading whitespace. */
  function StripLeading(s: string): (r: string)
    ensures r == [] || !IsSpace(r[0])
    ensures forall i :: 0 <= i < |s| - |r| ==> IsSpace(s[i])
  {
    s[LeadingSpaces(s)..]
  }

  /** s.rstrip(): drops the trailing whitespace. */
  function StripTrailing(s: string): (r: string)
    ensures |r| <= |s| && r == s[..|r|]
    ensures r == [] || !IsSpace(r[|r| - 1])
    ensures forall i :: |r| <= i < |s| ==> IsSpace(s[i])
  {
    if s != [] && IsSpace(s[|s| - 1]) then StripTrailing(s[..|s| - 1]) else s
  }

  /** s.strip() with no argument. */
  function Strip(s: string): string {
    StripTrailing(StripLeading(s))
  }

  /** `not s.strip()`: what the source tests to call a title or summary empty. */
  predicate IsBlank(s: string) {
    Strip(s) == []
  }

  /** A string is blank exactly when it splits into no words. */
  lemma BlankIffNoWords(s: string)
    ensures IsBlank(s) <==> Words(s) == []
  {
    var t := StripLeading(s);
    if t != [] {
      assert !IsSpace(t[0]);
    }
  }

  /** A string strips to nothing exactly when every character of it is whitespace. */
  lemma BlankIffAllSpace(s: string)
    ensures IsBlank(s) <==> forall i :: 0 <= i < |s| ==> IsSpace(s[i])
  {
  }

  /** A whitespace-split word: non-empty and free of whitespace. */
  predicate IsWord(w: string) {
    |w| > 0 && forall i :: 0 <= i < |w| ==> !IsSpace(w[i])
  }

  /** Length of the leading run of non-whitespace characters. */
  function WordEnd(s: string): (k: nat)
    ensures k <= |s|
    ensures k < |s| ==> IsSpace(s[k])
    ensures forall i :: 0 <= i < k ==> !IsSpace(s[i])
  {
    if s == [] || IsSpace(s[0]) then 0 else 1 + WordEnd(s[1..])
  }

  /** s.split() with no argument: the maximal runs of non-whitespace, in order. */
  function Words(s: string): (ws: seq<string>)
    ensures forall k :: 0 <= k < |ws| ==> IsWord(ws[k])
    decreases |s|
  {
    var t := StripLeading(s);
    if t == [] then []
    else
      var k := WordEnd(t);
      [t[..k]] + Words(t[k..])
  }

  /** " ".join(ws). */
  function JoinSpace(ws: seq<string>): string {
    if ws == [] then ""
    else if |ws| == 1 then ws[0]
    else ws[0] + " " + JoinSpace(ws[1..])
  }

  /** Leading whitespace does not change the split. */
  lemma WordsSkipSpace(c: char, s: string)
    requires IsSpace(c)
    ensures Words([c] + s) == Words(s)
  {
    assert ([c] + s)[1..] == s;
    assert StripLeading([c] + s) == StripLeading(s);
  }

  /** A word followed by whitespace or by nothing is split off whole. */
  lemma {:induction false} WordEndOfWord(w: string, rest: string)
    requires IsWord(w)
    requires rest == [] || IsSpace(rest[0])
    ensures WordEnd(w + rest) == |w|
  {
    if |w| > 1 {
      assert (w + rest)[1..] == w[1..] + rest;
      WordEndOfWord(w[1..], rest);
    } else {
      assert (w + rest)[1..] == rest;
    }
  }

  /** A word at the front of a string is the first item of its split. */
  lemma WordsOfWordThen(w: string, rest: string)
    requires IsWord(w)
    requires rest == [] || IsSpace(rest[0])
    ensures Words(w + rest) == [w] + Words(rest)
  {
    var s := w + rest;
    WordEndOfWord(w, rest);
    assert StripLeading(s) == s;
    assert s[..|w|] == w;
    assert s[|w|..] == rest;
  }

  /** A word, one space, then anything: the word is split off and the space dropped. */
  lemma WordsOfWordSpace(w: string, j: string)
    requires IsWord(w)
    ensures Words(w + " " + j) == [w] + Words(j)
  {
    var rest := [' '] + j;
    assert w + " " + j == w + rest;
    WordsOfWordThen(w, rest);
    WordsSkipSpace(' ', j);
  }

  lemma WordsOfSingle(w: string)
    requires IsWord(w)
    ensures Words(JoinSpace([w])) == [w]
  {
    WordsOfWordThen(w, "");
    assert w + "" == w;
  }

  lemma WordsOfJoinStep(ws: seq<string>)
    requires |ws| > 1 && IsWord(ws[0])
    requires Words(JoinSpace(ws[1..])) == ws[1..]
    ensures Words(JoinSpace(ws)) == ws
  {
    var w, tail := ws[0], ws[1..];
    WordsOfWordSpace(w, JoinSpace(tail));
    assert ws == [w] + tail;
  }

  /** Splitting a " ".join of words gives the words back. */
  lemma {:induction false} WordsOfJoin(ws: seq<string>)
    requires forall k :: 0 <= k < |ws| ==> IsWord(ws[k])
    ensures Words(JoinSpace(ws)) == ws
  {
    if |ws| == 1 {
      WordsOfSingle(ws[0]);
    } else if |ws| > 1 {
      WordsOfJoin(ws[1..]);
      WordsOfJoinStep(ws);
    }
  }

  /** The abstract Unicode tables behind str.lower() and the regex classes \w and \d. */
  datatype CharTable = CharTable(lower: char -> char, isWord: char -> bool, isDigit: char -> bool) {
    /** The facts about the Unicode tables that the model relies on. */
    predicate Valid() {
      && (forall c :: lower(lower(c)) == lower(c))
      && (forall c :: isWord(c) ==> !IsSpace(c))
      && !isWord('<') && !isWord('>')
      && lower('<') == '<' && lower('>') == '>'
    }
  }

  /** s.lower(), one character at a time. */
  function Lower(t: CharTable, s: string): (r: string)
    ensures |r| == |s| && forall i :: 0 <= i < |s| ==> r[i] == t.lower(s[i])
  {
    seq(|s|, i requires 0 <= i < |s| => t.lower(s[i]))
  }
}
