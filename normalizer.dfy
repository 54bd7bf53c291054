/**
 * The text normaliser applied to the training headlines: lower case, drop every
 * character that is neither a word character nor whitespace, drop digit runs, drop
 * `<...>` tags, then drop stopwords and stem the remaining words. The Unicode tables
 * behind lower(), \w and \d, the stopword list and the stemmer are parameters.
 */
module Normalizer {
  import opened Wrappers
  import opened Text
  import Seqs

  /** `re.sub(r'[^\w\s]', '', text)`. */
  function RemovePunctuation(t: CharTable, s: string): string {
    Seqs.Filter(s, c => t.isWord(c) || IsSpace(c))
  }

  /** `re.sub(r'\d+', '', text)`: deleting every run of digits deletes every digit. */
  function RemoveDigits(t: CharTable, s: string): string {
    Seqs.Filter(s, c => !t.isDigit(c))
  }

  /** The length of the text before the first '>' that no newline precedes, if any. */
  function CloseAt(s: string): (r: Option<nat>)
    ensures r.Some? ==> r.value < |s| && s[r.value] == '>'
  {
    if s == [] || s[0] == '\n' then None
    else if s[0] == '>' then Some(0)
    else match CloseAt(s[1..]) case Some(k) => Some(k + 1) case None => None
  }

  /**
   * `re.sub(r'<.*?>', '', text)`: from left to right, a '<' and the text up to the
   * nearest '>' after it go, provided no newline comes in between ('.' does not match
   * a newline); a '<' without such a '>' stays.
   */
  function StripTags(s: string): (r: string)
    ensures |r| <= |s|
    decreases |s|
  {
    if s == [] then []
    else if s[0] == '<' then
      match CloseAt(s[1..])
      case Some(k) => StripTags(s[1..][k + 1..])
      case None => [s[0]] + StripTags(s[1..])
    else [s[0]] + StripTags(s[1..])
  }

  /** preprocess_text, in the order the steps are written. */
  function Preprocess(t: CharTable, text: string): string {
    StripTags(RemoveDigits(t, RemovePunctuation(t, Lower(t, text))))
  }

  /** The three removals of preprocess_text, without the lower-casing. */
  function Removals(t: CharTable, s: string): string {
    StripTags(RemoveDigits(t, RemovePunctuation(t, s)))
  }

  // ---------------------------------------------------------------- properties

  lemma {:induction false} StripTagsNoOpen(s: string)
    requires forall i :: 0 <= i < |s| ==> s[i] != '<'
    ensures StripTags(s) == s
  {
    if s != [] {
      StripTagsNoOpen(s[1..]);
    }
  }

  /** After the punctuation step no '<' is left, so the tag step never changes the text. */
  lemma TagStepIsNoOp(t: CharTable, s: string)
    requires t.Valid()
    ensures StripTags(RemoveDigits(t, RemovePunctuation(t, s))) == RemoveDigits(t, RemovePunctuation(t, s))
  {
    var p := RemovePunctuation(t, s);
    var d := RemoveDigits(t, p);
    forall i | 0 <= i < |d| ensures d[i] != '<' {
      assert d[i] in d;
      assert !IsSpace('<');
    }
    StripTagsNoOpen(d);
  }

  /**
   * What preprocess_text returns: every character is already lower case, is a word
   * character or whitespace, and is not a digit.
   */
  lemma PreprocessOutput(t: CharTable, text: string)
    requires t.Valid()
    ensures var r := Preprocess(t, text);
      forall i :: 0 <= i < |r| ==> t.lower(r[i]) == r[i] && (t.isWord(r[i]) || IsSpace(r[i])) && !t.isDigit(r[i])
  {
    var l := Lower(t, text);
    TagStepIsNoOp(t, l);
    var r := Preprocess(t, text);
    forall i | 0 <= i < |r|
      ensures t.lower(r[i]) == r[i] && (t.isWord(r[i]) || IsSpace(r[i])) && !t.isDigit(r[i])
    {
      assert r[i] in r;
      assert r[i] in RemovePunctuation(t, l);
      var k :| 0 <= k < |l| && l[k] == r[i];
    }
  }

  /** Running the punctuation, digit and tag removals a second time changes nothing. */
  lemma RemovalsIdempotent(t: CharTable, s: string)
    requires t.Valid()
    ensures Removals(t, Removals(t, s)) == Removals(t, s)
  {
    var once := Removals(t, s);
    TagStepIsNoOp(t, s);
    forall i | 0 <= i < |once| ensures t.isWord(once[i]) || IsSpace(once[i]) {
      assert once[i] in once;
    }
    Seqs.FilterAllPass(once, c => t.isWord(c) || IsSpace(c));
    forall i | 0 <= i < |once| ensures !t.isDigit(once[i]) {
      assert once[i] in once;
    }
    Seqs.FilterAllPass(once, c => !t.isDigit(c));
    TagStepIsNoOp(t, once);
  }

  // ---------------------------------------------------------------- the tag finding

  /** A tag name: lower-case word characters that are not digits. */
  predicate TagName(t: CharTable, name: string) {
    |name| > 0 && forall i :: 0 <= i < |name| ==> t.isWord(name[i]) && !t.isDigit(name[i]) && t.lower(name[i]) == name[i]
  }

  lemma LowerOfTag(t: CharTable, name: string)
    requires t.Valid() && TagName(t, name)
    ensures Lower(t, "<" + name + ">") == "<" + name + ">"
  {
    var s := "<" + name + ">";
    var l := Lower(t, s);
    forall i | 0 <= i < |s| ensures l[i] == s[i] {
      if 0 < i < |s| - 1 { assert s[i] == name[i - 1]; }
    }
  }

  lemma PunctuationOfTag(t: CharTable, name: string)
    requires t.Valid() && TagName(t, name)
    ensures RemovePunctuation(t, "<" + name + ">") == name
  {
    var keep := c => t.isWord(c) || IsSpace(c);
    Seqs.FilterAppend("<" + name, ">", keep);
    Seqs.FilterAppend("<", name, keep);
    assert !IsSpace('<') && !IsSpace('>');
    Seqs.FilterAllPass(name, keep);
  }

  /** As written, the brackets go first and the name of a tag is left in the text. */
  lemma TagNameSurvives(t: CharTable, name: string)
    requires t.Valid() && TagName(t, name)
    ensures Preprocess(t, "<" + name + ">") == name
  {
    LowerOfTag(t, name);
    PunctuationOfTag(t, name);
    Seqs.FilterAllPass(name, c => !t.isDigit(c));
    TagStepIsNoOp(t, "<" + name + ">");
  }

  /** The order evidently intended: tags go before the punctuation step removes their brackets. */
  function PreprocessTagsFirst(t: CharTable, text: string): string {
    RemoveDigits(t, RemovePunctuation(t, StripTags(Lower(t, text))))
  }

  lemma {:induction false} CloseAtName(name: string)
    requires forall i :: 0 <= i < |name| ==> name[i] != '>' && name[i] != '\n'
    ensures CloseAt(name + ">") == Some(|name|)
  {
    if name != [] {
      assert (name + ">")[1..] == name[1..] + ">";
      CloseAtName(name[1..]);
    }
  }

  /** With the tag step first, a tag disappears entirely. */
  lemma TagRemovedWhenFirst(t: CharTable, name: string)
    requires t.Valid() && TagName(t, name)
    ensures PreprocessTagsFirst(t, "<" + name + ">") == ""
  {
    var s := "<" + name + ">";
    LowerOfTag(t, name);
    forall i | 0 <= i < |name| ensures name[i] != '>' && name[i] != '\n' {
      assert t.isWord(name[i]) && IsSpace('\n');
    }
    CloseAtName(name);
    assert s[1..] == name + ">";
    assert s[1..][|name| + 1..] == [];
  }

  /** Tag removal only drops characters: every character it keeps was in its input. */
  lemma {:induction false} StripTagsKeepsChars(s: string)
    ensures forall c :: c in StripTags(s) ==> c in s
    decreases |s|
  {
    if s != [] {
      var tail := s[1..];
      SuffixChars(s, 1);
      if s[0] == '<' && CloseAt(tail).Some? {
        var rest := tail[CloseAt(tail).value + 1..];
        assert StripTags(s) == StripTags(rest);
        StripTagsKeepsChars(rest);
        SuffixChars(tail, CloseAt(tail).value + 1);
      } else {
        assert StripTags(s) == [s[0]] + StripTags(tail);
        StripTagsKeepsChars(tail);
      }
    }
  }

  /** Every character of a suffix is a character of the whole. */
  lemma SuffixChars(s: string, a: nat)
    requires a <= |s|
    ensures forall c :: c in s[a..] ==> c in s
  {
    forall c | c in s[a..] ensures c in s {
      var j :| 0 <= j < |s[a..]| && s[a..][j] == c;
      assert s[a + j] == c;
    }
  }

  /** The corrected order leaves the same kind of text: lower case, word characters or whitespace, no digits. */
  lemma TagsFirstOutput(t: CharTable, text: string)
    requires t.Valid()
    ensures var r := PreprocessTagsFirst(t, text);
      forall i :: 0 <= i < |r| ==> t.lower(r[i]) == r[i] && (t.isWord(r[i]) || IsSpace(r[i])) && !t.isDigit(r[i])
  {
    var l := Lower(t, text);
    StripTagsKeepsChars(l);
    var r := PreprocessTagsFirst(t, text);
    forall i | 0 <= i < |r|
      ensures t.lower(r[i]) == r[i] && (t.isWord(r[i]) || IsSpace(r[i])) && !t.isDigit(r[i])
    {
      assert r[i] in r;
      assert r[i] in RemovePunctuation(t, StripTags(l));
      assert r[i] in StripTags(l);
      var k :| 0 <= k < |l| && l[k] == r[i];
    }
  }

  // ---------------------------------------------------------------- stopwords and stems

  /** `' '.join([word for word in x.split() if word not in stop_words])`. */
  function RemoveStopwords(stop: set<string>, x: string): string {
    JoinSpace(Seqs.Filter(Words(x), w => w !in stop))
  }

  /** The stopword filter keeps exactly the words that are not stopwords, in order. */
  lemma RemoveStopwordsWords(stop: set<string>, x: string)
    ensures Words(RemoveStopwords(stop, x)) == Seqs.Filter(Words(x), w => w !in stop)
    ensures forall w :: w in Words(RemoveStopwords(stop, x)) <==> w in Words(x) && w !in stop
  {
    var kept := Seqs.Filter(Words(x), w => w !in stop);
    forall k | 0 <= k < |kept| ensures IsWord(kept[k]) {
      assert kept[k] in Words(x);
    }
    WordsOfJoin(kept);
  }

  /** A stemmer maps a word to a word. */
  ghost predicate StemsWords(stem: string -> string) {
    forall w :: IsWord(w) ==> IsWord(stem(w))
  }

  function MapWords(stem: string -> string, ws: seq<string>): (r: seq<string>)
    ensures |r| == |ws| && forall k :: 0 <= k < |ws| ==> r[k] == stem(ws[k])
  {
    seq(|ws|, k requires 0 <= k < |ws| => stem(ws[k]))
  }

  /** `' '.join([stemmer.stem(word) for word in x.split()])`. */
  function StemWords(stem: string -> string, x: string): string {
    JoinSpace(MapWords(stem, Words(x)))
  }

  /** Stemming replaces each word by its stem, on its own, and keeps the number of words. */
  lemma StemWordsWords(stem: string -> string, x: string)
    requires StemsWords(stem)
    ensures Words(StemWords(stem, x)) == MapWords(stem, Words(x))
    ensures |Words(StemWords(stem, x))| == |Words(x)|
  {
    var ws := Words(x);
    var stems := MapWords(stem, ws);
    forall k | 0 <= k < |stems| ensures IsWord(stems[k]) {
      assert IsWord(ws[k]);
    }
    WordsOfJoin(stems);
  }
}
