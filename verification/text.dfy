/** Character classes and the handful of Python string operations the core
    relies on: `str.strip`, `str.lower`, `str.split()` and the `in`
    substring test. Python applies Unicode tables for all of them; this model
    uses their ASCII restriction. */
module Text {

  // ---------------------------------------------------------------------------
  // Character classes
  // ---------------------------------------------------------------------------

  /** Python's `str.isspace` (also regex `\s`) on ASCII: tab, newline, vertical
      tab, form feed, carriage return, the separators 0x1C-0x1F and space. */
  predicate IsSpace(c: char) {
    c == ' ' || ('\t' <= c <= '\r') || ('\U{1C}' <= c <= '\U{1F}')
  }

  predicate NotSpace(c: char) { !IsSpace(c) }

  predicate IsDigit(c: char) { '0' <= c <= '9' }

  predicate IsUpper(c: char) { 'A' <= c <= 'Z' }

  predicate IsLetter(c: char) { 'A' <= c <= 'Z' || 'a' <= c <= 'z' }

  /** Regex `\w` on ASCII. */
  predicate IsWord(c: char) { IsLetter(c) || IsDigit(c) || c == '_' }

  /** Regex class `[\w\s]`. */
  predicate IsWordOrSpace(c: char) { IsWord(c) || IsSpace(c) }

  /** Regex class `[A-Za-z\s]`. */
  predicate IsLetterOrSpace(c: char) { IsLetter(c) || IsSpace(c) }

  /** Regex `.` without DOTALL: anything but a newline. */
  predicate NotNewline(c: char) { c != '\n' }

  /** Every character of `s[lo..hi]` is in class `p`. */
  predicate AllIn(s: string, lo: nat, hi: nat, p: char -> bool)
    requires lo <= hi <= |s|
  {
    forall k :: lo <= k < hi ==> p(s[k])
  }

  /** A slice whose characters are all in class `p` is a range of `s` that is. */
  lemma AllInOfSlice(s: string, lo: nat, hi: nat, w: string, p: char -> bool)
    requires lo <= hi <= |s| && s[lo..hi] == w && AllIn(w, 0, |w|, p)
    ensures AllIn(s, lo, hi, p)
  {
    forall k | lo <= k < hi
      ensures p(s[k])
    {
      assert s[k] == w[k - lo];
    }
  }

  // ---------------------------------------------------------------------------
  // Scanning
  // ---------------------------------------------------------------------------

  /** The end of the longest run of class-`p` characters starting at `from`:
      what a greedy `[...]*` consumes. */
  function SkipWhile(s: string, from: nat, p: char -> bool): (e: nat)
    requires from <= |s|
    ensures from <= e <= |s|
    ensures AllIn(s, from, e, p)
    ensures e < |s| ==> !p(s[e])
    decreases |s| - from
  {
    if from < |s| && p(s[from]) then SkipWhile(s, from + 1, p) else from
  }

  /** A run of class-`p` characters that ends at a character outside the
      class is exactly the one `SkipWhile` finds. */
  lemma SkipWhileStopsAt(s: string, from: nat, e: nat, p: char -> bool)
    requires from <= e <= |s|
    requires AllIn(s, from, e, p)
    requires e < |s| ==> !p(s[e])
    ensures SkipWhile(s, from, p) == e
  {
  }

  // ---------------------------------------------------------------------------
  // str.strip
  // ---------------------------------------------------------------------------

  /** `s.lstrip()`: what is left of `s` after dropping leading whitespace. */
  function LStrip(s: string): (r: string)
    ensures |r| <= |s|
    ensures r == [] || !IsSpace(r[0])
  {
    if |s| > 0 && IsSpace(s[0]) then LStrip(s[1..]) else s
  }

  /** `s.rstrip()`: what is left of `s` after dropping trailing whitespace. */
  function RStrip(s: string): (r: string)
    ensures |r| <= |s|
    ensures r == [] || !IsSpace(r[|r| - 1])
  {
    if |s| > 0 && IsSpace(s[|s| - 1]) then RStrip(s[..|s| - 1]) else s
  }

  /** `lstrip` leaves a suffix of its input. (Stated as a lemma rather than a
      postcondition so that every mention of `strip` does not drag the
      slicing facts along.) */
  lemma {:induction false} LStripIsSuffix(s: string)
    ensures LStrip(s) == s[|s| - |LStrip(s)|..]
    decreases |s|
  {
    if |s| > 0 && IsSpace(s[0]) {
      LStripIsSuffix(s[1..]);
    }
  }

  /** `rstrip` leaves a prefix of its input. */
  lemma {:induction false} RStripIsPrefix(s: string)
    ensures RStrip(s) == s[..|RStrip(s)|]
    decreases |s|
  {
    if |s| > 0 && IsSpace(s[|s| - 1]) {
      RStripIsPrefix(s[..|s| - 1]);
    }
  }

  /** `s` neither starts nor ends with whitespace. */
  predicate Unpadded(s: string) {
    s == [] || (!IsSpace(s[0]) && !IsSpace(s[|s| - 1]))
  }

  /** `s.strip()`: a slice of `s` that neither starts nor ends with whitespace. */
  function Strip(s: string): (r: string)
    ensures |r| <= |s|
    ensures Unpadded(r)
  {
    RStripIsPrefix(LStrip(s));
    RStrip(LStrip(s))
  }

  /** Stripping only removes characters. */
  lemma StripKeepsChars(s: string)
    ensures forall c :: c in Strip(s) ==> c in s
  {
    var l := LStrip(s);
    LStripIsSuffix(s);
    RStripIsPrefix(l);
    assert forall c :: c in RStrip(l) ==> c in l;
    assert forall c :: c in l ==> c in s;
  }

  predicate AllSpace(w: string) {
    forall k :: 0 <= k < |w| ==> IsSpace(w[k])
  }

  lemma {:induction false} LStripSkipsPadding(w: string, x: string)
    requires AllSpace(w)
    ensures LStrip(w + x) == LStrip(x)
    decreases |w|
  {
    if |w| > 0 {
      assert (w + x)[1..] == w[1..] + x;
      LStripSkipsPadding(w[1..], x);
    } else {
      assert w + x == x;
    }
  }

  lemma {:induction false} RStripSkipsPadding(x: string, w: string)
    requires AllSpace(w)
    ensures RStrip(x + w) == RStrip(x)
    decreases |w|
  {
    if |w| > 0 {
      assert (x + w)[..|x + w| - 1] == x + w[..|w| - 1];
      RStripSkipsPadding(x, w[..|w| - 1]);
    } else {
      assert x + w == x;
    }
  }

  /** Trailing whitespace survives `lstrip` unless nothing else does. */
  lemma {:induction false} LStripKeepsTail(x: string, w: string)
    requires AllSpace(w)
    ensures LStrip(x + w) == if LStrip(x) == [] then [] else LStrip(x) + w
    decreases |x|
  {
    if |x| == 0 {
      assert x + w == w;
      LStripSkipsPadding(w, []);
      assert w + [] == w;
    } else if IsSpace(x[0]) {
      assert (x + w)[1..] == x[1..] + w;
      LStripKeepsTail(x[1..], w);
    }
  }

  /** `strip` ignores whitespace padding on either side. */
  lemma StripIgnoresPadding(w1: string, x: string, w2: string)
    requires AllSpace(w1) && AllSpace(w2)
    ensures Strip(w1 + x + w2) == Strip(x)
  {
    assert w1 + x + w2 == w1 + (x + w2);
    LStripSkipsPadding(w1, x + w2);
    LStripKeepsTail(x, w2);
    if LStrip(x) != [] {
      RStripSkipsPadding(LStrip(x), w2);
    }
  }

  /** The same statement on slices of one string: stripping `s[lo..hi]` and
      stripping the narrower `s[lo2..hi2]` agree when only whitespace lies
      between the two bounds. */
  lemma StripSlicePadding(s: string, lo: nat, lo2: nat, hi2: nat, hi: nat)
    requires lo <= lo2 <= hi2 <= hi <= |s|
    requires AllIn(s, lo, lo2, IsSpace) && AllIn(s, hi2, hi, IsSpace)
    ensures Strip(s[lo..hi]) == Strip(s[lo2..hi2])
  {
    assert s[lo..hi] == s[lo..lo2] + s[lo2..hi2] + s[hi2..hi];
    StripIgnoresPadding(s[lo..lo2], s[lo2..hi2], s[hi2..hi]);
  }

  /** A string that neither starts nor ends with whitespace is its own strip. */
  lemma StripOfClean(x: string)
    requires Unpadded(x)
    ensures Strip(x) == x
  {
  }

  // ---------------------------------------------------------------------------
  // str.lower
  // ---------------------------------------------------------------------------

  function LowerChar(c: char): (d: char)
    ensures !IsUpper(d)
    ensures IsUpper(c) ==> d as int == c as int + 32
    ensures !IsUpper(c) ==> d == c
  {
    if IsUpper(c) then (c as int + 32) as char else c
  }

  /** `s.lower()`, character by character. */
  function Lower(s: string): (r: string)
    ensures |r| == |s|
    ensures forall k :: 0 <= k < |r| ==> !IsUpper(r[k])
  {
    seq(|s|, k requires 0 <= k < |s| => LowerChar(s[k]))
  }

  /** The upper-case partner of a lower-case ASCII letter; other characters
      are their own partner. */
  function UpperChar(c: char): char {
    if 'a' <= c <= 'z' then (c as int - 32) as char else c
  }

  /** A lower-case character is missing from `s.lower()` when neither it nor
      its upper-case partner occurs in `s`. */
  lemma LowerLacksChar(s: string, c: char)
    requires !IsUpper(c)
    requires c !in s && UpperChar(c) !in s
    ensures c !in Lower(s)
  {
    forall k | 0 <= k < |s|
      ensures Lower(s)[k] != c
    {
      assert s[k] != c && s[k] != UpperChar(c);
    }
  }

  /** Text with no upper-case letter is its own lower-case form. */
  lemma LowerOfLowercase(s: string)
    requires forall k :: 0 <= k < |s| ==> !IsUpper(s[k])
    ensures Lower(s) == s
  {
  }

  /** Lowering preserves prefixes. */
  lemma LowerKeepsPrefix(a: string, b: string)
    requires a <= b
    ensures Lower(a) <= Lower(b)
  {
    assert Lower(a) == Lower(b)[..|a|];
  }

  // ---------------------------------------------------------------------------
  // The `in` operator on strings
  // ---------------------------------------------------------------------------

  /** Python's `needle in hay`: the empty string is in every string. */
  predicate Contains(hay: string, needle: string)
    ensures Contains(hay, needle) ==> |needle| <= |hay|
    decreases |hay|
  {
    needle <= hay || (|hay| > 0 && Contains(hay[1..], needle))
  }

  /** `needle` occupies `hay[k..k + |needle|]`. */
  ghost predicate OccursAt(hay: string, needle: string, k: nat) {
    k + |needle| <= |hay| && hay[k..k + |needle|] == needle
  }

  /** The scanning definition of `in` agrees with the positional one. */
  lemma ContainsIffOccurs(hay: string, needle: string)
    ensures Contains(hay, needle) <==> exists k: nat :: OccursAt(hay, needle, k)
  {
    if Contains(hay, needle) {
      ContainsGivesOccurrence(hay, needle);
    } else {
      forall k: nat | OccursAt(hay, needle, k)
        ensures false
      {
        OccurrenceGivesContains(hay, needle, k);
      }
    }
  }

  /** A successful scan has found an occurrence. */
  lemma {:induction false} ContainsGivesOccurrence(hay: string, needle: string)
    requires Contains(hay, needle)
    ensures exists k: nat :: OccursAt(hay, needle, k)
    decreases |hay|
  {
    if needle <= hay {
      assert hay[0..|needle|] == needle;
      assert OccursAt(hay, needle, 0);
    } else {
      ContainsGivesOccurrence(hay[1..], needle);
      var k: nat :| OccursAt(hay[1..], needle, k);
      assert hay[1..][k..k + |needle|] == hay[k + 1..k + 1 + |needle|];
      assert OccursAt(hay, needle, k + 1);
    }
  }

  /** The scan reaches every occurrence. */
  lemma {:induction false} OccurrenceGivesContains(hay: string, needle: string, k: nat)
    requires OccursAt(hay, needle, k)
    ensures Contains(hay, needle)
    decreases k
  {
    if k == 0 {
      assert needle <= hay;
    } else {
      assert hay[1..][k - 1..k - 1 + |needle|] == hay[k..k + |needle|];
      OccurrenceGivesContains(hay[1..], needle, k - 1);
    }
  }

  /** A string holding a character that `hay` lacks is not in `hay`. */
  lemma NotContainedMissingChar(hay: string, needle: string, c: char)
    requires c in needle && c !in hay
    ensures !Contains(hay, needle)
  {
    ContainsIffOccurs(hay, needle);
  }

  /** Between strings of equal length, `in` is equality. */
  lemma ContainsSameLength(hay: string, needle: string)
    requires |hay| == |needle|
    ensures Contains(hay, needle) <==> hay == needle
  {
  }

  /** A string is never in a shorter one. */
  lemma LongerNotContained(hay: string, needle: string)
    requires |hay| < |needle|
    ensures !Contains(hay, needle)
  {
  }

  // ---------------------------------------------------------------------------
  // str.split()
  // ---------------------------------------------------------------------------

  /** The characters of `s` that are not whitespace, in order. */
  function NonSpace(s: string): string {
    if |s| == 0 then []
    else if IsSpace(s[0]) then NonSpace(s[1..])
    else [s[0]] + NonSpace(s[1..])
  }

  function Concat(ws: seq<string>): string {
    if |ws| == 0 then [] else ws[0] + Concat(ws[1..])
  }

  lemma {:induction false} NonSpaceAppend(x: string, y: string)
    ensures NonSpace(x + y) == NonSpace(x) + NonSpace(y)
    decreases |x|
  {
    if |x| == 0 {
      assert x + y == y;
    } else {
      assert (x + y)[1..] == x[1..] + y;
      NonSpaceAppend(x[1..], y);
    }
  }

  lemma {:induction false} NonSpaceOfSpaces(w: string)
    requires AllSpace(w)
    ensures NonSpace(w) == []
    decreases |w|
  {
    if |w| > 0 {
      NonSpaceOfSpaces(w[1..]);
    }
  }

  lemma {:induction false} NonSpaceOfWord(w: string)
    requires forall k :: 0 <= k < |w| ==> !IsSpace(w[k])
    ensures NonSpace(w) == w
    decreases |w|
  {
    if |w| > 0 {
      NonSpaceOfWord(w[1..]);
      assert w == [w[0]] + w[1..];
    }
  }

  /** `s.split()` with no separator: the maximal runs of non-whitespace. */
  function Words(s: string): (ws: seq<string>)
    ensures forall i :: 0 <= i < |ws| ==> |ws[i]| > 0
    ensures forall i, k :: 0 <= i < |ws| && 0 <= k < |ws[i]| ==> !IsSpace(ws[i][k])
    decreases |s|
  {
    var a := SkipWhile(s, 0, IsSpace);
    if a == |s| then []
    else
      var b := SkipWhile(s, a, NotSpace);
      [s[a..b]] + Words(s[b..])
  }

  /** Splitting loses exactly the whitespace: the words, joined, are the
      non-whitespace characters of the input in order. */
  lemma {:induction false} WordsCoverText(s: string)
    ensures Concat(Words(s)) == NonSpace(s)
    decreases |s|
  {
    var a := SkipWhile(s, 0, IsSpace);
    if a == |s| {
      assert AllSpace(s);
      NonSpaceOfSpaces(s);
    } else {
      var b := SkipWhile(s, a, NotSpace);
      var pre, w, post := s[..a], s[a..b], s[b..];
      assert s == pre + w + post;
      NonSpaceOfPaddedWord(pre, w, post);
      WordsCoverText(post);
      assert ([w] + Words(post))[1..] == Words(post);
    }
  }

  /** Whitespace, then a word, then anything: the word comes first among the
      non-whitespace characters. */
  lemma NonSpaceOfPaddedWord(pre: string, w: string, post: string)
    requires AllSpace(pre)
    requires forall k :: 0 <= k < |w| ==> !IsSpace(w[k])
    ensures NonSpace(pre + w + post) == w + NonSpace(post)
  {
    assert NonSpace(pre + w) == w by {
      NonSpaceAppend(pre, w);
      NonSpaceOfSpaces(pre);
      NonSpaceOfWord(w);
      assert [] + w == w;
    }
    NonSpaceAppend(pre + w, post);
  }

  /** Scanning a string with one character in front: positions shift by one. */
  lemma SkipWhileShift(c: char, rest: string, from: nat, p: char -> bool)
    requires from <= |rest|
    ensures SkipWhile([c] + rest, from + 1, p) == 1 + SkipWhile(rest, from, p)
  {
    var e := SkipWhile(rest, from, p);
    SkipWhileStopsAt([c] + rest, from + 1, e + 1, p);
  }

  /** Leading whitespace produces no word. */
  lemma WordsSkipSpace(c: char, rest: string)
    requires IsSpace(c)
    ensures Words([c] + rest) == Words(rest)
  {
    var s := [c] + rest;
    var a := SkipWhile(rest, 0, IsSpace);
    assert SkipWhile(s, 0, IsSpace) == a + 1 by {
      assert SkipWhile(s, 0, IsSpace) == SkipWhile(s, 1, IsSpace);
      SkipWhileShift(c, rest, 0, IsSpace);
    }
    if a < |rest| {
      var b := SkipWhile(rest, a, NotSpace);
      assert SkipWhile(s, a + 1, NotSpace) == b + 1 by {
        SkipWhileShift(c, rest, a, NotSpace);
      }
      assert s[a + 1..b + 1] == rest[a..b];
      assert s[b + 1..] == rest[b..];
    }
  }

  /** A word followed by whitespace is the first word. */
  lemma WordsOfSpaced(w: string, c: char, rest: string)
    requires |w| > 0 && forall k :: 0 <= k < |w| ==> !IsSpace(w[k])
    requires IsSpace(c)
    ensures Words(w + [c] + rest) == [w] + Words(rest)
  {
    var s := w + [c] + rest;
    SkipWhileStopsAt(s, 0, 0, IsSpace);
    SkipWhileStopsAt(s, 0, |w|, NotSpace);
    assert s[0..|w|] == w;
    assert s[|w|..] == [c] + rest;
    WordsSkipSpace(c, rest);
  }

  /** A string without whitespace is a single word. */
  lemma WordsOfWord(w: string)
    requires |w| > 0 && forall k :: 0 <= k < |w| ==> !IsSpace(w[k])
    ensures Words(w) == [w]
  {
    SkipWhileStopsAt(w, 0, 0, IsSpace);
    SkipWhileStopsAt(w, 0, |w|, NotSpace);
    assert w[0..|w|] == w;
    assert w[|w|..] == [];
  }

  /** Three words joined by single spaces split back into those words. */
  lemma WordsOfThree(a: string, b: string, c: string)
    requires |a| > 0 && forall k :: 0 <= k < |a| ==> !IsSpace(a[k])
    requires |b| > 0 && forall k :: 0 <= k < |b| ==> !IsSpace(b[k])
    requires |c| > 0 && forall k :: 0 <= k < |c| ==> !IsSpace(c[k])
    ensures Words(a + " " + b + " " + c) == [a, b, c]
  {
    assert a + " " + b + " " + c == a + [' '] + (b + [' '] + c);
    WordsOfSpaced(a, ' ', b + [' '] + c);
    WordsOfSpaced(b, ' ', c);
    WordsOfWord(c);
  }
}
