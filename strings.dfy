/** Text helpers used by every predicate of the recommender: Python's
    `str.lower()`, `str.strip()`, the substring test `needle in hay`,
    `str.endswith` and the regular-expression filter `re.sub("[^a-z]", "", s)`.
    Characters are compared as code points; only ASCII case and ASCII
    whitespace are modelled. */
module Strings {

  /** The ASCII characters `str.strip()` removes: tab, line feed, vertical
      tab, form feed, carriage return, the four separators 0x1c-0x1f and space. */
  predicate IsSpace(c: char) {
    var n := c as int;
    (9 <= n <= 13) || (28 <= n <= 31) || n == 32
  }

  predicate IsUpper(c: char) {
    'A' <= c <= 'Z'
  }

  /** The characters `[a-z]` keeps. */
  predicate IsLowerLetter(c: char) {
    'a' <= c <= 'z'
  }

  function LowerChar(c: char): (r: char)
    ensures !IsUpper(r)
    ensures IsUpper(c) ==> r as int == c as int + 32
    ensures !IsUpper(c) ==> r == c
  {
    if IsUpper(c) then (c as int + 32) as char else c
  }

  /** `s.lower()` on ASCII letters. */
  function Lower(s: string): (r: string)
    ensures |r| == |s|
    ensures forall i :: 0 <= i < |s| ==> r[i] == LowerChar(s[i])
  {
    seq(|s|, i requires 0 <= i < |s| => LowerChar(s[i]))
  }

  /** `s.lstrip()`: the longest suffix of `s` that does not start with whitespace. */
  function TrimStart(s: string): (r: string)
    ensures |r| <= |s| && r == s[|s| - |r|..]
    ensures forall i :: 0 <= i < |s| - |r| ==> IsSpace(s[i])
    ensures r == [] || !IsSpace(r[0])
  {
    if |s| > 0 && IsSpace(s[0]) then TrimStart(s[1..]) else s
  }

  /** `s.rstrip()`: the longest prefix of `s` that does not end with whitespace. */
  function TrimEnd(s: string): (r: string)
    ensures |r| <= |s| && r == s[..|r|]
    ensures forall i :: |r| <= i < |s| ==> IsSpace(s[i])
    ensures r == [] || !IsSpace(r[|r| - 1])
  {
    if |s| > 0 && IsSpace(s[|s| - 1]) then TrimEnd(s[..|s| - 1]) else s
  }

  /** `s.strip()`: `s` without its leading and trailing whitespace. */
  function Strip(s: string): string {
    TrimEnd(TrimStart(s))
  }

  /** `r` is `s[i..j]` and everything of `s` outside it is whitespace. */
  ghost predicate SliceWithin(s: string, r: string, i: int, j: int) {
    && 0 <= i <= j <= |s| && r == s[i..j]
    && (forall m :: 0 <= m < i ==> IsSpace(s[m]))
    && (forall m :: j <= m < |s| ==> IsSpace(s[m]))
  }

  /** `s.strip()` is a slice of `s` with only whitespace outside it. */
  lemma StripMeaning(s: string)
    ensures exists i, j :: SliceWithin(s, Strip(s), i, j)
  {
    var t := TrimStart(s);
    var r := TrimEnd(t);
    assert Strip(s) == r;
    TrimmedSlice(s, t, r);
  }

  /** A prefix `r` of a suffix `t` of `s`, each cut off at whitespace, is a
      slice of `s` with only whitespace outside it. */
  lemma TrimmedSlice(s: string, t: string, r: string)
    requires |t| <= |s| && t == s[|s| - |t|..]
    requires forall m :: 0 <= m < |s| - |t| ==> IsSpace(s[m])
    requires |r| <= |t| && r == t[..|r|]
    requires forall m :: |r| <= m < |t| ==> IsSpace(t[m])
    ensures SliceWithin(s, r, |s| - |t|, |s| - |t| + |r|)
  {
    var i, j := |s| - |t|, |s| - |t| + |r|;
    assert r == s[i..j];
    forall m | j <= m < |s|
      ensures IsSpace(s[m])
    {
      assert s[m] == t[m - i];
    }
  }

  /** `s.strip()` neither starts nor ends with whitespace. */
  lemma StripEnds(s: string)
    ensures Strip(s) == [] || (!IsSpace(Strip(s)[0]) && !IsSpace(Strip(s)[|Strip(s)| - 1]))
  {
    var t := TrimStart(s);
    var r := TrimEnd(t);
    if r != [] {
      assert r[0] == t[0];
    }
  }

  /** `norm(x)` of app.py: `str(x).lower().strip()`. */
  function Norm(s: string): string {
    Strip(Lower(s))
  }

  /** Normalised text neither starts nor ends with whitespace and holds no
      upper-case letter. */
  lemma NormShape(s: string)
    ensures var r := Norm(s);
            && (r == [] || (!IsSpace(r[0]) && !IsSpace(r[|r| - 1])))
            && forall i :: 0 <= i < |r| ==> !IsUpper(r[i])
  {
    var l := Lower(s);
    StripEnds(l);
    StripKeepsNoUpper(l);
  }

  /** Stripping keeps a string free of upper-case letters. */
  lemma StripKeepsNoUpper(l: string)
    requires forall i :: 0 <= i < |l| ==> !IsUpper(l[i])
    ensures forall i :: 0 <= i < |Strip(l)| ==> !IsUpper(Strip(l)[i])
  {
    var t := TrimStart(l);
    var r := TrimEnd(t);
    assert r == Strip(l);
    forall i | 0 <= i < |r|
      ensures !IsUpper(r[i])
    {
      assert r[i] == t[i] == l[|l| - |t| + i];
    }
  }

  /** Python's `needle in hay` for strings, searched left to right. */
  function Contains(hay: string, needle: string): bool
    decreases |hay|
  {
    if |needle| > |hay| then false
    else if hay[..|needle|] == needle then true
    else Contains(hay[1..], needle)
  }

  /** `needle` occurs in `hay` starting at position `i`. */
  ghost predicate OccursAt(hay: string, needle: string, i: int) {
    0 <= i && i + |needle| <= |hay| && hay[i..i + |needle|] == needle
  }

  /** `s.endswith(suffix)`. */
  predicate EndsWith(s: string, suffix: string) {
    |suffix| <= |s| && s[|s| - |suffix|..] == suffix
  }

  /** `re.sub("[^a-z]", "", s)`: the lower-case ASCII letters of `s`, in order. */
  function KeepLetters(s: string): string
  {
    if s == [] then []
    else (if IsLowerLetter(s[0]) then [s[0]] else []) + KeepLetters(s[1..])
  }

  /** `Contains` is the substring relation: it holds exactly when `needle`
      occurs at some position of `hay`. */
  lemma {:induction false} ContainsIff(hay: string, needle: string)
    ensures Contains(hay, needle) <==> exists i :: OccursAt(hay, needle, i)
    decreases |hay|
  {
    if |needle| > |hay| {
    } else if hay[..|needle|] == needle {
      assert OccursAt(hay, needle, 0);
    } else {
      ContainsIff(hay[1..], needle);
      if Contains(hay, needle) {
        var i :| OccursAt(hay[1..], needle, i);
        assert hay[1..][i..i + |needle|] == hay[i + 1..i + 1 + |needle|];
        assert OccursAt(hay, needle, i + 1);
      }
      if exists i :: OccursAt(hay, needle, i) {
        var i :| OccursAt(hay, needle, i);
        assert i != 0;
        assert hay[1..][i - 1..i - 1 + |needle|] == hay[i..i + |needle|];
        assert OccursAt(hay[1..], needle, i - 1);
      }
    }
  }

  /** The empty string occurs in every string (so `"" in s` is always true). */
  lemma ContainsEmpty(hay: string)
    ensures Contains(hay, "")
  {
  }

  /** `norm` is idempotent: normalising normalised text changes nothing. */
  lemma NormIdempotent(s: string)
    ensures Norm(Norm(s)) == Norm(s)
  {
    var n := Norm(s);
    NormShape(s);
    LowerOfLowered(n);
    StripOfStripped(n);
  }

  lemma LowerOfLowered(s: string)
    requires forall i :: 0 <= i < |s| ==> !IsUpper(s[i])
    ensures Lower(s) == s
  {
    assert forall i | 0 <= i < |s| :: Lower(s)[i] == s[i];
  }

  lemma StripOfStripped(s: string)
    requires s == [] || (!IsSpace(s[0]) && !IsSpace(s[|s| - 1]))
    ensures Strip(s) == s
  {
    assert TrimStart(s) == s;
    assert TrimEnd(s) == s;
  }

  /** The letter filter distributes over concatenation. */
  lemma {:induction false} KeepLettersAppend(a: string, b: string)
    ensures KeepLetters(a + b) == KeepLetters(a) + KeepLetters(b)
  {
    if a == [] {
      assert a + b == b;
    } else {
      var c := if IsLowerLetter(a[0]) then [a[0]] else [];
      assert (a + b)[0] == a[0];
      assert (a + b)[1..] == a[1..] + b;
      assert KeepLetters(a + b) == c + KeepLetters(a[1..] + b);
      KeepLettersAppend(a[1..], b);
      assert c + (KeepLetters(a[1..]) + KeepLetters(b)) == (c + KeepLetters(a[1..])) + KeepLetters(b);
    }
  }

  /** The filter keeps only letters `a-z` and never lengthens its input. */
  lemma {:induction false} KeepLettersOnlyLetters(s: string)
    ensures |KeepLetters(s)| <= |s|
    ensures forall i :: 0 <= i < |KeepLetters(s)| ==> IsLowerLetter(KeepLetters(s)[i])
  {
    if s != [] {
      KeepLettersOnlyLetters(s[1..]);
    }
  }

  /** A string made only of letters `a-z` passes the filter unchanged. */
  lemma {:induction false} KeepLettersOfLetters(w: string)
    requires forall i :: 0 <= i < |w| ==> IsLowerLetter(w[i])
    ensures KeepLetters(w) == w
  {
    if w != [] {
      KeepLettersOfLetters(w[1..]);
    }
  }

  /** A keyword made only of letters `a-z` that occurs in a text still occurs
      once every other character is filtered out of the text. */
  lemma LetterKeywordSurvivesFilter(text: string, w: string)
    requires forall i :: 0 <= i < |w| ==> IsLowerLetter(w[i])
    requires Contains(text, w)
    ensures Contains(KeepLetters(text), w)
  {
    ContainsIff(text, w);
    var i :| OccursAt(text, w, i);
    assert text == text[..i] + (w + text[i + |w|..]);
    FilteredOccurrence(text[..i], w, text[i + |w|..]);
    ContainsIff(KeepLetters(text), w);
  }

  lemma FilteredOccurrence(pre: string, w: string, rest: string)
    requires forall i :: 0 <= i < |w| ==> IsLowerLetter(w[i])
    ensures OccursAt(KeepLetters(pre + (w + rest)), w, |KeepLetters(pre)|)
  {
    var kp, kr := KeepLetters(pre), KeepLetters(rest);
    KeepLettersAppend(pre, w + rest);
    KeepLettersAppend(w, rest);
    KeepLettersOfLetters(w);
    var k := kp + (w + kr);
    assert KeepLetters(pre + (w + rest)) == k;
    assert k[|kp|..|kp| + |w|] == w;
  }

  /** A needle holding a character the text lacks does not occur in it. */
  lemma MissingCharNotContained(hay: string, needle: string, j: int)
    requires 0 <= j < |needle| && needle[j] !in hay
    ensures !Contains(hay, needle)
  {
    ContainsIff(hay, needle);
  }
}
