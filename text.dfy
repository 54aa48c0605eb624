/**
 * The pieces of Python's `str` API the pipeline relies on: strip, split,
 * splitlines, find/rfind, `in`, int() and str() of integers, and slicing
 * with a possibly negative bound.  Whitespace is exactly the set of
 * characters `str.isspace()` accepts, which is also what the regular
 * expression class `\s` matches in a `str` pattern; case mapping and digit
 * tests are ASCII only.
 */
module Text {
  import opened Wrappers

  /** The characters for which `str.isspace()` holds. */
  predicate IsSpace(c: char) {
    ('\t' <= c <= '\r') || ('\U{1C}' <= c <= ' ') || c == '\U{85}' || c == '\U{A0}' ||
    c == '\U{1680}' || ('\U{2000}' <= c <= '\U{200A}') || c == '\U{2028}' || c == '\U{2029}' ||
    c == '\U{202F}' || c == '\U{205F}' || c == '\U{3000}'
  }

  /** The line boundaries `str.splitlines()` splits on ("\r\n" counts as one). */
  predicate IsLineBreak(c: char) {
    ('\n' <= c <= '\r') || ('\U{1C}' <= c <= '\U{1E}') || c == '\U{85}' || c == '\U{2028}' || c == '\U{2029}'
  }

  predicate IsDigit(c: char) { '0' <= c <= '9' }

  predicate IsDoubleQuote(c: char) { c == '"' }

  predicate IsSingleQuote(c: char) { c == '\'' }

  /** No whitespace at either end: what `strip()` leaves. */
  predicate Trimmed(s: string) {
    s == [] || (!IsSpace(s[0]) && !IsSpace(s[|s| - 1]))
  }

  predicate HasNo(s: string, cs: char -> bool) { forall i :: 0 <= i < |s| ==> !cs(s[i]) }

  predicate StartsWith(s: string, prefix: string) {
    |prefix| <= |s| && s[..|prefix|] == prefix
  }

  /** Python's `sub in s`. */
  predicate Contains(s: string, sub: string)
    decreases |s|
  {
    StartsWith(s, sub) || (s != [] && Contains(s[1..], sub))
  }

  lemma {:induction false} ContainsAt(s: string, sub: string, i: nat)
    requires i + |sub| <= |s| && s[i..i + |sub|] == sub
    ensures Contains(s, sub)
    decreases i
  {
    if i > 0 {
      assert s[1..][i - 1..i - 1 + |sub|] == s[i..i + |sub|];
      ContainsAt(s[1..], sub, i - 1);
    }
  }

  lemma ContainsInside(a: string, sub: string, b: string)
    ensures Contains(a + sub + b, sub)
  {
    var s := a + sub + b;
    assert s[|a|..|a| + |sub|] == sub;
    ContainsAt(s, sub, |a|);
  }

  lemma ContainsBoth(a: string, x: string, m: string, y: string, b: string)
    ensures Contains(a + x + m + y + b, x) && Contains(a + x + m + y + b, y)
  {
    assert a + x + m + y + b == a + x + (m + y + b);
    ContainsInside(a, x, m + y + b);
    ContainsInside(a + x + m, y, b);
  }

  /** Drops the longest prefix made only of characters in `cs`. */
  function TrimStart(s: string, cs: char -> bool): (r: string)
    ensures |r| <= |s| && r == s[|s| - |r|..]
    ensures r == [] || !cs(r[0])
    ensures forall i :: 0 <= i < |s| - |r| ==> cs(s[i])
    decreases |s|
  {
    if |s| > 0 && cs(s[0]) then TrimStart(s[1..], cs) else s
  }

  /** Drops the longest suffix made only of characters in `cs`. */
  function TrimEnd(s: string, cs: char -> bool): (r: string)
    ensures |r| <= |s| && r == s[..|r|]
    ensures r == [] || !cs(r[|r| - 1])
    ensures forall i :: |r| <= i < |s| ==> cs(s[i])
    decreases |s|
  {
    if |s| > 0 && cs(s[|s| - 1]) then TrimEnd(s[..|s| - 1], cs) else s
  }

  /**
   * Python's `s.strip(chars)`, with `chars` given as a character class: the
   * leading characters of the class go first, then the trailing ones.
   */
  function StripSet(s: string, cs: char -> bool): string
    decreases |s|
  {
    if |s| > 0 && cs(s[0]) then StripSet(s[1..], cs)
    else if |s| > 0 && cs(s[|s| - 1]) then StripSet(s[..|s| - 1], cs)
    else s
  }

  /** What is left is no longer than the input and starts and ends outside the class. */
  lemma {:induction false} StripSetEnds(s: string, cs: char -> bool)
    ensures |StripSet(s, cs)| <= |s|
    ensures StripSet(s, cs) == [] || (!cs(StripSet(s, cs)[0]) && !cs(StripSet(s, cs)[|StripSet(s, cs)| - 1]))
    decreases |s|
  {
    if |s| > 0 && cs(s[0]) {
      StripSetEnds(s[1..], cs);
    } else if |s| > 0 && cs(s[|s| - 1]) {
      StripSetEnds(s[..|s| - 1], cs);
    }
  }

  /** Stripping only removes characters: a character absent from the input is absent from the result. */
  lemma {:induction false} StripSetKeepsOut(s: string, cs: char -> bool, c: char)
    requires c !in s
    ensures c !in StripSet(s, cs)
    decreases |s|
  {
    if |s| > 0 && cs(s[0]) {
      assert forall k :: 0 <= k < |s[1..]| ==> s[1..][k] == s[k + 1];
      StripSetKeepsOut(s[1..], cs, c);
    } else if |s| > 0 && cs(s[|s| - 1]) {
      assert forall k :: 0 <= k < |s[..|s| - 1]| ==> s[..|s| - 1][k] == s[k];
      StripSetKeepsOut(s[..|s| - 1], cs, c);
    }
  }

  /** Stripping from both ends at once is trimming the front, then the back. */
  lemma {:induction false} StripSetIsTrim(s: string, cs: char -> bool)
    ensures StripSet(s, cs) == TrimEnd(TrimStart(s, cs), cs)
    decreases |s|
  {
    if |s| > 0 && cs(s[0]) {
      StripSetIsTrim(s[1..], cs);
    } else if |s| > 0 && cs(s[|s| - 1]) {
      var front := s[..|s| - 1];
      StripSetIsTrim(front, cs);
      assert front[0] == s[0];
      assert TrimStart(front, cs) == front;
      assert front[..|front| - 1] == s[..|s| - 2];
    }
  }

  /**
   * Python's `s.strip()`: the slice of `s` left once the leading and the
   * trailing whitespace are cut off (the front is trimmed first, then the
   * back, so all-blank text gives "").
   */
  function Strip(s: string): (r: string)
    ensures |r| <= |s|
    ensures Trimmed(r)
  {
    StripSetEnds(s, IsSpace);
    StripSet(s, IsSpace)
  }

  /** Trimming both ends leaves a slice with only class characters outside it. */
  lemma {:induction false} TrimBothSlice(s: string, cs: char -> bool)
    ensures var r := TrimEnd(TrimStart(s, cs), cs); var lead := |s| - |TrimStart(s, cs)|;
      lead + |r| <= |s| && r == s[lead..lead + |r|]
    ensures forall i :: 0 <= i < |s| - |TrimStart(s, cs)| ==> cs(s[i])
    ensures var r := TrimEnd(TrimStart(s, cs), cs); var lead := |s| - |TrimStart(s, cs)|;
      forall i :: lead + |r| <= i < |s| ==> cs(s[i])
  {
    var t := TrimStart(s, cs);
    var r := TrimEnd(t, cs);
    var lead := |s| - |t|;
    PrefixOfSuffix(s, t, r, lead);
    forall i | lead + |r| <= i < |s| ensures cs(s[i]) {
      assert cs(t[i - lead]);
    }
  }

  lemma {:induction false} PrefixOfSuffix(s: string, t: string, r: string, lead: nat)
    requires lead <= |s| && t == s[lead..] && |r| <= |t| && r == t[..|r|]
    ensures r == s[lead..lead + |r|]
    ensures forall i :: lead + |r| <= i < |s| ==> s[i] == t[i - lead]
  {
  }

  /**
   * Only whitespace is cut: the result is the front-trimmed text trimmed
   * at the back, so it sits in `s` with nothing but whitespace before and
   * after it, and it neither starts nor ends with whitespace.
   */
  lemma {:induction false} StripCutsOnlySpace(s: string)
    ensures Strip(s) == TrimEnd(TrimStart(s, IsSpace), IsSpace)
    ensures var r := Strip(s); var lead := |s| - |TrimStart(s, IsSpace)|;
      lead + |r| <= |s| && r == s[lead..lead + |r|] && Trimmed(r) &&
      (forall i :: 0 <= i < lead ==> IsSpace(s[i])) &&
      (forall i :: lead + |r| <= i < |s| ==> IsSpace(s[i]))
  {
    StripSetIsTrim(s, IsSpace);
    TrimBothSlice(s, IsSpace);
  }

  lemma StripSetNoop(s: string, cs: char -> bool)
    requires s == [] || (!cs(s[0]) && !cs(s[|s| - 1]))
    ensures StripSet(s, cs) == s
  {
  }

  /** One character of the class on each side is stripped off, down to a core that starts and ends outside it. */
  lemma {:induction false} StripSetBetween(v: string, c: char, cs: char -> bool)
    requires cs(c)
    requires v == [] || (!cs(v[0]) && !cs(v[|v| - 1]))
    ensures StripSet([c] + v + [c], cs) == v
  {
    var w := [c] + v + [c];
    assert w[1..] == v + [c];
    if v == [] {
      assert [c][1..] == [];
      assert StripSet([c], cs) == StripSet([], cs) == [];
    } else {
      var u := v + [c];
      assert u[0] == v[0] && u[..|u| - 1] == v;
      StripSetNoop(v, cs);
    }
  }

  /** Stripping twice strips nothing more. */
  lemma StripIdempotent(s: string)
    ensures Strip(Strip(s)) == Strip(s)
  {
    StripSetNoop(Strip(s), IsSpace);
  }

  predicate IsUpper(c: char) { 'A' <= c <= 'Z' }

  function LowerChar(c: char): char {
    if IsUpper(c) then (c as int + 32) as char else c
  }

  /**
   * Python's `s.lower()`, restricted to ASCII letters: no capital is left,
   * text without capitals is unchanged, and every other character is either
   * kept or is the lower-case form of the capital in its place.
   */
  function Lower(s: string): (r: string)
    ensures |r| == |s|
    ensures HasNo(r, IsUpper)
    ensures HasNo(s, IsUpper) ==> r == s
    ensures forall i :: 0 <= i < |s| ==> r[i] == s[i] || (IsUpper(s[i]) && r[i] as int == s[i] as int + 32)
  {
    seq(|s|, i requires 0 <= i < |s| => LowerChar(s[i]))
  }

  /** Lower-casing twice lower-cases nothing more. */
  lemma LowerIdempotent(s: string)
    ensures Lower(Lower(s)) == Lower(s)
  {
  }

  /** Two texts that agree up to the case of their letters lower-case alike. */
  lemma LowerIgnoresCase(s: string, t: string)
    requires |s| == |t|
    requires forall i :: 0 <= i < |s| ==> s[i] == t[i] || LowerChar(s[i]) == t[i] || s[i] == LowerChar(t[i])
    ensures Lower(s) == Lower(t)
  {
  }

  /** Python's `s.find(c)` for a single character: the first index, or -1. */
  function Find(s: string, c: char): (r: int)
    ensures -1 <= r < |s|
    ensures r == -1 <==> c !in s
    ensures r >= 0 ==> s[r] == c && c !in s[..r]
  {
    if s == [] then -1
    else if s[0] == c then 0
    else
      var k := Find(s[1..], c);
      assert s[1..][..Max(k, 0)] == s[1..Max(k, 0) + 1];
      if k < 0 then -1 else k + 1
  }

  /** Python's `s.rfind(c)` for a single character: the last index, or -1. */
  function RFind(s: string, c: char): (r: int)
    ensures -1 <= r < |s|
    ensures r == -1 <==> c !in s
    ensures r >= 0 ==> s[r] == c && forall j :: r < j < |s| ==> s[j] != c
  {
    if s == [] then -1
    else if s[|s| - 1] == c then |s| - 1
    else
      var k := RFind(s[..|s| - 1], c);
      assert c !in s[..|s| - 1] ==> c !in s by {
        assert s == s[..|s| - 1] + [s[|s| - 1]];
      }
      k
  }

  /** The first index holding a character of `cs`, or |s| when there is none. */
  function FirstIn(s: string, cs: char -> bool): (i: nat)
    ensures i <= |s|
    ensures i < |s| ==> cs(s[i])
    ensures forall j :: 0 <= j < i ==> !cs(s[j])
  {
    if s == [] || cs(s[0]) then 0 else 1 + FirstIn(s[1..], cs)
  }

  /** `sep.join(parts)`. */
  function Join(parts: seq<string>, sep: string): string
    decreases |parts|
  {
    if |parts| == 0 then []
    else if |parts| == 1 then parts[0]
    else parts[0] + sep + Join(parts[1..], sep)
  }

  /** Python's `s.split(c)`: every piece, empty ones included. */
  function SplitOn(s: string, c: char): (parts: seq<string>)
    ensures |parts| >= 1
    ensures forall i :: 0 <= i < |parts| ==> c !in parts[i]
    ensures Join(parts, [c]) == s
    decreases |s|
  {
    var i := Find(s, c);
    if i < 0 then [s]
    else
      var rest := SplitOn(s[i + 1..], c);
      assert ([s[..i]] + rest)[1..] == rest;
      assert s == s[..i] + [c] + s[i + 1..];
      [s[..i]] + rest
  }

  lemma SplitOnSingle(s: string, c: char)
    requires c !in s
    ensures SplitOn(s, c) == [s]
  {
  }

  /** The first occurrence of `c` is where `find` stops. */
  lemma {:induction false} FindFirst(s: string, c: char, i: nat)
    requires i < |s| && s[i] == c && c !in s[..i]
    ensures Find(s, c) == i
    decreases i
  {
    if i > 0 {
      assert s[0] == s[..i][0];
      assert s[1..][..i - 1] == s[1..i];
      assert forall k :: 0 <= k < i - 1 ==> s[1..i][k] == s[..i][k + 1];
      FindFirst(s[1..], c, i - 1);
    }
  }

  /** Python's `s.split(c, 1)` when it gives two parts; None when `c` does not occur. */
  function SplitOnce(s: string, c: char): (r: Option<(string, string)>)
    ensures r.None? <==> c !in s
    ensures r.Some? ==> c !in r.value.0 && r.value.0 + [c] + r.value.1 == s
  {
    var i := Find(s, c);
    if i < 0 then None
    else
      assert s == s[..i] + [c] + s[i + 1..];
      Some((s[..i], s[i + 1..]))
  }

  /** Python's `s.splitlines()`. */
  function SplitLines(s: string): (lines: seq<string>)
    ensures |lines| <= |s|
    ensures forall k :: 0 <= k < |lines| ==> HasNo(lines[k], IsLineBreak)
    decreases |s|
  {
    if s == [] then []
    else
      var i := FirstIn(s, IsLineBreak);
      if i == |s| then [s]
      else
        var width := if s[i] == '\r' && i + 1 < |s| && s[i + 1] == '\n' then 2 else 1;
        [s[..i]] + SplitLines(s[i + width..])
  }

  /** Text whose only line break is `\n`. */
  predicate OnlyNewlineBreaks(s: string) {
    forall i :: 0 <= i < |s| && IsLineBreak(s[i]) ==> s[i] == '\n'
  }

  /** The empty piece `split('\n')` leaves after a final `\n` (or of empty text), which `splitlines()` omits. */
  function NewlineTrailer(s: string): seq<string> {
    if s == [] || s[|s| - 1] == '\n' then [""] else []
  }

  /**
   * Under `splitlines()` text whose only line break is `\n` gives the
   * pieces between the `\n`s, less the empty piece after a final one.
   */
  lemma {:induction false} SplitLinesOfNewlines(s: string)
    requires OnlyNewlineBreaks(s)
    ensures SplitLines(s) + NewlineTrailer(s) == SplitOn(s, '\n')
    decreases |s|
  {
    if s != [] {
      var i := FirstIn(s, IsLineBreak);
      if i == |s| {
        OneLine(s);
      } else {
        NewlineRest(s, i);
        SplitLinesOfNewlines(s[i + 1..]);
        NewlineStep(s, i);
      }
    }
  }

  /** One `\n` further: what holds of the text after the first break holds of the whole. */
  lemma {:induction false} NewlineStep(s: string, i: nat)
    requires OnlyNewlineBreaks(s)
    requires s != [] && i == FirstIn(s, IsLineBreak) && i < |s|
    requires SplitLines(s[i + 1..]) + NewlineTrailer(s[i + 1..]) == SplitOn(s[i + 1..], '\n')
    ensures SplitLines(s) + NewlineTrailer(s) == SplitOn(s, '\n')
  {
    NewlineCut(s, i);
    NewlineRest(s, i);
    var rest := s[i + 1..];
    ConsAppend(s[..i], SplitLines(rest), NewlineTrailer(s), SplitOn(rest, '\n'));
  }

  lemma ConsAppend<T>(x: T, a: seq<T>, t: seq<T>, b: seq<T>)
    requires a + t == b
    ensures ([x] + a) + t == [x] + b
  {
  }

  /** Text without a line break is one line, and one `split` piece. */
  lemma {:induction false} OneLine(s: string)
    requires s != [] && FirstIn(s, IsLineBreak) == |s|
    ensures SplitLines(s) + NewlineTrailer(s) == SplitOn(s, '\n')
  {
    assert !IsLineBreak(s[|s| - 1]);
    assert '\n' !in s by {
      forall j | 0 <= j < |s| ensures s[j] != '\n' {
        assert !IsLineBreak(s[j]);
      }
    }
    SplitOnSingle(s, '\n');
  }

  /** At the first break of such text both splits cut off the same first piece. */
  lemma {:induction false} NewlineCut(s: string, i: nat)
    requires OnlyNewlineBreaks(s)
    requires s != [] && i == FirstIn(s, IsLineBreak) && i < |s|
    ensures SplitOn(s, '\n') == [s[..i]] + SplitOn(s[i + 1..], '\n')
    ensures SplitLines(s) == [s[..i]] + SplitLines(s[i + 1..])
  {
    assert '\n' !in s[..i] by {
      forall j | 0 <= j < i ensures s[..i][j] != '\n' {
        assert s[..i][j] == s[j];
      }
    }
    SplitOnAt(s, '\n', i);
    SplitLinesAt(s, i);
  }

  /** What follows that first `\n` is text of the same kind, ending as the whole does. */
  lemma {:induction false} NewlineRest(s: string, i: nat)
    requires OnlyNewlineBreaks(s)
    requires i < |s| && IsLineBreak(s[i])
    ensures NewlineTrailer(s[i + 1..]) == NewlineTrailer(s)
    ensures OnlyNewlineBreaks(s[i + 1..])
  {
    var rest := s[i + 1..];
    forall j | 0 <= j < |rest| && IsLineBreak(rest[j]) ensures rest[j] == '\n' {
      assert rest[j] == s[i + 1 + j];
    }
    if rest != [] {
      assert rest[|rest| - 1] == s[|s| - 1];
    }
  }

  /** Joining the lines with `\n` rebuilds text whose only break is `\n` and that does not end in one. */
  lemma JoinSplitLines(s: string)
    requires OnlyNewlineBreaks(s)
    requires s == [] || s[|s| - 1] != '\n'
    ensures Join(SplitLines(s), "\n") == s
  {
    SplitLinesOfNewlines(s);
    if s != [] {
      assert SplitLines(s) + [] == SplitLines(s);
    }
  }

  /** `split` cuts at the first occurrence of its separator. */
  lemma SplitOnAt(s: string, c: char, i: nat)
    requires i < |s| && s[i] == c && c !in s[..i]
    ensures SplitOn(s, c) == [s[..i]] + SplitOn(s[i + 1..], c)
  {
    FindFirst(s, c, i);
  }

  /** `splitlines` cuts one character at a first break that is `\n`. */
  lemma SplitLinesAt(s: string, i: nat)
    requires s != [] && i == FirstIn(s, IsLineBreak) && i < |s| && s[i] == '\n'
    ensures SplitLines(s) == [s[..i]] + SplitLines(s[i + 1..])
  {
  }

  /** The maximal runs of characters outside `cs`, in order. */
  function Fields(s: string, cs: char -> bool): (words: seq<string>)
    ensures forall k :: 0 <= k < |words| ==> words[k] != [] && HasNo(words[k], cs)
    decreases |s|
  {
    var t := TrimStart(s, cs);
    if t == [] then []
    else
      var i := FirstIn(t, cs);
      assert !cs(t[0]);
      assert i > 0;
      var word := t[..i];
      assert HasNo(word, cs) by {
        forall j | 0 <= j < |word| ensures !cs(word[j]) {
          assert word[j] == t[j];
        }
      }
      var rest := Fields(t[i..], cs);
      var words := [word] + rest;
      assert forall k | 0 <= k < |words| :: words[k] != [] && HasNo(words[k], cs) by {
        forall k | 0 <= k < |words| ensures words[k] != [] && HasNo(words[k], cs) {
          if k > 0 { assert words[k] == rest[k - 1]; }
        }
      }
      words
  }

  /** Python's `s.split()`: the maximal runs of non-whitespace characters. */
  function SplitWs(s: string): (words: seq<string>)
    ensures forall k :: 0 <= k < |words| ==> words[k] != [] && HasNo(words[k], IsSpace)
  {
    Fields(s, IsSpace)
  }

  lemma {:induction false} FirstInAfter(w: string, rest: string, cs: char -> bool)
    requires HasNo(w, cs) && rest != [] && cs(rest[0])
    ensures FirstIn(w + rest, cs) == |w|
    decreases |w|
  {
    if w != [] {
      assert (w + rest)[1..] == w[1..] + rest;
      FirstInAfter(w[1..], rest, cs);
    }
  }

  lemma FieldsOfWord(w: string, cs: char -> bool)
    requires w != [] && HasNo(w, cs)
    ensures Fields(w, cs) == [w]
  {
    assert TrimStart(w, cs) == w;
    var i := FirstIn(w, cs);
    assert i == |w|;
    assert w[..i] == w;
    assert w[i..] == [];
  }

  lemma FieldsAfterSeparator(sep: char, rest: string, cs: char -> bool)
    requires cs(sep)
    ensures Fields([sep] + rest, cs) == Fields(rest, cs)
  {
    assert ([sep] + rest)[1..] == rest;
    assert TrimStart([sep] + rest, cs) == TrimStart(rest, cs);
  }

  lemma FieldsAfterWord(w: string, tail: string, cs: char -> bool)
    requires w != [] && HasNo(w, cs) && tail != [] && cs(tail[0])
    ensures Fields(w + tail, cs) == [w] + Fields(tail, cs)
  {
    var s := w + tail;
    assert s[0] == w[0];
    assert TrimStart(s, cs) == s;
    FirstInAfter(w, tail, cs);
    assert s[..|w|] == w;
    assert s[|w|..] == tail;
  }

  lemma FieldsOfJoinStep(w: string, tailWords: seq<string>, sep: char, cs: char -> bool)
    requires cs(sep) && w != [] && HasNo(w, cs) && tailWords != []
    requires Fields(Join(tailWords, [sep]), cs) == tailWords
    ensures Fields(Join([w] + tailWords, [sep]), cs) == [w] + tailWords
  {
    var rest := Join(tailWords, [sep]);
    assert ([w] + tailWords)[1..] == tailWords;
    assert Join([w] + tailWords, [sep]) == w + ([sep] + rest);
    FieldsAfterWord(w, [sep] + rest, cs);
    FieldsAfterSeparator(sep, rest, cs);
  }

  /** Text made only of separators has no fields, and any other text has some. */
  lemma {:induction false} FieldsBlank(s: string, cs: char -> bool)
    ensures Fields(s, cs) == [] <==> forall i :: 0 <= i < |s| ==> cs(s[i])
  {
    var t := TrimStart(s, cs);
    if t != [] {
      assert t[0] == s[|s| - |t|];
    }
  }

  /** Leading separators do not change the fields. */
  lemma {:induction false} FieldsSkipGap(gap: string, rest: string, cs: char -> bool)
    requires forall i :: 0 <= i < |gap| ==> cs(gap[i])
    ensures Fields(gap + rest, cs) == Fields(rest, cs)
    decreases |gap|
  {
    if gap != [] {
      var more := gap[1..];
      assert gap + rest == [gap[0]] + (more + rest);
      FieldsAfterSeparator(gap[0], more + rest, cs);
      assert forall i :: 0 <= i < |more| ==> more[i] == gap[i + 1];
      FieldsSkipGap(more, rest, cs);
    } else {
      assert gap + rest == rest;
    }
  }

  /**
   * The first field is the first maximal run: after any separators, a
   * non-empty run of other characters that the text ends with or that a
   * separator follows comes out whole, and the fields of the rest follow.
   */
  lemma {:induction false} FieldsRun(gap: string, word: string, tail: string, cs: char -> bool)
    requires forall i :: 0 <= i < |gap| ==> cs(gap[i])
    requires word != [] && HasNo(word, cs)
    requires tail == [] || cs(tail[0])
    ensures Fields(gap + word + tail, cs) == [word] + Fields(tail, cs)
  {
    assert gap + word + tail == gap + (word + tail);
    FieldsSkipGap(gap, word + tail, cs);
    if tail == [] {
      assert word + tail == word;
      FieldsOfWord(word, cs);
    } else {
      FieldsAfterWord(word, tail, cs);
    }
  }

  /** Splitting words joined by one separator of the class gives back the words. */
  lemma {:induction false} FieldsOfJoin(words: seq<string>, sep: char, cs: char -> bool)
    requires cs(sep)
    requires forall k :: 0 <= k < |words| ==> words[k] != [] && HasNo(words[k], cs)
    ensures Fields(Join(words, [sep]), cs) == words
    decreases |words|
  {
    if |words| == 0 {
    } else if |words| == 1 {
      FieldsOfWord(words[0], cs);
    } else {
      var tailWords := words[1..];
      forall k | 0 <= k < |tailWords| ensures tailWords[k] != [] && HasNo(tailWords[k], cs) {
        assert tailWords[k] == words[k + 1];
      }
      FieldsOfJoin(tailWords, sep, cs);
      FieldsOfJoinStep(words[0], tailWords, sep, cs);
      assert words == [words[0]] + tailWords;
    }
  }

  /** Splitting text joined by single spaces gives back the words, when no word is empty or holds whitespace. */
  lemma SplitWsOfJoin(words: seq<string>)
    requires forall k :: 0 <= k < |words| ==> words[k] != [] && HasNo(words[k], IsSpace)
    ensures SplitWs(Join(words, " ")) == words
  {
    FieldsOfJoin(words, ' ', IsSpace);
  }

  function DigitChar(d: nat): char
    requires d < 10
  {
    ('0' as int + d) as char
  }

  function DigitValue(c: char): nat
    requires IsDigit(c)
  {
    c as int - '0' as int
  }

  /** `str(n)` for a natural number. */
  function NatToString(n: nat): (r: string)
    ensures r != [] && IsDigit(r[0]) && IsDigit(r[|r| - 1])
    ensures forall i :: 0 <= i < |r| ==> IsDigit(r[i])
    decreases n
  {
    if n < 10 then [DigitChar(n)] else NatToString(n / 10) + [DigitChar(n % 10)]
  }

  /** `str(n)` for an integer. */
  function IntToString(n: int): string {
    if n < 0 then "-" + NatToString(-n) else NatToString(n)
  }

  /** Digits, optionally grouped by single underscores, as `int()` accepts them. */
  predicate DigitGroups(s: string) {
    s != [] && IsDigit(s[0]) && IsDigit(s[|s| - 1]) &&
    (forall i :: 0 <= i < |s| ==> IsDigit(s[i]) || s[i] == '_') &&
    (forall i :: 0 <= i < |s| - 1 ==> s[i] == '_' ==> IsDigit(s[i + 1]))
  }

  /** The number the digits of `s` spell, underscores ignored. */
  function DigitsValue(s: string): nat
    requires forall i :: 0 <= i < |s| ==> IsDigit(s[i]) || s[i] == '_'
  {
    if s == [] then 0
    else if s[|s| - 1] == '_' then DigitsValue(s[..|s| - 1])
    else DigitsValue(s[..|s| - 1]) * 10 + DigitValue(s[|s| - 1])
  }

  /** Python's `int(s)` in base 10: surrounding whitespace, an optional sign, then digit groups; None stands for ValueError. */
  function ParseInt(s: string): (r: Option<int>)
    ensures r.Some? ==> Strip(s) != []
    ensures var t := Strip(s);
      r.Some? <==> DigitGroups(t) || (t != [] && (t[0] == '-' || t[0] == '+') && DigitGroups(t[1..]))
    ensures var t := Strip(s); DigitGroups(t) ==> r == Some(DigitsValue(t))
    ensures var t := Strip(s); t != [] && t[0] == '+' && DigitGroups(t[1..]) ==> r == Some(DigitsValue(t[1..]))
    ensures var t := Strip(s); t != [] && t[0] == '-' && DigitGroups(t[1..]) ==> r == Some(-(DigitsValue(t[1..]) as int))
  {
    ParseSigned(Strip(s))
  }

  /** `int()` of text with no surrounding whitespace. */
  function ParseSigned(t: string): (r: Option<int>)
    ensures r.Some? ==> t != []
  {
    if t != [] && (t[0] == '-' || t[0] == '+') then
      if DigitGroups(t[1..]) then
        var v: int := DigitsValue(t[1..]);
        Some(if t[0] == '-' then -v else v)
      else None
    else if DigitGroups(t) then Some(DigitsValue(t))
    else None
  }

  lemma {:induction false} DigitsValueOfNat(n: nat)
    ensures DigitsValue(NatToString(n)) == n
    decreases n
  {
    var r := NatToString(n);
    if n >= 10 {
      DigitsValueOfNat(n / 10);
      assert r[..|r| - 1] == NatToString(n / 10);
    }
  }

  lemma NatDigitGroups(n: nat)
    ensures DigitGroups(NatToString(n))
  {
  }

  lemma NoSpaceAtEnds(t: string)
    requires t != [] && (IsDigit(t[0]) || t[0] == '-') && IsDigit(t[|t| - 1])
    ensures Strip(t) == t
  {
    StripSetNoop(t, IsSpace);
  }

  lemma ParseNatString(n: nat)
    ensures ParseInt(NatToString(n)) == Some(n)
  {
    var t := NatToString(n);
    NoSpaceAtEnds(t);
    DigitsValueOfNat(n);
    NatDigitGroups(n);
    assert ParseSigned(t) == Some(n);
  }

  lemma ParseNegativeString(n: int)
    requires n < 0
    ensures ParseInt(IntToString(n)) == Some(n)
  {
    var t := IntToString(n);
    NegativeStripped(n);
    DigitsValueOfNat(-n);
    NatDigitGroups(-n);
    assert DigitGroups(t[1..]) && DigitsValue(t[1..]) == -n;
    assert ParseInt(t) == ParseSigned(t);
  }

  lemma NegativeStripped(n: int)
    requires n < 0
    ensures var t := IntToString(n); Strip(t) == t && t[0] == '-' && t[1..] == NatToString(-n)
  {
    var t := "-" + NatToString(-n);
    NoSpaceAtEnds(t);
    assert t[1..] == NatToString(-n);
  }

  /** `int(str(n)) == n`. */
  lemma IntRoundTrip(n: int)
    ensures ParseInt(IntToString(n)) == Some(n)
  {
    if n < 0 {
      ParseNegativeString(n);
    } else {
      ParseNatString(n);
    }
  }

  /** Integer division truncated toward zero, as `int(a / b)` computes it. */
  function TruncDiv(a: int, b: int): (q: int)
    requires b != 0
    ensures (a >= 0 && b > 0) ==> q * b <= a < q * b + b
    ensures Abs(q) * Abs(b) <= Abs(a) < (Abs(q) + 1) * Abs(b)
    ensures (a < 0) == (b < 0) ==> q >= 0
    ensures (a < 0) != (b < 0) ==> q <= 0
  {
    var na, nb := Abs(a), Abs(b);
    DivBounds(na, nb);
    if (a < 0) == (b < 0) then na / nb else -(na / nb)
  }

  lemma DivBounds(n: nat, d: nat)
    requires d > 0
    ensures n / d >= 0
    ensures (n / d) * d <= n < (n / d + 1) * d
  {
    assert n == (n / d) * d + n % d;
  }

  function Abs(x: int): nat {
    if x < 0 then -x else x
  }

  /** Python's `s[:n]`: a negative `n` counts from the end. */
  function PyTake<T>(s: seq<T>, n: int): (r: seq<T>)
    ensures |r| == if n >= 0 then Min(n, |s|) else Max(0, |s| + n)
    ensures r == s[..|r|]
  {
    if n >= 0 then (if n <= |s| then s[..n] else s)
    else if |s| + n >= 0 then s[..|s| + n]
    else []
  }
}
