/**
 * The parts of Python's built-in string handling that the analyser relies on:
 * `str.split()` with no argument, `str.strip()`, `sep.join(...)` and
 * `str.split(sep)`, left-justified format fields (`f"{x:<w}"`) and `str(n)` for
 * a natural number. Strings are sequences of Unicode scalar values, as Python
 * strings are sequences of code points.
 */
module Text {

  /** The characters Python's `str.split()` and `str.strip()` treat as whitespace. */
  predicate IsSpace(c: char) {
    || ('\t' <= c <= '\r')                  // tab, line feed, vertical tab, form feed, carriage return
    || ('\U{1C}' <= c <= '\U{1F}')          // file, group, record and unit separators
    || c == ' ' || c == '\U{85}' || c == '\U{A0}' || c == '\U{1680}'
    || ('\U{2000}' <= c <= '\U{200A}')
    || c == '\U{2028}' || c == '\U{2029}' || c == '\U{202F}' || c == '\U{205F}' || c == '\U{3000}'
  }

  /** A token `str.split()` can produce: non-empty and free of whitespace. */
  predicate IsWord(w: string) {
    |w| > 0 && forall i :: 0 <= i < |w| ==> !IsSpace(w[i])
  }

  predicate AllSpace(s: string) {
    forall i :: 0 <= i < |s| ==> IsSpace(s[i])
  }

  /** Drops the leading whitespace of `s`. */
  function SkipSpaces(s: string): (r: string)
    ensures |r| <= |s|
    ensures r == [] || !IsSpace(r[0])
  {
    if s != [] && IsSpace(s[0]) then SkipSpaces(s[1..]) else s
  }

  /** What `SkipSpaces` drops is whitespace, and what it keeps is a suffix. */
  lemma {:induction false} SkipSpacesDrops(s: string)
    ensures SkipSpaces(s) == s[|s| - |SkipSpaces(s)|..]
    ensures AllSpace(s[..|s| - |SkipSpaces(s)|])
    decreases |s|
  {
    if s != [] && IsSpace(s[0]) {
      SkipSpacesDrops(s[1..]);
      var k := |s| - |SkipSpaces(s)|;
      assert s[..k] == [s[0]] + s[1..][..k - 1];
    }
  }

  /** The length of the longest whitespace-free prefix of `s`. */
  function WordLength(s: string): (n: nat)
    ensures n <= |s|
    ensures n == |s| || IsSpace(s[n])
  {
    if s == [] || IsSpace(s[0]) then 0 else 1 + WordLength(s[1..])
  }

  /** The prefix `WordLength` measures holds no whitespace. */
  lemma {:induction false} WordLengthWord(s: string)
    ensures forall i :: 0 <= i < WordLength(s) ==> !IsSpace(s[i])
    decreases |s|
  {
    if s != [] && !IsSpace(s[0]) {
      WordLengthWord(s[1..]);
      assert forall i :: 1 <= i < WordLength(s) ==> s[i] == s[1..][i - 1];
    }
  }

  /** Python's `s.split()`: the maximal runs of non-whitespace characters, in order. */
  function Split(s: string): (tokens: seq<string>)
    decreases |s|
  {
    var t := SkipSpaces(s);
    if t == [] then []
    else
      var n := WordLength(t);
      [t[..n]] + Split(t[n..])
  }

  /** Every token `split()` returns is non-empty and holds no whitespace. */
  lemma {:induction false} SplitGivesWords(s: string)
    ensures forall i :: 0 <= i < |Split(s)| ==> IsWord(Split(s)[i])
    decreases |s|
  {
    var t := SkipSpaces(s);
    if t != [] {
      var n := WordLength(t);
      var rest := Split(t[n..]);
      WordLengthWord(t);
      assert IsWord(t[..n]);
      SplitGivesWords(t[n..]);
      SplitNonBlank(s);
      assert Split(s) == [t[..n]] + rest;
      forall i | 0 <= i < |Split(s)|
        ensures IsWord(Split(s)[i])
      {
        if i > 0 {
          assert Split(s)[i] == rest[i - 1];
        }
      }
    }
  }

  /** The words joined by single spaces, as `" ".join(words)`. */
  function JoinWords(words: seq<string>): string {
    if words == [] then ""
    else if |words| == 1 then words[0]
    else words[0] + " " + JoinWords(words[1..])
  }

  lemma {:induction false} WordLengthOfWord(w: string, rest: string)
    requires IsWord(w)
    requires rest == [] || IsSpace(rest[0])
    ensures WordLength(w + rest) == |w|
    decreases |w|
  {
    if |w| > 1 {
      assert (w + rest)[1..] == w[1..] + rest;
      WordLengthOfWord(w[1..], rest);
    } else {
      assert (w + rest)[1..] == rest;
    }
  }

  /** A word followed by whitespace or by nothing is the first token. */
  lemma SplitWordFirst(w: string, rest: string)
    requires IsWord(w)
    requires rest == [] || IsSpace(rest[0])
    ensures Split(w + rest) == [w] + Split(rest)
  {
    var s := w + rest;
    assert SkipSpaces(s) == s;
    WordLengthOfWord(w, rest);
    assert s[..|w|] == w && s[|w|..] == rest;
  }

  /** One leading whitespace character never changes what `split()` returns. */
  lemma SplitSpaceFirst(c: char, s: string)
    requires IsSpace(c)
    ensures Split([c] + s) == Split(s)
  {
    assert ([c] + s)[1..] == s;
  }

  /** Splitting words joined by single spaces gives the words back. */
  lemma {:induction false} SplitJoinWords(words: seq<string>)
    requires forall i :: 0 <= i < |words| ==> IsWord(words[i])
    ensures Split(JoinWords(words)) == words
    decreases |words|
  {
    if |words| == 1 {
      SplitWordFirst(words[0], "");
      assert words[0] + "" == words[0];
    } else if |words| > 1 {
      var tail := JoinWords(words[1..]);
      calc {
        Split(JoinWords(words));
        { assert JoinWords(words) == words[0] + (" " + tail); }
        Split(words[0] + (" " + tail));
        { SplitWordFirst(words[0], " " + tail); }
        [words[0]] + Split(" " + tail);
        { SplitSpaceFirst(' ', tail); }
        [words[0]] + Split(tail);
        { SplitJoinWords(words[1..]); }
        [words[0]] + words[1..];
      }
    }
  }

  /** Drops the trailing whitespace of `s`. */
  function TrimEnd(s: string): (r: string)
    ensures |r| <= |s| && r == s[..|r|]
    ensures r == [] || !IsSpace(r[|r| - 1])
    ensures AllSpace(s[|r|..])
  {
    if s != [] && IsSpace(s[|s| - 1]) then
      var r := TrimEnd(s[..|s| - 1]);
      assert s[|r|..] == s[..|s| - 1][|r|..] + [s[|s| - 1]];
      r
    else s
  }

  /** Python's `s.strip()`. */
  function Strip(s: string): string {
    TrimEnd(SkipSpaces(s))
  }

  lemma {:induction false} SkipSpacesAppend(s: string, tail: string)
    requires SkipSpaces(s) != []
    ensures SkipSpaces(s + tail) == SkipSpaces(s) + tail
    decreases |s|
  {
    if IsSpace(s[0]) {
      assert (s + tail)[1..] == s[1..] + tail;
      SkipSpacesAppend(s[1..], tail);
    }
  }

  lemma {:induction false} SkipSpacesAllSpace(s: string)
    requires AllSpace(s)
    ensures SkipSpaces(s) == []
    decreases |s|
  {
    if s != [] {
      SkipSpacesAllSpace(s[1..]);
    }
  }

  lemma {:induction false} WordLengthAppend(s: string, tail: string)
    requires WordLength(s) < |s| || tail == [] || IsSpace(tail[0])
    ensures WordLength(s + tail) == WordLength(s)
    decreases |s|
  {
    if s == [] {
    } else if !IsSpace(s[0]) {
      assert (s + tail)[1..] == s[1..] + tail;
      WordLengthAppend(s[1..], tail);
    }
  }

  /** The first token of a line that is not blank, and the rest of the line. */
  lemma SplitNonBlank(s: string)
    requires SkipSpaces(s) != []
    ensures var t := SkipSpaces(s); var n := WordLength(t);
      Split(s) == [t[..n]] + Split(t[n..])
  {
  }

  lemma SplitBlank(s: string, tail: string)
    requires SkipSpaces(s) == [] && AllSpace(tail)
    ensures Split(s + tail) == [] && Split(s) == []
  {
    SkipSpacesDrops(s);
    assert AllSpace(s + tail) by {
      assert s == s[..|s| - 0];
    }
    SkipSpacesAllSpace(s + tail);
  }

  lemma WordLengthSpaceTail(t: string, tail: string)
    requires AllSpace(tail)
    ensures WordLength(t + tail) == WordLength(t)
  {
    assert tail == [] || IsSpace(tail[0]);
    WordLengthAppend(t, tail);
  }

  lemma SplitFirstWordOf(x: string, t: string, tail: string, n: nat)
    requires SkipSpaces(x) == t + tail && t != [] && WordLength(t + tail) == n && n <= |t|
    ensures Split(x) == [t[..n]] + Split(t[n..] + tail)
  {
    SplitNonBlank(x);
    assert (t + tail)[..n] == t[..n];
    assert (t + tail)[n..] == t[n..] + tail;
  }

  lemma SplitNonBlankAppend(s: string, tail: string)
    requires SkipSpaces(s) != [] && AllSpace(tail)
    ensures var t := SkipSpaces(s); var n := WordLength(t);
      Split(s + tail) == [t[..n]] + Split(t[n..] + tail)
  {
    var t := SkipSpaces(s);
    SkipSpacesAppend(s, tail);
    WordLengthSpaceTail(t, tail);
    SplitFirstWordOf(s + tail, t, tail, WordLength(t));
  }

  /** Trailing whitespace never changes what `split()` returns. */
  lemma {:induction false} SplitIgnoresTrailingSpace(s: string, tail: string)
    requires AllSpace(tail)
    ensures Split(s + tail) == Split(s)
    decreases |s|
  {
    var t := SkipSpaces(s);
    if t == [] {
      SplitBlank(s, tail);
    } else {
      var n := WordLength(t);
      calc {
        Split(s + tail);
        { SplitNonBlankAppend(s, tail); }
        [t[..n]] + Split(t[n..] + tail);
        { SplitIgnoresTrailingSpace(t[n..], tail); }
        [t[..n]] + Split(t[n..]);
        { SplitNonBlank(s); }
        Split(s);
      }
    }
  }

  /** Leading whitespace never changes what `split()` returns. */
  lemma {:induction false} SplitIgnoresLeadingSpace(s: string)
    ensures Split(SkipSpaces(s)) == Split(s)
    decreases |s|
  {
    if s != [] && IsSpace(s[0]) {
      SplitIgnoresLeadingSpace(s[1..]);
    }
  }

  /** `s.strip().split() == s.split()`: stripping a line before splitting it changes nothing. */
  lemma SplitStrip(s: string)
    ensures Split(Strip(s)) == Split(s)
  {
    var t := SkipSpaces(s);
    var r := TrimEnd(t);
    assert t == r + t[|r|..];
    SplitIgnoresTrailingSpace(r, t[|r|..]);
    SplitIgnoresLeadingSpace(s);
  }

  /** `sep.join(parts)` for a one-character separator. */
  function JoinWith(parts: seq<string>, sep: char): string {
    if parts == [] then ""
    else if |parts| == 1 then parts[0]
    else parts[0] + [sep] + JoinWith(parts[1..], sep)
  }

  /** A join ends with its last part. */
  lemma {:induction false} JoinWithLast(parts: seq<string>, sep: char)
    requires |parts| >= 1
    ensures var j, last := JoinWith(parts, sep), parts[|parts| - 1];
            |last| <= |j| && j[|j| - |last|..] == last
    decreases |parts|
  {
    if |parts| > 1 {
      JoinWithLast(parts[1..], sep);
    }
  }

  /** A part that ends with the separator reads, once joined, as that part and an empty one. */
  lemma JoinWithEmptyPart(first: string, rest: seq<string>, sep: char)
    requires |rest| >= 1
    ensures JoinWith([first + [sep]] + rest, sep) == JoinWith([first, ""] + rest, sep)
  {
    assert ([first + [sep]] + rest)[1..] == rest;
    assert ([first, ""] + rest)[1..] == [""] + rest;
    assert ([""] + rest)[1..] == rest;
  }

  /** `s.split(sep)` for a one-character separator: always at least one part. */
  function SplitAt(s: string, sep: char): (parts: seq<string>)
    ensures |parts| >= 1
  {
    if s == [] then [""]
    else if s[0] == sep then [""] + SplitAt(s[1..], sep)
    else
      var p := SplitAt(s[1..], sep);
      [[s[0]] + p[0]] + p[1..]
  }

  lemma {:induction false} SplitAtPrefix(part: string, sep: char, rest: string)
    requires sep !in part
    ensures SplitAt(part + [sep] + rest, sep) == [part] + SplitAt(rest, sep)
    decreases |part|
  {
    if part != [] {
      assert part[0] in part;
      assert (part + [sep] + rest)[1..] == part[1..] + [sep] + rest;
      SplitAtPrefix(part[1..], sep, rest);
      assert [part[0]] + part[1..] == part;
    } else {
      assert (part + [sep] + rest)[1..] == rest;
    }
  }

  lemma {:induction false} SplitAtNoSep(part: string, sep: char)
    requires sep !in part
    ensures SplitAt(part, sep) == [part]
    decreases |part|
  {
    if part != [] {
      assert part[0] in part;
      SplitAtNoSep(part[1..], sep);
      assert [part[0]] + part[1..] == part;
    }
  }

  /** Splitting a join gives the parts back when no part holds the separator. */
  lemma {:induction false} SplitAtJoinWith(parts: seq<string>, sep: char)
    requires |parts| >= 1
    requires forall i :: 0 <= i < |parts| ==> sep !in parts[i]
    ensures SplitAt(JoinWith(parts, sep), sep) == parts
    decreases |parts|
  {
    if |parts| == 1 {
      SplitAtNoSep(parts[0], sep);
    } else {
      SplitAtPrefix(parts[0], sep, JoinWith(parts[1..], sep));
      SplitAtJoinWith(parts[1..], sep);
    }
  }

  /** `c * n` for a one-character string `c`. */
  function Repeat(c: char, n: nat): (r: string)
    ensures |r| == n
    ensures forall i :: 0 <= i < n ==> r[i] == c
  {
    if n == 0 then [] else [c] + Repeat(c, n - 1)
  }

  function Max(a: int, b: int): int {
    if a < b then b else a
  }

  /**
   * The format field `f"{s:<width}"`: `s` padded on the right with spaces up to
   * `width` characters, and never truncated.
   */
  function LeftJustify(s: string, width: nat): (r: string)
    ensures |r| == Max(|s|, width)
    ensures r[..|s|] == s
    ensures forall i :: |s| <= i < |r| ==> r[i] == ' '
  {
    if |s| < width then s + Repeat(' ', width - |s|) else s
  }

  /** Padding brings in spaces only: any other character is in the cell only if it is in `s`. */
  lemma LeftJustifyChars(s: string, width: nat, ch: char)
    requires ch != ' ' && ch !in s
    ensures ch !in LeftJustify(s, width)
  {
    var r := LeftJustify(s, width);
    forall i | 0 <= i < |r|
      ensures r[i] != ch
    {
      if i < |s| {
        assert r[i] == r[..|s|][i] == s[i];
      }
    }
  }

  /** Positions past the first part of a concatenation are positions in the second. */
  lemma SliceShift(a: string, b: string, i: nat, j: nat)
    requires i <= j <= |b|
    ensures (a + b)[|a| + i..|a| + j] == b[i..j]
  {
  }

  function DigitChar(d: nat): (c: char)
    requires d < 10
    ensures '0' <= c <= '9'
  {
    "0123456789"[d]
  }

  function DigitValue(c: char): nat
    requires '0' <= c <= '9'
  {
    (c as int) - ('0' as int)
  }

  predicate IsDigits(s: string) {
    |s| > 0 && forall i :: 0 <= i < |s| ==> '0' <= s[i] <= '9'
  }

  /** `str(n)` for a natural number: its decimal digits, most significant first. */
  function NatToString(n: nat): (s: string)
    ensures IsDigits(s)
    ensures |s| > 1 ==> s[0] != '0'
  {
    if n < 10 then [DigitChar(n)] else NatToString(n / 10) + [DigitChar(n % 10)]
  }

  /** `int(s)` for a string of decimal digits. */
  function ParseDigits(s: string): nat
    requires IsDigits(s)
  {
    if |s| == 1 then DigitValue(s[0])
    else 10 * ParseDigits(s[..|s| - 1]) + DigitValue(s[|s| - 1])
  }

  /** Reading back the digits that `str(n)` writes gives `n`. */
  lemma {:induction false} ParseNatToString(n: nat)
    ensures ParseDigits(NatToString(n)) == n
  {
    if n >= 10 {
      var s := NatToString(n);
      assert s[..|s| - 1] == NatToString(n / 10);
      ParseNatToString(n / 10);
    }
  }

  function Pow10(k: nat): (p: nat)
    ensures p >= 1
  {
    if k == 0 then 1 else 10 * Pow10(k - 1)
  }

  /** `str(n)` has at most `k` digits exactly when `n < 10^k`. */
  lemma {:induction false} NatToStringLength(n: nat, k: nat)
    requires k >= 1
    ensures |NatToString(n)| <= k <==> n < Pow10(k)
    decreases n
  {
    if n >= 10 {
      if k == 1 {
        assert Pow10(1) == 10;
      } else {
        NatToStringLength(n / 10, k - 1);
      }
    } else {
      assert Pow10(k) >= 10 by { PowGrows(k); }
    }
  }

  lemma {:induction false} PowGrows(k: nat)
    requires k >= 1
    ensures Pow10(k) >= 10
  {
    if k > 1 {
      PowGrows(k - 1);
    }
  }

  /** The characters of `s` before its trailing spaces (`s.rstrip(" ")`). */
  function TrimSpaces(s: string): (r: string)
    ensures |r| <= |s| && r == s[..|r|]
  {
    if s != [] && s[|s| - 1] == ' ' then TrimSpaces(s[..|s| - 1]) else s
  }

  /** Trailing padding comes off again, down to the last non-space character. */
  lemma {:induction false} TrimPadded(s: string, n: nat)
    requires s == [] || s[|s| - 1] != ' '
    ensures TrimSpaces(s + Repeat(' ', n)) == s
  {
    if n == 0 {
      assert s + Repeat(' ', 0) == s;
    } else {
      var p := s + Repeat(' ', n);
      assert p[|p| - 1] == ' ';
      assert p[..|p| - 1] == s + Repeat(' ', n - 1);
      TrimPadded(s, n - 1);
    }
  }

  /** A left-justified cell gives back its text once trailing spaces are trimmed. */
  lemma TrimLeftJustify(s: string, width: nat)
    requires s == [] || s[|s| - 1] != ' '
    ensures TrimSpaces(LeftJustify(s, width)) == s
  {
    var n := if |s| < width then width - |s| else 0;
    assert LeftJustify(s, width) == s + Repeat(' ', n);
    TrimPadded(s, n);
  }
}
