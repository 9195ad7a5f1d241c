/**
 * Character classes and string operations used by the quiz parser, the
 * language search box, the translator guard and the filename sanitiser.
 * Strings are sequences of Unicode code points.
 */
module Text {

  /** The characters JavaScript's `String.prototype.trim` removes and its
      regular expressions match with `\s`: WhiteSpace and LineTerminator
      of the ECMAScript grammar (Zs of Unicode included). */
  predicate IsJsSpace(c: char)
  {
    c == '\t' || c == '\n' || c == '\U{000B}' || c == '\U{000C}' || c == '\r' || c == ' '
    || c == '\U{00A0}' || c == '\U{1680}' || ('\U{2000}' <= c <= '\U{200A}')
    || c == '\U{2028}' || c == '\U{2029}' || c == '\U{202F}' || c == '\U{205F}'
    || c == '\U{3000}' || c == '\U{FEFF}'
  }

  /** The characters Python's `str.strip()` removes (those for which
      `str.isspace()` holds). */
  predicate IsPySpace(c: char)
  {
    ('\t' <= c <= '\r') || ('\U{001C}' <= c <= ' ') || c == '\U{0085}' || c == '\U{00A0}'
    || c == '\U{1680}' || ('\U{2000}' <= c <= '\U{200A}') || c == '\U{2028}' || c == '\U{2029}'
    || c == '\U{202F}' || c == '\U{205F}' || c == '\U{3000}'
  }

  /** The number of leading `isSpace` characters of `s`. */
  function LeadingCount(isSpace: char -> bool, s: string): (n: nat)
    ensures n <= |s|
    ensures forall k :: 0 <= k < n ==> isSpace(s[k])
    ensures n < |s| ==> !isSpace(s[n])
  {
    SkipWhile(isSpace, s, 0)
  }

  /** The length of `s` without its trailing `isSpace` characters. */
  function TrailingStart(isSpace: char -> bool, s: string): (m: nat)
    ensures m <= |s|
    ensures forall k :: m <= k < |s| ==> isSpace(s[k])
    ensures m > 0 ==> !isSpace(s[m - 1])
  {
    if s != [] && isSpace(s[|s| - 1]) then TrailingStart(isSpace, s[..|s| - 1]) else |s|
  }

  /** `s` without its leading and trailing `isSpace` characters: what is
      kept is one contiguous piece of `s`, everything dropped is a space,
      and the piece neither starts nor ends with one. */
  function TrimBy(isSpace: char -> bool, s: string): (r: string)
    ensures LeadingCount(isSpace, s) + |r| <= |s|
    ensures r == s[LeadingCount(isSpace, s)..LeadingCount(isSpace, s) + |r|]
    ensures forall k :: 0 <= k < |s| && !(LeadingCount(isSpace, s) <= k < LeadingCount(isSpace, s) + |r|)
              ==> isSpace(s[k])
    ensures r != [] ==> !isSpace(r[0]) && !isSpace(r[|r| - 1])
  {
    var i := LeadingCount(isSpace, s);
    var j := TrailingStart(isSpace, s);
    if i < j then s[i..j] else []
  }

  /** JavaScript's `s.trim()`. */
  function JsTrim(s: string): string
  {
    TrimBy(IsJsSpace, s)
  }

  /** Python's `s.strip()`. */
  function PyStrip(s: string): string
  {
    TrimBy(IsPySpace, s)
  }

  /** A string is empty after trimming exactly when it consists of space
      characters only. */
  lemma TrimEmptyIff(isSpace: char -> bool, s: string)
    ensures TrimBy(isSpace, s) == [] <==> forall k :: 0 <= k < |s| ==> isSpace(s[k])
  {
    if TrimBy(isSpace, s) != [] {
      assert s[LeadingCount(isSpace, s)] == TrimBy(isSpace, s)[0];
    }
  }

  /** A string that neither starts nor ends with a space is its own trim. */
  lemma TrimKeepsUnpadded(isSpace: char -> bool, s: string)
    requires s != [] && !isSpace(s[0]) && !isSpace(s[|s| - 1])
    ensures TrimBy(isSpace, s) == s
  {
    assert LeadingCount(isSpace, s) == 0;
    assert TrailingStart(isSpace, s) == |s|;
  }

  /** Trimming twice is trimming once. */
  lemma TrimIdempotent(isSpace: char -> bool, s: string)
    ensures TrimBy(isSpace, TrimBy(isSpace, s)) == TrimBy(isSpace, s)
  {
    var r := TrimBy(isSpace, s);
    if r != [] {
      assert LeadingCount(isSpace, r) == 0;
      assert TrailingStart(isSpace, r) == |r|;
    }
  }

  /** JavaScript's `s.split('\n')`: the pieces between newline characters,
      at least one. */
  function SplitLines(s: string): (r: seq<string>)
    ensures |r| >= 1
    ensures forall i :: 0 <= i < |r| ==> '\n' !in r[i]
  {
    if s == [] then [[]]
    else
      var rest := SplitLines(s[1..]);
      if s[0] == '\n' then [[]] + rest
      else [[s[0]] + rest[0]] + rest[1..]
  }

  /** The pieces glued back together with newline characters. */
  function JoinLines(lines: seq<string>): string
    requires |lines| >= 1
  {
    if |lines| == 1 then lines[0] else lines[0] + "\n" + JoinLines(lines[1..])
  }

  /** Splitting at newlines loses nothing: joining the pieces gives back the text. */
  lemma {:induction false} JoinSplitLines(s: string)
    ensures JoinLines(SplitLines(s)) == s
  {
    if s != [] {
      var rest := SplitLines(s[1..]);
      JoinSplitLines(s[1..]);
      if s[0] == '\n' {
        assert SplitLines(s) == [[]] + rest;
        assert ([[]] + rest)[1..] == rest;
      } else {
        var r := SplitLines(s);
        assert r == [[s[0]] + rest[0]] + rest[1..];
        if |rest| == 1 {
        } else {
          assert r[1..] == rest[1..];
          assert JoinLines(rest) == rest[0] + "\n" + JoinLines(rest[1..]);
        }
      }
    }
  }

  /** Lines free of newlines are recovered by splitting their join. */
  lemma {:induction false} SplitJoinLines(lines: seq<string>)
    requires |lines| >= 1
    requires forall i :: 0 <= i < |lines| ==> '\n' !in lines[i]
    ensures SplitLines(JoinLines(lines)) == lines
  {
    if |lines| == 1 {
      SplitNoNewline(lines[0]);
    } else {
      SplitJoinLines(lines[1..]);
      SplitAfterLine(lines[0], JoinLines(lines[1..]));
    }
  }

  lemma {:induction false} SplitNoNewline(s: string)
    requires '\n' !in s
    ensures SplitLines(s) == [s]
  {
    if s != [] {
      SplitNoNewline(s[1..]);
      assert [s[0]] + s[1..] == s;
    }
  }

  lemma {:induction false} SplitAfterLine(line: string, rest: string)
    requires '\n' !in line
    ensures SplitLines(line + "\n" + rest) == [line] + SplitLines(rest)
  {
    if line == [] {
      assert ("" + "\n" + rest)[1..] == rest;
    } else {
      assert (line + "\n" + rest)[1..] == line[1..] + "\n" + rest;
      SplitAfterLine(line[1..], rest);
      assert [line[0]] + line[1..] == line;
    }
  }

  /** ASCII upper-casing, the canonicalisation of a JavaScript regular
      expression with the `i` flag and without `u` (no non-ASCII character
      is folded onto an ASCII one). */
  function AsciiUpper(c: char): char
  {
    if 'a' <= c <= 'z' then (c as int - 32) as char else c
  }

  /** `s` starts with `pattern`, letters compared without regard to case. */
  predicate StartsWithIgnoreCase(s: string, pattern: string)
  {
    |pattern| <= |s| && forall i :: 0 <= i < |pattern| ==> AsciiUpper(s[i]) == AsciiUpper(pattern[i])
  }

  predicate IsAsciiDigit(c: char)
  {
    '0' <= c <= '9'
  }

  /** The first position at or after `i` where the run of `inClass`
      characters starting at `i` ends. */
  function SkipWhile(inClass: char -> bool, s: string, i: nat): (j: nat)
    requires i <= |s|
    ensures i <= j <= |s|
    ensures forall k :: i <= k < j ==> inClass(s[k])
    ensures j < |s| ==> !inClass(s[j])
    decreases |s| - i
  {
    if i < |s| && inClass(s[i]) then SkipWhile(inClass, s, i + 1) else i
  }

  /** JavaScript's `s.includes(sub)`. */
  predicate Contains(s: string, sub: string)
  {
    exists i :: 0 <= i <= |s| && sub <= s[i..]
  }

  /** A per-character case mapping applied to a whole string. */
  function MapChars(f: char -> char, s: string): (r: string)
    ensures |r| == |s| && forall i :: 0 <= i < |s| ==> r[i] == f(s[i])
  {
    seq(|s|, i requires 0 <= i < |s| => f(s[i]))
  }

  /** The decimal digit for `d`. */
  function DigitChar(d: nat): (c: char)
    requires d < 10
    ensures IsAsciiDigit(c)
  {
    ('0' as int + d) as char
  }

  /** The decimal numeral of `n` (Python's `str(n)`, JavaScript's `String(n)`). */
  function Decimal(n: nat): (s: string)
    ensures |s| > 0 && forall i :: 0 <= i < |s| ==> IsAsciiDigit(s[i])
  {
    if n < 10 then [DigitChar(n)] else Decimal(n / 10) + [DigitChar(n % 10)]
  }
}
