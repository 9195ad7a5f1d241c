/**
 * Upload file-name sanitising in the back end: every character that is
 * not a word character, `-`, `_` or `.` becomes `_`, and the result is
 * cut to 100 characters. `isWord` stands for the Unicode-aware `\w` of
 * Python regular expressions.
 */
module Filename {
  /** The longest name kept. */
  const MaxNameLength: nat := 100

  /** The characters `[\w\-_\.]` lets through. */
  predicate IsAllowed(isWord: char -> bool, c: char)
  {
    isWord(c) || c == '-' || c == '_' || c == '.'
  }

  /** `re.sub(r'[^\w\-_\.]', '_', s)`: each disallowed character, being a
      one-character match, is replaced by one `_`. */
  function Substitute(isWord: char -> bool, s: string): (r: string)
    ensures |r| == |s|
  {
    if s == [] then []
    else [if IsAllowed(isWord, s[0]) then s[0] else '_'] + Substitute(isWord, s[1..])
  }

  /** `_sanitize_filename`: the substitution, then `[:100]`. */
  function SanitizeFilename(isWord: char -> bool, filename: string): (name: string)
    ensures |name| == if |filename| < MaxNameLength then |filename| else MaxNameLength
  {
    var safeName := Substitute(isWord, filename);
    if |safeName| <= MaxNameLength then safeName else safeName[..MaxNameLength]
  }

  /** Allowed characters keep their place and value; every other one is
      an underscore in the same place. */
  lemma {:induction false} SubstitutePositions(isWord: char -> bool, s: string)
    ensures forall i :: 0 <= i < |s| ==>
              Substitute(isWord, s)[i] == if IsAllowed(isWord, s[i]) then s[i] else '_'
  {
    if s != [] {
      SubstitutePositions(isWord, s[1..]);
      var r := Substitute(isWord, s);
      assert forall i :: 1 <= i < |s| ==> r[i] == Substitute(isWord, s[1..])[i - 1] && s[i] == s[1..][i - 1];
    }
  }

  /** The name is the start of the untruncated substitution, position for
      position the original or `_`, and made only of allowed characters. */
  lemma SanitizedContent(isWord: char -> bool, filename: string)
    ensures SanitizeFilename(isWord, filename) <= Substitute(isWord, filename)
    ensures forall i :: 0 <= i < |SanitizeFilename(isWord, filename)| ==>
              SanitizeFilename(isWord, filename)[i] == if IsAllowed(isWord, filename[i]) then filename[i] else '_'
    ensures forall c :: c in SanitizeFilename(isWord, filename) ==> IsAllowed(isWord, c)
  {
    SubstitutePositions(isWord, filename);
  }

  /** Path separators, which are not word characters, never survive. */
  lemma NoPathSeparators(isWord: char -> bool, filename: string)
    requires !isWord('/') && !isWord('\\')
    ensures '/' !in SanitizeFilename(isWord, filename) && '\\' !in SanitizeFilename(isWord, filename)
  {
    SanitizedContent(isWord, filename);
  }

  /** Sanitising a sanitised name changes nothing. */
  lemma SanitizeIdempotent(isWord: char -> bool, filename: string)
    ensures SanitizeFilename(isWord, SanitizeFilename(isWord, filename)) == SanitizeFilename(isWord, filename)
  {
    var once := SanitizeFilename(isWord, filename);
    SanitizedContent(isWord, filename);
    SubstituteKeepsAllowed(isWord, once);
  }

  /** A string of allowed characters is its own substitution. */
  lemma {:induction false} SubstituteKeepsAllowed(isWord: char -> bool, s: string)
    requires forall c :: c in s ==> IsAllowed(isWord, c)
    ensures Substitute(isWord, s) == s
  {
    if s != [] {
      assert s[0] in s;
      assert forall c :: c in s[1..] ==> c in s;
      SubstituteKeepsAllowed(isWord, s[1..]);
      assert [s[0]] + s[1..] == s;
    }
  }
}
