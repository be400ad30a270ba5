/**
 * The string operations of the Java and Spring libraries that the initializer
 * relies on: `String.startsWith`, `String.trim`, `StringUtils.hasText`
 * (through `Character.isWhitespace`) and `String.toUpperCase`.
 */
module Text {

  /** `s.startsWith(prefix)`. */
  predicate StartsWith(s: string, prefix: string) {
    |prefix| <= |s| && s[..|prefix|] == prefix
  }

  /** `Character.isWhitespace(c)` as in Java 9 and later (Unicode 8 and
      later): the Unicode space, line and paragraph separators except the
      no-break spaces, and the ASCII controls HT, LF, VT, FF, CR and FS, GS,
      RS, US. Java 8 and earlier also count U+180E. */
  predicate IsWhitespace(c: char) {
    c == ' ' || ('\t' <= c <= '\r') || ('\U{1C}' <= c <= '\U{1F}')
    || c == '\U{1680}' || ('\U{2000}' <= c <= '\U{2006}') || ('\U{2008}' <= c <= '\U{200A}')
    || c == '\U{2028}' || c == '\U{2029}' || c == '\U{205F}' || c == '\U{3000}'
  }

  /** `StringUtils.hasText(s)`: some character is not whitespace. */
  predicate HasText(s: string) {
    exists k :: 0 <= k < |s| && !IsWhitespace(s[k])
  }

  /** Drops the leading characters at or below U+0020, as `String.trim` does. */
  function TrimStart(s: string): (r: string)
    ensures |r| <= |s| && r == s[|s| - |r|..]
    ensures forall k :: 0 <= k < |s| - |r| ==> s[k] <= ' '
    ensures r == [] || r[0] > ' '
  {
    if s != [] && s[0] <= ' ' then TrimStart(s[1..]) else s
  }

  /** Drops the trailing characters at or below U+0020, as `String.trim` does. */
  function TrimEnd(s: string): (r: string)
    ensures |r| <= |s| && r == s[..|r|]
    ensures forall k :: |r| <= k < |s| ==> s[k] <= ' '
    ensures r == [] || r[|r| - 1] > ' '
  {
    if s != [] && s[|s| - 1] <= ' ' then TrimEnd(s[..|s| - 1]) else s
  }

  /** `s.trim()`: the longest infix of `s` that neither starts nor ends with a
      character at or below U+0020; empty when every character is. */
  function Trim(s: string): (r: string)
    ensures |r| <= |s|
    ensures r == [] || (r[0] > ' ' && r[|r| - 1] > ' ')
    ensures r == [] <==> forall k :: 0 <= k < |s| ==> s[k] <= ' '
  {
    var t := TrimStart(s);
    assert t != [] ==> t[0] > ' ';
    TrimEnd(t)
  }

  /** Trimming only removes characters: the result is the infix of `s` that
      starts where the leading blanks end. */
  lemma TrimIsInfix(s: string)
    ensures |s| - |TrimStart(s)| + |Trim(s)| <= |s|
    ensures Trim(s) == s[|s| - |TrimStart(s)|..][..|Trim(s)|]
  {
  }

  /** Every character of the trimmed text occurs in the text. */
  lemma TrimKeepsCharacters(s: string, c: char)
    requires c in Trim(s)
    ensures c in s
  {
    TrimIsInfix(s);
    var i := |s| - |TrimStart(s)|;
    var j :| 0 <= j < |Trim(s)| && Trim(s)[j] == c;
    assert s[i..][..|Trim(s)|][j] == s[i + j];
  }

  /** `s` neither starts nor ends with a character at or below U+0020. */
  predicate IsTrimmed(s: string) {
    s == [] || (s[0] > ' ' && s[|s| - 1] > ' ')
  }

  /** Trimmed text is exactly the text `String.trim` leaves unchanged. */
  lemma TrimmedIffFixed(s: string)
    ensures IsTrimmed(s) <==> Trim(s) == s
  {
    if IsTrimmed(s) && s != [] {
      assert TrimStart(s) == s;
      assert TrimEnd(s) == s;
    }
  }

  /** Trimming twice is trimming once: a trimmed statement is its own trim. */
  lemma TrimIdempotent(s: string)
    ensures IsTrimmed(Trim(s)) && Trim(Trim(s)) == Trim(s)
  {
    TrimmedIffFixed(Trim(s));
  }

  /** `Character.toUpperCase` on the ASCII letters; every other character is kept. */
  function UpperChar(c: char): (u: char)
    ensures 'a' <= c <= 'z' ==> u as int == c as int - 32
    ensures !('a' <= c <= 'z') ==> u == c
  {
    if 'a' <= c <= 'z' then (c as int - 32) as char else c
  }

  /** `s.toUpperCase()`, character by character. */
  function UpperCase(s: string): (r: string)
    ensures |r| == |s|
    ensures forall k :: 0 <= k < |s| ==> r[k] == UpperChar(s[k])
  {
    seq(|s|, k requires 0 <= k < |s| => UpperChar(s[k]))
  }

  /** `s.toUpperCase().startsWith("DROP")`. */
  predicate IsDrop(s: string) {
    StartsWith(UpperCase(s), "DROP")
  }

  /** The DROP test ignores case: it looks at the first four characters only. */
  lemma DropIgnoresCase(s: string)
    ensures IsDrop(s) <==>
      |s| >= 4 && s[0] in "dD" && s[1] in "rR" && s[2] in "oO" && s[3] in "pP"
  {
    if IsDrop(s) {
      var u := UpperCase(s);
      assert u[..4] == "DROP";
      assert u[0] == 'D' && u[1] == 'R' && u[2] == 'O' && u[3] == 'P';
    }
  }
}
