/** Character classes, the trimming of leading and trailing characters, and
    the two regular expressions that the server and the browser spell the
    same way. Everything here is restricted to ASCII: where a regular
    expression says `\s`, this is the six ASCII white-space characters. */
module Charset {

  /** `[A-Za-z]` */
  predicate IsAsciiLetter(c: char) {
    'A' <= c <= 'Z' || 'a' <= c <= 'z'
  }

  /** `[0-9]` */
  predicate IsAsciiDigit(c: char) {
    '0' <= c <= '9'
  }

  /** `[A-Za-z0-9]` */
  predicate IsAsciiAlnum(c: char) {
    IsAsciiLetter(c) || IsAsciiDigit(c)
  }

  /** `\s` over ASCII: space, tab, line feed, vertical tab, form feed, carriage return. */
  predicate IsRegexSpace(c: char) {
    c == ' ' || c == '\t' || c == '\n' || c == '\U{B}' || c == '\U{C}' || c == '\r'
  }

  /** One character of the class `[A-Za-z\s'-]`. */
  predicate IsNameChar(c: char) {
    IsAsciiLetter(c) || IsRegexSpace(c) || c == '\'' || c == '-'
  }

  /** `/^[A-Za-z\s'-]{1,50}$/`, the first and last name pattern. */
  predicate MatchesName(s: string) {
    1 <= |s| <= 50 && forall i | 0 <= i < |s| :: IsNameChar(s[i])
  }

  /** `/^[A-Za-z0-9]{12}$/`, the account number pattern. */
  predicate MatchesAccount(s: string) {
    |s| == 12 && forall i | 0 <= i < |s| :: IsAsciiAlnum(s[i])
  }

  /** Drops the leading characters that `strip` selects. */
  function TrimStart(s: string, strip: char -> bool): (r: string)
    ensures |r| <= |s|
  {
    if s != [] && strip(s[0]) then TrimStart(s[1..], strip) else s
  }

  /** Drops the trailing characters that `strip` selects. */
  function TrimEnd(s: string, strip: char -> bool): (r: string)
    ensures |r| <= |s|
  {
    if s != [] && strip(s[|s| - 1]) then TrimEnd(s[..|s| - 1], strip) else s
  }

  /** `TrimStart` keeps a suffix that does not start with a selected
      character, and everything it dropped was selected. */
  lemma {:induction false} TrimStartSpec(s: string, strip: char -> bool)
    ensures TrimStart(s, strip) == s[|s| - |TrimStart(s, strip)|..]
    ensures TrimStart(s, strip) == [] || !strip(TrimStart(s, strip)[0])
    ensures forall i | 0 <= i < |s| - |TrimStart(s, strip)| :: strip(s[i])
  {
    if s != [] && strip(s[0]) {
      TrimStartSpec(s[1..], strip);
      forall i | 1 <= i < |s| - |TrimStart(s, strip)| ensures strip(s[i]) {
        assert s[i] == s[1..][i - 1];
      }
    }
  }

  /** `TrimEnd` keeps a prefix that does not end with a selected character,
      and everything it dropped was selected. */
  lemma {:induction false} TrimEndSpec(s: string, strip: char -> bool)
    ensures TrimEnd(s, strip) == s[..|TrimEnd(s, strip)|]
    ensures TrimEnd(s, strip) == [] || !strip(TrimEnd(s, strip)[|TrimEnd(s, strip)| - 1])
    ensures forall i | |TrimEnd(s, strip)| <= i < |s| :: strip(s[i])
  {
    if s != [] && strip(s[|s| - 1]) {
      TrimEndSpec(s[..|s| - 1], strip);
      forall i | |TrimEnd(s, strip)| <= i < |s| - 1 ensures strip(s[i]) {
        assert s[i] == s[..|s| - 1][i];
      }
    }
  }

  /** How many leading characters `strip` selects. */
  function LeadingCount(s: string, strip: char -> bool): (n: nat)
    ensures n <= |s|
  {
    |s| - |TrimStart(s, strip)|
  }

  /** Drops the leading and trailing characters that `strip` selects. */
  function Trim(s: string, strip: char -> bool): string {
    TrimEnd(TrimStart(s, strip), strip)
  }

  /** The trimmed text is the slice of `s` that starts after the leading run
      of selected characters, and only selected characters were removed. */
  lemma TrimSlice(s: string, strip: char -> bool)
    ensures LeadingCount(s, strip) + |Trim(s, strip)| <= |s|
    ensures Trim(s, strip) == s[LeadingCount(s, strip)..LeadingCount(s, strip) + |Trim(s, strip)|]
    ensures forall i | 0 <= i < LeadingCount(s, strip) :: strip(s[i])
    ensures forall i | LeadingCount(s, strip) + |Trim(s, strip)| <= i < |s| :: strip(s[i])
  {
    var t := TrimStart(s, strip);
    var r := TrimEnd(t, strip);
    TrimStartSpec(s, strip);
    TrimEndSpec(t, strip);
    var k := |s| - |t|;
    assert k == LeadingCount(s, strip) && r == Trim(s, strip);
    assert t == s[k..] && r == t[..|r|];
    assert r == s[k..k + |r|];
    forall i | k + |r| <= i < |s| ensures strip(s[i]) {
      assert s[i] == t[i - k];
    }
  }

  /** The trimmed text neither starts nor ends with a selected character. */
  lemma TrimEnds(s: string, strip: char -> bool)
    ensures Trim(s, strip) == [] || (!strip(Trim(s, strip)[0]) && !strip(Trim(s, strip)[|Trim(s, strip)| - 1]))
  {
    var t := TrimStart(s, strip);
    var r := TrimEnd(t, strip);
    TrimStartSpec(s, strip);
    TrimEndSpec(t, strip);
    if r != [] {
      assert r[0] == t[0];
    }
  }

  lemma {:induction false} TrimStartKeeps(s: string, strip: char -> bool, c: char)
    requires c in s && !strip(c)
    ensures c in TrimStart(s, strip)
  {
    if strip(s[0]) {
      assert s == [s[0]] + s[1..];
      TrimStartKeeps(s[1..], strip, c);
    }
  }

  lemma {:induction false} TrimEndKeeps(s: string, strip: char -> bool, c: char)
    requires c in s && !strip(c)
    ensures c in TrimEnd(s, strip)
  {
    if strip(s[|s| - 1]) {
      assert s == s[..|s| - 1] + [s[|s| - 1]];
      TrimEndKeeps(s[..|s| - 1], strip, c);
    }
  }

  /** A character that trimming may not remove is kept. */
  lemma TrimKeeps(s: string, strip: char -> bool, c: char)
    requires c in s && !strip(c)
    ensures c in Trim(s, strip)
  {
    TrimStartKeeps(s, strip, c);
    TrimEndKeeps(TrimStart(s, strip), strip, c);
  }

  /** Trimming twice is trimming once. */
  lemma TrimIdempotent(s: string, strip: char -> bool)
    ensures Trim(Trim(s, strip), strip) == Trim(s, strip)
  {
    var r := Trim(s, strip);
    TrimEnds(s, strip);
    assert TrimStart(r, strip) == r;
    assert TrimEnd(r, strip) == r;
  }
}
