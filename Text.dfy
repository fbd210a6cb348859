/**
 * The text normalisation the ledger applies to every typed field:
 * Python's `s.strip().capitalize()`.
 */
module Text {

  /** The characters Python's `str.isspace()` accepts; `str.strip()` with no argument removes exactly these. */
  predicate IsSpace(ch: char) {
    || ('\U{0009}' <= ch <= '\U{000D}')
    || ('\U{001C}' <= ch <= '\U{0020}')
    || ch == '\U{0085}' || ch == '\U{00A0}' || ch == '\U{1680}'
    || ('\U{2000}' <= ch <= '\U{200A}')
    || ch == '\U{2028}' || ch == '\U{2029}' || ch == '\U{202F}' || ch == '\U{205F}' || ch == '\U{3000}'
  }

  /** Drops leading whitespace: the result is the longest suffix that does not start with a space. */
  function TrimStart(s: string): (r: string)
    ensures |r| <= |s| && r == s[|s| - |r|..]
    ensures forall k :: 0 <= k < |s| - |r| ==> IsSpace(s[k])
    ensures r == [] || !IsSpace(r[0])
  {
    if s != [] && IsSpace(s[0]) then TrimStart(s[1..]) else s
  }

  /** Drops trailing whitespace: the result is the longest prefix that does not end with a space. */
  function TrimEnd(s: string): (r: string)
    ensures |r| <= |s| && r == s[..|r|]
    ensures forall k :: |r| <= k < |s| ==> IsSpace(s[k])
    ensures r == [] || !IsSpace(r[|r| - 1])
  {
    if s != [] && IsSpace(s[|s| - 1]) then TrimEnd(s[..|s| - 1]) else s
  }

  /** `str.strip()` */
  function Strip(s: string): string {
    TrimEnd(TrimStart(s))
  }

  function Upper(ch: char): char {
    if 'a' <= ch <= 'z' then (ch as int - 32) as char else ch
  }

  function Lower(ch: char): char {
    if 'A' <= ch <= 'Z' then (ch as int + 32) as char else ch
  }

  /** `str.capitalize()`: the first character upper case, every other one lower case. */
  function Capitalize(s: string): (r: string)
    ensures |r| == |s|
  {
    seq(|s|, i requires 0 <= i < |s| => if i == 0 then Upper(s[0]) else Lower(s[i]))
  }

  /** `s.strip().capitalize()`, the form in which categories, descriptions and month names are compared and stored. */
  function Normalize(s: string): (r: string)
    ensures r == [] <==> forall k :: 0 <= k < |s| ==> IsSpace(s[k])
  {
    Capitalize(Strip(s))
  }

  lemma StripFixed(s: string)
    requires s == [] || (!IsSpace(s[0]) && !IsSpace(s[|s| - 1]))
    ensures Strip(s) == s
  {
  }

  /** A capitalised ASCII word is its own normal form. */
  predicate IsCapitalizedWord(s: string) {
    && s != []
    && 'A' <= s[0] <= 'Z'
    && forall k :: 1 <= k < |s| ==> 'a' <= s[k] <= 'z'
  }

  lemma CapitalizedWordNormal(s: string)
    requires IsCapitalizedWord(s)
    ensures Normalize(s) == s && Capitalize(s) == s
  {
    StripFixed(s);
    assert Capitalize(s) == s;
  }

  lemma CaseMappingKeepsSpaces(ch: char)
    ensures IsSpace(Upper(ch)) == IsSpace(ch) && IsSpace(Lower(ch)) == IsSpace(ch)
  {
  }

  /** Normalising twice is normalising once. */
  lemma {:induction false} NormalizeIdempotent(s: string)
    ensures Normalize(Normalize(s)) == Normalize(s)
  {
    var n := Normalize(s);
    var t := Strip(s);
    if n != [] {
      CaseMappingKeepsSpaces(t[0]);
      CaseMappingKeepsSpaces(t[|t| - 1]);
      assert n[0] == Upper(t[0]);
      assert |n| > 1 ==> n[|n| - 1] == Lower(t[|t| - 1]);
    }
    StripFixed(n);
    assert Capitalize(n) == n;
  }

  /**
   * The match against a fixed name is insensitive to case and surrounding whitespace:
   * any text whose stripped form equals a capitalised name up to ASCII case normalises to that name.
   */
  lemma MatchIgnoresCase(text: string, name: string)
    requires Capitalize(name) == name
    requires |Strip(text)| == |name|
    requires forall k :: 0 <= k < |name| ==> Lower(Strip(text)[k]) == Lower(name[k])
    ensures Normalize(text) == name
  {
    var t := Strip(text);
    var n := Capitalize(t);
    forall k | 0 <= k < |name|
      ensures n[k] == name[k]
    {
      if k == 0 {
        SameLetter(t[0], name[0]);
        assert name[0] == Capitalize(name)[0];
      } else {
        assert name[k] == Capitalize(name)[k];
      }
    }
    assert n == name;
  }

  /** Two characters equal up to ASCII case have the same upper-case form. */
  lemma SameLetter(a: char, b: char)
    requires Lower(a) == Lower(b)
    ensures Upper(a) == Upper(b)
  {
  }
}
