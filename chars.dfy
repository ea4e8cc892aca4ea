/**
  Character classes used by the two patterns of the extractor, Python's
  whitespace test, and `str.strip()`.
 */
module Chars {

  /** `\d`, restricted to the ASCII digits. */
  predicate IsDigit(c: char) {
    '0' <= c <= '9'
  }

  /** Python's `str.isspace()`, which is also what `\s` and `str.strip()` use on `str`. */
  predicate IsSpace(c: char) {
    || ('\t' <= c <= '\r')
    || ('\U{1C}' <= c <= '\U{1F}')
    || c == ' '
    || c == '\U{85}'
    || c == '\U{A0}'
    || c == '\U{1680}'
    || ('\U{2000}' <= c <= '\U{200A}')
    || c == '\U{2028}'
    || c == '\U{2029}'
    || c == '\U{202F}'
    || c == '\U{205F}'
    || c == '\U{3000}'
  }

  /** The class `[\d\.\-]` of a coordinate field. */
  predicate IsNumberChar(c: char) {
    IsDigit(c) || c == '.' || c == '-'
  }

  /** ASCII lower-casing, enough for the letters of `Target` and `Center`. */
  function ToLower(c: char): (r: char)
    ensures 'a' <= r <= 'z' <==> ('a' <= c <= 'z' || 'A' <= c <= 'Z')
  {
    if 'A' <= c <= 'Z' then (c as int + 32) as char else c
  }

  /**
    Whitespace never belongs to a coordinate field, every digit does, and
    case folding changes neither: a `\s*` run and a `[\d\.\-]+` run never
    compete for a character, under `re.IGNORECASE` as without it.
   */
  lemma ClassesApart(c: char)
    ensures IsSpace(c) ==> !IsNumberChar(c) && ToLower(c) == c
    ensures IsDigit(c) ==> IsNumberChar(c) && ToLower(c) == c && !IsSpace(c)
  {
  }

  datatype CharClass = Digits | Spaces | Numbers

  predicate In(k: CharClass, c: char) {
    match k
    case Digits => IsDigit(c)
    case Spaces => IsSpace(c)
    case Numbers => IsNumberChar(c)
  }

  predicate AllIn(k: CharClass, s: string) {
    forall i :: 0 <= i < |s| ==> In(k, s[i])
  }

  /** Length of the longest prefix of `u` inside class `k`: a greedy `k*`. */
  function Span(k: CharClass, u: string): (n: nat)
    ensures n <= |u|
    ensures AllIn(k, u[..n])
    ensures n == |u| || !In(k, u[n])
  {
    if u != [] && In(k, u[0]) then 1 + Span(k, u[1..]) else 0
  }

  /** A greedy run stops exactly where the class ends. */
  lemma {:induction false} SpanOfRun(k: CharClass, run: string, rest: string)
    requires AllIn(k, run)
    requires rest == [] || !In(k, rest[0])
    ensures Span(k, run + rest) == |run|
  {
    if run != [] {
      assert (run + rest)[1..] == run[1..] + rest;
      SpanOfRun(k, run[1..], rest);
    }
  }

  /** `str.lstrip()`: the suffix left after the leading whitespace. */
  function LStrip(s: string): (r: string)
    ensures |r| <= |s| && r == s[|s| - |r|..]
    ensures AllIn(Spaces, s[..|s| - |r|])
    ensures r == [] || !IsSpace(r[0])
  {
    if s != [] && IsSpace(s[0]) then LStrip(s[1..]) else s
  }

  /** `str.rstrip()`: the prefix left before the trailing whitespace. */
  function RStrip(s: string): (r: string)
    ensures |r| <= |s| && r == s[..|r|]
    ensures AllIn(Spaces, s[|r|..])
    ensures r == [] || !IsSpace(r[|r| - 1])
  {
    if s != [] && IsSpace(s[|s| - 1]) then RStrip(s[..|s| - 1]) else s
  }

  /** Number of whitespace characters `str.strip()` removes at the front. */
  function Indent(s: string): nat {
    |s| - |LStrip(s)|
  }

  /** `str.strip()`: `s` without its leading and trailing whitespace. */
  function Strip(s: string): (r: string)
    ensures Indent(s) + |r| <= |s|
    ensures r == s[Indent(s)..Indent(s) + |r|]
  {
    RStrip(LStrip(s))
  }

  /** What `strip()` removes is whitespace, and what it keeps neither starts nor ends with whitespace. */
  lemma StripTrims(s: string)
    ensures var a, r := Indent(s), Strip(s);
      && AllIn(Spaces, s[..a])
      && AllIn(Spaces, s[a + |r|..])
      && (r == [] || (!IsSpace(r[0]) && !IsSpace(r[|r| - 1])))
  {
    var l := LStrip(s);
    var r := RStrip(l);
    assert s[Indent(s) + |r|..] == l[|r|..];
  }
}
