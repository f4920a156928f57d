/** The parts of Go's `unicode` and `strings` packages the text loaders use:
    unicode.IsSpace and strings.TrimSpace. A Go string is modelled as the
    sequence of its runes (Unicode scalar values). */
module GoStrings {

  /** unicode.IsSpace: the Unicode White_Space property. Within Latin-1 it
      is exactly '\t', '\n', '\v', '\f', '\r', ' ', U+0085 (NEL) and
      U+00A0 (NBSP), the table unicode.IsSpace checks first. */
  predicate IsSpace(c: char): (b: bool)
    ensures c <= '\U{00FF}' ==>
      (b <==> c in {'\t', '\n', '\U{000B}', '\U{000C}', '\r', ' ', '\U{0085}', '\U{00A0}'})
  {
    || ('\t' <= c <= '\r')          // \t \n \v \f \r
    || c == ' '
    || c == '\U{0085}' || c == '\U{00A0}'
    || c == '\U{1680}'
    || ('\U{2000}' <= c <= '\U{200A}')
    || c == '\U{2028}' || c == '\U{2029}'
    || c == '\U{202F}' || c == '\U{205F}'
    || c == '\U{3000}'
  }

  ghost predicate AllSpace(s: string) {
    forall i :: 0 <= i < |s| ==> IsSpace(s[i])
  }

  /** Neither the first nor the last rune is white space. */
  ghost predicate IsTrimmed(s: string) {
    s != [] ==> !IsSpace(s[0]) && !IsSpace(s[|s| - 1])
  }

  /** `r` is `s` with its whole leading and its whole trailing run of white
      space removed. */
  ghost predicate IsTrimOf(r: string, s: string) {
    IsTrimmed(r) &&
    exists i, j :: 0 <= i <= j <= |s| && r == s[i..j] && AllSpace(s[..i]) && AllSpace(s[j..])
  }

  /** strings.TrimLeftFunc(s, unicode.IsSpace) */
  function TrimLeft(s: string): (r: string)
    ensures |r| <= |s| && r == s[|s| - |r|..]
    ensures AllSpace(s[..|s| - |r|])
    ensures r != [] ==> !IsSpace(r[0])
    decreases |s|
  {
    if s != [] && IsSpace(s[0]) then TrimLeft(s[1..]) else s
  }

  /** strings.TrimRightFunc(s, unicode.IsSpace) */
  function TrimRight(s: string): (r: string)
    ensures |r| <= |s| && r == s[..|r|]
    ensures AllSpace(s[|r|..])
    ensures r != [] ==> !IsSpace(r[|r| - 1])
    decreases |s|
  {
    if s != [] && IsSpace(s[|s| - 1]) then TrimRight(s[..|s| - 1]) else s
  }

  /** strings.TrimSpace */
  function TrimSpace(s: string): (r: string)
    ensures |r| <= |s|
  {
    TrimRight(TrimLeft(s))
  }

  /** Cutting an all-space prefix and then an all-space suffix is a trim. */
  lemma CutsMakeTrim(s: string, t: string, r: string)
    requires |t| <= |s| && t == s[|s| - |t|..] && AllSpace(s[..|s| - |t|])
    requires |r| <= |t| && r == t[..|r|] && AllSpace(t[|r|..])
    requires IsTrimmed(r)
    ensures IsTrimOf(r, s)
  {
    var i := |s| - |t|;
    var j := i + |r|;
    assert s[j..] == t[|r|..];
    assert r == s[i..j];
  }

  /** TrimSpace removes exactly the leading and the trailing white space. */
  lemma TrimSpaceIsTrimOf(s: string)
    ensures IsTrimOf(TrimSpace(s), s)
  {
    var t := TrimLeft(s);
    var r := TrimRight(t);
    assert r != [] ==> r[0] == t[0];
    CutsMakeTrim(s, t, r);
  }

  /** The trimmed string is empty exactly when the input is all white space. */
  lemma {:induction false} TrimSpaceEmptyIff(s: string)
    ensures TrimSpace(s) == [] <==> AllSpace(s)
  {
    var t := TrimLeft(s);
    assert t != [] ==> t[0] == s[|s| - |t|];
    if !AllSpace(s) {
      var k :| 0 <= k < |s| && !IsSpace(s[k]);
      assert t != [] && t[k - (|s| - |t|)] == s[k];
      assert !IsSpace(t[0]);
    }
  }

  /** Trimming a trimmed string changes nothing. */
  lemma {:induction false} TrimSpaceIdempotent(s: string)
    ensures TrimSpace(TrimSpace(s)) == TrimSpace(s)
  {
    var r := TrimSpace(s);
    TrimSpaceIsTrimOf(s);
    assert TrimLeft(r) == r;
    assert TrimRight(r) == r;
  }

  /** A string without leading or trailing white space is its own trim. */
  lemma TrimSpaceOfTrimmed(s: string)
    requires IsTrimmed(s)
    ensures TrimSpace(s) == s
  {
    assert TrimLeft(s) == s;
  }
}
