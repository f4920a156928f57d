/** The text load functions of the package: whole file as a string, trimmed
    string, line list, trimmed line list, line set and trimmed line set, all
    built on splitLines. Reading the file (ReadAllString) is a collaborator:
    each loader receives its outcome as `read`. A Go string is the sequence of
    its runes; a `map[S]struct{}` is the set of its keys. */
module LoadFuncs {
  import opened Errors
  import opened GoStrings

  predicate IsLineBreak(c: char) {
    c == '\n' || c == '\r'
  }

  /** A field produced by splitLines: non-empty, without CR or LF. */
  ghost predicate IsLine(l: string) {
    l != [] && forall i :: 0 <= i < |l| ==> !IsLineBreak(l[i])
  }

  /** The length of the leading run of runes that are not line breaks. */
  function FieldEnd(s: string): (n: nat)
    ensures n <= |s|
    ensures forall i :: 0 <= i < n ==> !IsLineBreak(s[i])
    ensures n < |s| ==> IsLineBreak(s[n])
    decreases |s|
  {
    if s == [] || IsLineBreak(s[0]) then 0 else 1 + FieldEnd(s[1..])
  }

  /** splitLines: strings.FieldsFunc with CR and LF as separators, i.e. the
      maximal runs of runes that are not line breaks, in order. Empty fields
      are never produced, so blank lines disappear. */
  function SplitLines(s: string): (lines: seq<string>)
    ensures |lines| <= |s|
    decreases |s|
  {
    if s == [] then []
    else if IsLineBreak(s[0]) then SplitLines(s[1..])
    else
      var n := FieldEnd(s);
      assert n > 0 by { assert FieldEnd(s) == 1 + FieldEnd(s[1..]); }
      [s[..n]] + SplitLines(s[n..])
  }

  /** Every field is a line: non-empty and free of CR and LF. */
  lemma {:induction false} SplitLinesAreLines(s: string)
    ensures forall i :: 0 <= i < |SplitLines(s)| ==> IsLine(SplitLines(s)[i])
    decreases |s|
  {
    if s == [] {
    } else if IsLineBreak(s[0]) {
      SplitLinesAreLines(s[1..]);
    } else {
      var n := FieldEnd(s);
      assert n > 0 by { assert FieldEnd(s) == 1 + FieldEnd(s[1..]); }
      SplitLinesAreLines(s[n..]);
    }
  }

  // ---------------------------------------------------------------------------
  // splitLines keeps every other rune, in order

  /** `s` with every CR and LF removed. */
  function RemoveLineBreaks(s: string): string {
    if s == [] then []
    else (if IsLineBreak(s[0]) then [] else [s[0]]) + RemoveLineBreaks(s[1..])
  }

  function Concat(ls: seq<string>): string {
    if ls == [] then [] else ls[0] + Concat(ls[1..])
  }

  lemma {:induction false} RemoveLineBreaksAppend(a: string, b: string)
    ensures RemoveLineBreaks(a + b) == RemoveLineBreaks(a) + RemoveLineBreaks(b)
    decreases |a|
  {
    if a != [] {
      assert (a + b)[1..] == a[1..] + b;
      RemoveLineBreaksAppend(a[1..], b);
    } else {
      assert a + b == b;
    }
  }

  lemma {:induction false} RemoveLineBreaksOfLine(a: string)
    requires forall i :: 0 <= i < |a| ==> !IsLineBreak(a[i])
    ensures RemoveLineBreaks(a) == a
    decreases |a|
  {
    if a != [] {
      RemoveLineBreaksOfLine(a[1..]);
      assert a == [a[0]] + a[1..];
    }
  }

  /** Concatenating the lines gives back the input without its line breaks. */
  lemma {:induction false} SplitLinesConcat(s: string)
    ensures Concat(SplitLines(s)) == RemoveLineBreaks(s)
    decreases |s|
  {
    if s == [] {
    } else if IsLineBreak(s[0]) {
      SplitLinesConcat(s[1..]);
    } else {
      var n := FieldEnd(s);
      assert n > 0 by { assert FieldEnd(s) == 1 + FieldEnd(s[1..]); }
      var lines := SplitLines(s);
      assert lines == [s[..n]] + SplitLines(s[n..]);
      assert lines[1..] == SplitLines(s[n..]);
      SplitLinesConcat(s[n..]);
      RemoveLineBreaksOfLine(s[..n]);
      assert s == s[..n] + s[n..];
      RemoveLineBreaksAppend(s[..n], s[n..]);
    }
  }

  // ---------------------------------------------------------------------------
  // splitLines is "cut at every line break, then drop the empty pieces"

  /** The number of CR and LF runes in `s`. */
  function CountBreaks(s: string): nat {
    if s == [] then 0 else (if IsLineBreak(s[0]) then 1 else 0) + CountBreaks(s[1..])
  }

  predicate NoBreak(p: string) {
    forall i :: 0 <= i < |p| ==> !IsLineBreak(p[i])
  }

  /** Cut `s` at every single CR or LF: one piece more than there are line
      breaks, and a piece is empty where two breaks are adjacent or a break
      is at either end. */
  function SplitAtBreaks(s: string): (pieces: seq<string>)
    ensures |pieces| == 1 + CountBreaks(s)
    ensures forall k :: 0 <= k < |pieces| ==> NoBreak(pieces[k])
    decreases |s|
  {
    if s == [] then [""]
    else
      var rest := SplitAtBreaks(s[1..]);
      if IsLineBreak(s[0]) then [""] + rest
      else [[s[0]] + rest[0]] + rest[1..]
  }

  /** The pieces, put back together, are the input without its breaks. */
  lemma {:induction false} SplitAtBreaksConcat(s: string)
    ensures Concat(SplitAtBreaks(s)) == RemoveLineBreaks(s)
    decreases |s|
  {
    if s != [] {
      var rest := SplitAtBreaks(s[1..]);
      SplitAtBreaksConcat(s[1..]);
      assert Concat(rest) == rest[0] + Concat(rest[1..]);
      if IsLineBreak(s[0]) {
        assert ([""] + rest)[1..] == rest;
      } else {
        var ps := [[s[0]] + rest[0]] + rest[1..];
        assert ps[1..] == rest[1..];
        assert Concat(ps) == [s[0]] + rest[0] + Concat(rest[1..]);
      }
    }
  }

  /** The non-empty strings of `ps`, in order. */
  function NonEmpty(ps: seq<string>): seq<string> {
    if ps == [] then []
    else (if ps[0] == [] then [] else [ps[0]]) + NonEmpty(ps[1..])
  }

  lemma {:induction false} SplitAtBreaksPrefix(p: string, t: string)
    requires forall i :: 0 <= i < |p| ==> !IsLineBreak(p[i])
    ensures SplitAtBreaks(p + t) == [p + SplitAtBreaks(t)[0]] + SplitAtBreaks(t)[1..]
    decreases |p|
  {
    var rt := SplitAtBreaks(t);
    if p == [] {
      assert p + t == t;
      assert p + rt[0] == rt[0];
      assert [rt[0]] + rt[1..] == rt;
    } else {
      assert (p + t)[1..] == p[1..] + t;
      SplitAtBreaksPrefix(p[1..], t);
      assert [p[0]] + (p[1..] + rt[0]) == p + rt[0];
    }
  }

  /** splitLines agrees with the reference "split at every break, drop
      empty pieces": FieldsFunc drops exactly the empty fields. */
  lemma {:induction false} SplitLinesDropsEmptyPieces(s: string)
    ensures SplitLines(s) == NonEmpty(SplitAtBreaks(s))
    decreases |s|
  {
    if s == [] {
    } else if IsLineBreak(s[0]) {
      SplitLinesDropsEmptyPieces(s[1..]);
      var rest := SplitAtBreaks(s[1..]);
      assert ([""] + rest)[1..] == rest;
    } else {
      var n := FieldEnd(s);
      assert n > 0 by { assert FieldEnd(s) == 1 + FieldEnd(s[1..]); }
      var p, t := s[..n], s[n..];
      assert s == p + t;
      SplitAtBreaksPrefix(p, t);
      var rt := SplitAtBreaks(t);
      var pieces := SplitAtBreaks(s);
      assert pieces == [p + rt[0]] + rt[1..];
      assert pieces[1..] == rt[1..];
      if t == [] {
        assert rt == [""];
        assert p + rt[0] == p;
      } else {
        assert IsLineBreak(t[0]);
        var rt' := SplitAtBreaks(t[1..]);
        assert rt == [""] + rt';
        assert rt[0] == "" && rt[1..] == rt';
        assert p + rt[0] == p;
        SplitLinesDropsEmptyPieces(t[1..]);
        assert SplitLines(t) == SplitLines(t[1..]);
      }
    }
  }

  // ---------------------------------------------------------------------------
  // The load functions

  /** LoadString: the whole content, or "" and the read error. */
  function LoadString(read: Result<string>): (r: (string, Option<Error>))
    ensures read.Ok? ==> r == (read.value, None)
    ensures read.Err? ==> r == ("", Some(read.error))
  {
    match read
    case Err(e) => ("", Some(e))
    case Ok(str) => (str, None)
  }

  /** LoadStringTrimSpace: the content without leading and trailing white
      space, or "" and the read error. */
  function LoadStringTrimSpace(read: Result<string>): (r: (string, Option<Error>))
    ensures read.Ok? ==> r.1 == None && IsTrimOf(r.0, read.value) && TrimSpace(r.0) == r.0
    ensures read.Err? ==> r == ("", Some(read.error))
  {
    match read
    case Err(e) => ("", Some(e))
    case Ok(str) =>
      TrimSpaceIsTrimOf(str);
      TrimSpaceIdempotent(str);
      (TrimSpace(str), None)
  }

  /** LoadStringLines: the lines of the content (the element-type
      reinterpretation is the identity here), or nil and the read error. */
  function LoadStringLines(read: Result<string>): (r: (seq<string>, Option<Error>))
    ensures read.Ok? ==> r.1 == None && r.0 == SplitLines(read.value)
    ensures read.Ok? ==> Concat(r.0) == RemoveLineBreaks(read.value)
    ensures read.Ok? ==> forall i :: 0 <= i < |r.0| ==> IsLine(r.0[i])
    ensures read.Err? ==> r == ([], Some(read.error))
  {
    match read
    case Err(e) => ([], Some(e))
    case Ok(str) =>
      SplitLinesConcat(str);
      SplitLinesAreLines(str);
      (SplitLines(str), None)
  }

  /** The lines of `ls` trimmed, with the lines that trim to "" left out,
      in input order. */
  function TrimmedLines(ls: seq<string>): (ts: seq<string>)
    ensures |ts| <= |ls|
    ensures forall i :: 0 <= i < |ts| ==> ts[i] != []
  {
    if ls == [] then []
    else
      var t := TrimSpace(ls[|ls| - 1]);
      TrimmedLines(ls[..|ls| - 1]) + (if t == [] then [] else [t])
  }

  /** Every entry of TrimmedLines(ls) has no leading or trailing white space. */
  lemma {:induction false} TrimmedLinesTrimmed(ls: seq<string>)
    ensures forall i :: 0 <= i < |TrimmedLines(ls)| ==> IsTrimmed(TrimmedLines(ls)[i])
    decreases |ls|
  {
    if ls != [] {
      TrimmedLinesTrimmed(ls[..|ls| - 1]);
      TrimSpaceIsTrimOf(ls[|ls| - 1]);
    }
  }

  /** TrimmedLines of one more line of ls. */
  lemma TrimmedLinesStep(ls: seq<string>, i: nat)
    requires i < |ls|
    ensures TrimmedLines(ls[..i + 1])
         == TrimmedLines(ls[..i]) + (if TrimSpace(ls[i]) == [] then [] else [TrimSpace(ls[i])])
  {
    assert ls[..i + 1][..i] == ls[..i];
  }

  /** Every entry of TrimmedLines(ls) is the non-empty trim of a line of
      ls; `k` is the position of such a line. */
  lemma {:induction false} TrimmedLinesSource(ls: seq<string>, x: string) returns (k: nat)
    requires x in TrimmedLines(ls)
    ensures k < |ls| && TrimSpace(ls[k]) == x && x != []
    decreases |ls|
  {
    var n := |ls| - 1;
    var init := ls[..n];
    if x in TrimmedLines(init) {
      k := TrimmedLinesSource(init, x);
      assert init[k] == ls[k];
    } else {
      k := n;
    }
  }

  lemma TrimmedLinesSound(ls: seq<string>, x: string)
    requires x in TrimmedLines(ls)
    ensures x != [] && exists l :: l in ls && TrimSpace(l) == x
  {
    var k := TrimmedLinesSource(ls, x);
    assert ls[k] in ls;
  }

  /** The non-empty trim of every line of ls is an entry of TrimmedLines(ls). */
  lemma {:induction false} TrimmedLinesComplete(ls: seq<string>, l: string)
    requires l in ls && TrimSpace(l) != []
    ensures TrimSpace(l) in TrimmedLines(ls)
    decreases |ls|
  {
    var n := |ls| - 1;
    if l != ls[n] {
      var k :| 0 <= k < |ls| && ls[k] == l;
      assert ls[..n][k] == l;
      TrimmedLinesComplete(ls[..n], l);
    }
  }

  /** An entry of TrimmedLines(ls) is exactly a non-empty trim of a line of ls. */
  lemma TrimmedLinesMembers(ls: seq<string>, x: string)
    ensures x in TrimmedLines(ls) <==> x != [] && exists l :: l in ls && TrimSpace(l) == x
  {
    if x in TrimmedLines(ls) {
      TrimmedLinesSound(ls, x);
    }
    if x != [] && exists l :: l in ls && TrimSpace(l) == x {
      var l :| l in ls && TrimSpace(l) == x;
      TrimmedLinesComplete(ls, l);
    }
  }

  /** LoadStringLinesTrimSpace: each line trimmed, lines empty after
      trimming dropped, order kept; or nil and the read error. */
  method LoadStringLinesTrimSpace(read: Result<string>) returns (lines: seq<string>, err: Option<Error>)
    ensures read.Err? ==> lines == [] && err == Some(read.error)
    ensures read.Ok? ==> err == None && lines == TrimmedLines(SplitLines(read.value))
    ensures read.Ok? ==> |lines| <= |SplitLines(read.value)|
    ensures forall i :: 0 <= i < |lines| ==> lines[i] != [] && IsTrimmed(lines[i])
  {
    if read.Err? {
      return [], Some(read.error);
    }
    var strs := SplitLines(read.value);
    lines := [];
    for i := 0 to |strs|
      invariant lines == TrimmedLines(strs[..i])
    {
      TrimmedLinesStep(strs, i);
      var s := TrimSpace(strs[i]);
      if s != [] {
        lines := lines + [s];
      }
    }
    assert strs[..|strs|] == strs;
    TrimmedLinesTrimmed(strs);
    err := None;
  }

  /** LoadStringLineSet: the set of lines of the content; or nil and the
      read error. */
  method LoadStringLineSet(read: Result<string>) returns (keys: set<string>, err: Option<Error>)
    ensures read.Err? ==> keys == {} && err == Some(read.error)
    ensures read.Ok? ==> err == None && forall x :: x in keys <==> x in SplitLines(read.value)
  {
    if read.Err? {
      return {}, Some(read.error);
    }
    var strs := SplitLines(read.value);
    keys := {};
    for i := 0 to |strs|
      invariant forall x :: x in keys <==> x in strs[..i]
    {
      assert strs[..i + 1] == strs[..i] + [strs[i]];
      keys := keys + {strs[i]};
    }
    assert strs[..|strs|] == strs;
    err := None;
  }

  /** LoadStringLineSetTrimSpace: the set of non-empty trimmed lines; or nil
      and the read error. */
  method LoadStringLineSetTrimSpace(read: Result<string>) returns (keys: set<string>, err: Option<Error>)
    ensures read.Err? ==> keys == {} && err == Some(read.error)
    ensures read.Ok? ==> err == None
    ensures read.Ok? ==> forall x :: x in keys <==> x in TrimmedLines(SplitLines(read.value))
    ensures read.Ok? ==> forall x :: x in keys <==>
      x != [] && exists l :: l in SplitLines(read.value) && TrimSpace(l) == x
  {
    if read.Err? {
      return {}, Some(read.error);
    }
    var strs := SplitLines(read.value);
    keys := {};
    for i := 0 to |strs|
      invariant forall x :: x in keys <==> x in TrimmedLines(strs[..i])
    {
      TrimmedLinesStep(strs, i);
      var s := TrimSpace(strs[i]);
      if s != [] {
        keys := keys + {s};
      }
    }
    assert strs[..|strs|] == strs;
    forall x {
      TrimmedLinesMembers(strs, x);
    }
    err := None;
  }

  // ---------------------------------------------------------------------------
  // Laws for composing splitLines, and the worked examples

  lemma {:induction false} FieldEndIs(s: string, n: nat)
    requires n <= |s| && (n == |s| || IsLineBreak(s[n]))
    requires forall i :: 0 <= i < n ==> !IsLineBreak(s[i])
    ensures FieldEnd(s) == n
    decreases n
  {
    if n > 0 {
      FieldEndIs(s[1..], n - 1);
    }
  }

  /** A single line splits to itself. */
  lemma SplitLinesOfLine(l: string)
    requires IsLine(l)
    ensures SplitLines(l) == [l]
  {
    FieldEndIs(l, |l|);
    assert l[..|l|] == l && l[|l|..] == [];
  }

  /** A line break separates independently split halves: CR, LF and CRLF
      all end a line, and nothing crosses a break. */
  lemma {:induction false} SplitLinesAtBreak(x: string, c: char, y: string)
    requires IsLineBreak(c)
    ensures SplitLines(x + [c] + y) == SplitLines(x) + SplitLines(y)
    decreases |x|
  {
    var s := x + [c] + y;
    if x == [] {
      assert s[1..] == y;
      assert SplitLines(s) == SplitLines(y);
    } else if IsLineBreak(x[0]) {
      assert s[0] == x[0] && s[1..] == x[1..] + [c] + y;
      assert SplitLines(s) == SplitLines(s[1..]);
      assert SplitLines(x) == SplitLines(x[1..]);
      SplitLinesAtBreak(x[1..], c, y);
    } else {
      var n := FieldEnd(x);
      assert n > 0 by { assert FieldEnd(x) == 1 + FieldEnd(x[1..]); }
      assert SplitLines(x) == [x[..n]] + SplitLines(x[n..]);
      SplitLinesFirstField(x, c, y, n);
      SplitLinesAtBreak(x[n..], c, y);
    }
  }

  /** The first field of x + [c] + y, for a break c, is the first field of x. */
  lemma SplitLinesFirstField(x: string, c: char, y: string, n: nat)
    requires IsLineBreak(c) && 0 < n && n == FieldEnd(x)
    ensures SplitLines(x + [c] + y) == [x[..n]] + SplitLines(x[n..] + [c] + y)
  {
    var s := x + [c] + y;
    FieldEndIs(s, n);
    assert s[..n] == x[..n];
    assert s[n..] == x[n..] + [c] + y;
  }

  /** Splitting c LF LF a, given how a and c split alone. */
  lemma SplitLinesShapeTail(a: string, c: string)
    requires SplitLines(a) == [a] && SplitLines(c) == [c]
    ensures SplitLines(c + ['\n'] + ([] + ['\n'] + a)) == [c, a]
  {
    SplitLinesAtBreak([], '\n', a);
    SplitLinesAtBreak(c, '\n', [] + ['\n'] + a);
  }

  /** Splitting a CR LF b LF c LF LF a, given how a, b and c split alone. */
  lemma SplitLinesShapeOf(a: string, b: string, c: string)
    requires SplitLines(a) == [a] && SplitLines(b) == [b] && SplitLines(c) == [c]
    ensures SplitLines(a + ['\r'] + ([] + ['\n'] + (b + ['\n'] + (c + ['\n'] + ([] + ['\n'] + a))))) == [a, b, c, a]
  {
    var s2 := c + ['\n'] + ([] + ['\n'] + a);
    SplitLinesShapeTail(a, c);
    var s1 := b + ['\n'] + s2;
    SplitLinesAtBreak(b, '\n', s2);
    SplitLinesAtBreak([], '\n', s1);
    SplitLinesAtBreak(a, '\r', [] + ['\n'] + s1);
  }

  /** The shape of the example "a\r\nb\n b \n\na" for any three lines a, b, c:
      a CR LF b LF c LF LF a. */
  lemma SplitLinesShape(a: string, b: string, c: string)
    requires IsLine(a) && IsLine(b) && IsLine(c)
    ensures SplitLines(a + ['\r'] + ([] + ['\n'] + (b + ['\n'] + (c + ['\n'] + ([] + ['\n'] + a))))) == [a, b, c, a]
  {
    SplitLinesOfLine(a);
    SplitLinesOfLine(b);
    SplitLinesOfLine(c);
    SplitLinesShapeOf(a, b, c);
  }

  lemma ExampleSplitParts(s: string, a: string, b: string, c: string)
    requires s == "a\r\nb\n b \n\na" && a == "a" && b == "b" && c == " b "
    ensures IsLine(a) && IsLine(b) && IsLine(c)
    ensures s == a + ['\r'] + ([] + ['\n'] + (b + ['\n'] + (c + ['\n'] + ([] + ['\n'] + a))))
  {
  }

  /** CRLF is one break, the blank line disappears, the duplicate stays. */
  lemma ExampleSplit(s: string)
    requires s == "a\r\nb\n b \n\na"
    ensures SplitLines(s) == ["a", "b", " b ", "a"]
  {
    ExampleSplitParts(s, "a", "b", " b ");
    SplitLinesShape("a", "b", " b ");
  }

  /** Blank lines are dropped even without trimming. */
  lemma BlankLineDropped()
    ensures SplitLines("a\n\nb") == ["a", "b"]
  {
    SplitLinesOfLine("a");
    SplitLinesOfLine("b");
    SplitLinesAtBreak([], '\n', "b");
    SplitLinesAtBreak("a", '\n', [] + ['\n'] + "b");
    assert "a" + ['\n'] + ([] + ['\n'] + "b") == "a\n\nb";
  }

  lemma ExampleTrimWord(w: string)
    requires w == "a" || w == "b"
    ensures TrimSpace(w) == w
  {
    TrimSpaceOfTrimmed(w);
  }

  lemma ExampleTrimC(b: string, c: string)
    requires b == "b" && c == " b "
    ensures TrimSpace(c) == b
  {
    var c' := c[1..];
    assert IsSpace(c[0]) && !IsSpace(c'[0]) && IsSpace(c'[1]) && !IsSpace(b[0]);
    assert TrimLeft(c) == TrimLeft(c');
    assert TrimLeft(c') == c';
    assert c'[..1] == b;
    assert TrimRight(c') == TrimRight(b);
    assert TrimRight(b) == b;
  }

  /** Appending a line whose trim is the non-empty t appends t. */
  lemma TrimmedLinesSnoc(ls: seq<string>, l: string, t: string)
    requires TrimSpace(l) == t && t != []
    ensures TrimmedLines(ls + [l]) == TrimmedLines(ls) + [t]
  {
    assert (ls + [l])[..|ls|] == ls;
  }

  /** Trimming a, b, c, a where c trims to b. */
  lemma ExampleTrimmedLines(a: string, b: string, c: string)
    requires a != [] && b != []
    requires TrimSpace(a) == a && TrimSpace(b) == b && TrimSpace(c) == b
    ensures TrimmedLines([a] + [b] + [c] + [a]) == [a] + [b] + [b] + [a]
  {
    TrimmedLinesSnoc([], a, a);
    assert [] + [a] == [a];
    TrimmedLinesSnoc([a], b, b);
    TrimmedLinesSnoc([a] + [b], c, b);
    TrimmedLinesSnoc([a] + [b] + [c], a, a);
  }

  /** The trimmed lines of the example's shape, for any lines a, b, c where
      a and b are trimmed and c trims to b. */
  lemma TrimmedShape(s: string, a: string, b: string, c: string)
    requires IsLine(a) && IsLine(b) && IsLine(c)
    requires TrimSpace(a) == a && TrimSpace(b) == b && TrimSpace(c) == b
    requires s == a + ['\r'] + ([] + ['\n'] + (b + ['\n'] + (c + ['\n'] + ([] + ['\n'] + a))))
    ensures TrimmedLines(SplitLines(s)) == [a, b, b, a]
    ensures (set x | x in TrimmedLines(SplitLines(s))) == {a, b}
  {
    SplitLinesShape(a, b, c);
    Display4(a, b, c, a);
    ExampleTrimmedLines(a, b, c);
    Display4(a, b, b, a);
    KeysOfABBA(TrimmedLines(SplitLines(s)), a, b);
  }

  lemma Display4<X>(w: X, x: X, y: X, z: X)
    ensures [w, x, y, z] == [w] + [x] + [y] + [z]
  {
  }

  lemma KeysOfABBA(xs: seq<string>, a: string, b: string)
    requires xs == [a, b, b, a]
    ensures (set x | x in xs) == {a, b}
  {
  }

  /** "a\r\nb\n b \n\na" loads as the trimmed lines a, b, b, a and as the
      trimmed line set {"a", "b"}. */
  lemma TrimmedExample(s: string)
    requires s == "a\r\nb\n b \n\na"
    ensures TrimmedLines(SplitLines(s)) == ["a", "b", "b", "a"]
    ensures (set x | x in TrimmedLines(SplitLines(s))) == {"a", "b"}
  {
    ExampleSplitParts(s, "a", "b", " b ");
    ExampleTrimWord("a");
    ExampleTrimWord("b");
    ExampleTrimC("b", " b ");
    TrimmedShape(s, "a", "b", " b ");
  }
}
