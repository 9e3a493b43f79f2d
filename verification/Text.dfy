/** Trimming and splitting of strings (utils.cpp, and the list loops of yolo.cpp). */
module Text {

  /** isspace in the "C" locale: space, tab, newline, vertical tab, form feed, carriage return. */
  predicate IsSpace(c: char) {
    c == ' ' || '\t' <= c <= '\r'
  }

  lemma {:induction false} Spaces(c: char)
    ensures IsSpace(c) <==> c in {' ', '\t', '\n', '\r', 11 as char, 12 as char}
  {
  }

  predicate AllSpace(s: string) {
    forall i :: 0 <= i < |s| ==> IsSpace(s[i])
  }

  /** A string that starts and ends with a character that is not a space. */
  predicate IsTrimmed(s: string) {
    s != "" ==> !IsSpace(s[0]) && !IsSpace(s[|s| - 1])
  }

  function LeftTrim(s: string): (r: string)
    ensures r != "" ==> !IsSpace(r[0])
  {
    if s != "" && IsSpace(s[0]) then LeftTrim(s[1..]) else s
  }

  function RightTrim(s: string): (r: string)
    ensures r != "" ==> !IsSpace(r[|r| - 1])
  {
    if s != "" && IsSpace(s[|s| - 1]) then RightTrim(s[..|s| - 1]) else s
  }

  function Trim(s: string): (r: string)
    ensures IsTrimmed(r)
  {
    RightTrimPrefix(LeftTrim(s));
    RightTrim(LeftTrim(s))
  }

  /** leftTrim and rightTrim erase from the string in place; together they compute Trim. */
  method TrimInPlace(s: string) returns (r: string)
    ensures r == Trim(s)
  {
    r := s;
    while r != "" && IsSpace(r[0])
      invariant LeftTrim(r) == LeftTrim(s)
      decreases |r|
    {
      r := r[1..];
    }
    while r != "" && IsSpace(r[|r| - 1])
      invariant RightTrim(r) == Trim(s)
      decreases |r|
    {
      r := r[..|r| - 1];
    }
  }

  lemma {:induction false} LeftTrimPadding(a: string, s: string)
    requires AllSpace(a)
    ensures LeftTrim(a + s) == LeftTrim(s)
  {
    if a == "" {
      assert a + s == s;
    } else {
      assert (a + s)[1..] == a[1..] + s;
      LeftTrimPadding(a[1..], s);
    }
  }

  lemma {:induction false} RightTrimPadding(s: string, b: string)
    requires AllSpace(b)
    ensures RightTrim(s + b) == RightTrim(s)
  {
    if b == "" {
      assert s + b == s;
    } else {
      assert (s + b)[..|s + b| - 1] == s + b[..|b| - 1];
      RightTrimPadding(s, b[..|b| - 1]);
    }
  }

  /** Trim returns the one trimmed string that s is a padding of. */
  lemma {:induction false} TrimUnique(a: string, core: string, b: string)
    requires AllSpace(a) && AllSpace(b) && IsTrimmed(core)
    ensures Trim(a + core + b) == core
  {
    assert a + core + b == a + (core + b);
    LeftTrimPadding(a, core + b);
    if core == "" {
      assert core + b == b;
      LeftTrimPadding(b, "");
      assert b + "" == b;
    } else {
      assert (core + b)[0] == core[0];
      RightTrimPadding(core, b);
    }
  }

  lemma {:induction false} TrimIdle(s: string)
    requires IsTrimmed(s)
    ensures Trim(s) == s
  {
    TrimUnique("", s, "");
    assert "" + s + "" == s;
  }

  lemma {:induction false} LeftTrimSuffix(s: string)
    ensures var r := LeftTrim(s);
      |r| <= |s| && r == s[|s| - |r|..] && AllSpace(s[..|s| - |r|])
  {
    if s != "" && IsSpace(s[0]) {
      LeftTrimSuffix(s[1..]);
    }
  }

  lemma {:induction false} RightTrimPrefix(s: string)
    ensures var r := RightTrim(s);
      |r| <= |s| && r == s[..|r|] && AllSpace(s[|r|..])
  {
    if s != "" && IsSpace(s[|s| - 1]) {
      RightTrimPrefix(s[..|s| - 1]);
    }
  }

  /** Every string is a padding of its Trim. */
  lemma {:induction false} TrimSplits(s: string) returns (a: string, b: string)
    ensures AllSpace(a) && AllSpace(b) && s == a + Trim(s) + b
  {
    var l := LeftTrim(s);
    var r := RightTrim(l);
    LeftTrimSuffix(s);
    RightTrimPrefix(l);
    a, b := s[..|s| - |l|], l[|r|..];
    AffixSplit(s, l, r);
  }

  lemma {:induction false} AffixSplit(s: string, l: string, r: string)
    requires |l| <= |s| && l == s[|s| - |l|..]
    requires |r| <= |l| && r == l[..|r|]
    ensures s == s[..|s| - |l|] + r + l[|r|..]
  {
  }

  /** Index of the first c in s, or |s|. */
  function Find(s: string, c: char): (n: nat)
    ensures n <= |s| && c !in s[..n]
    ensures n < |s| ==> s[n] == c
  {
    if s == "" || s[0] == c then 0 else
      var n := 1 + Find(s[1..], c);
      assert s[..n] == [s[0]] + s[1..][..n - 1];
      n
  }

  lemma {:induction false} FindUnique(a: string, c: char, b: string)
    requires c !in a
    ensures Find(a + [c] + b, c) == |a|
  {
    var s := a + [c] + b;
    assert s[|a|] == c && s[..|a|] == a;
  }

  /** The pieces of s between separators; an empty piece at the very end is dropped. This is what
      getline over '\n' and the erase loops over ',' visit. */
  function Pieces(s: string, sep: char): (ps: seq<string>)
    decreases |s|
  {
    if s == "" then []
    else
      var n := Find(s, sep);
      if n < |s| then [s[..n]] + Pieces(s[n + 1..], sep) else [s]
  }

  /** Pieces with the separator written between them. */
  function Join(ps: seq<string>, sep: char): string {
    if ps == [] then "" else if |ps| == 1 then ps[0] else ps[0] + [sep] + Join(ps[1..], sep)
  }

  /** Pieces with the separator written after each of them. */
  function Terminated(ps: seq<string>, sep: char): string {
    if ps == [] then "" else ps[0] + [sep] + Terminated(ps[1..], sep)
  }

  lemma {:induction false} PiecesCons(p: string, sep: char, rest: string)
    requires sep !in p
    ensures Pieces(p + [sep] + rest, sep) == [p] + Pieces(rest, sep)
  {
    var s := p + [sep] + rest;
    FindUnique(p, sep, rest);
    assert s[..|p|] == p && s[|p| + 1..] == rest;
  }

  lemma {:induction false} PiecesOne(p: string, sep: char)
    requires sep !in p
    ensures Pieces(p, sep) == if p == "" then [] else [p]
  {
  }

  /** No piece holds the separator. */
  predicate AllLack(ps: seq<string>, sep: char) {
    forall k :: 0 <= k < |ps| ==> sep !in ps[k]
  }

  lemma {:induction false} PiecesLack(s: string, sep: char)
    ensures AllLack(Pieces(s, sep), sep)
    decreases |s|
  {
    var n := Find(s, sep);
    if s != "" && n < |s| {
      PiecesLack(s[n + 1..], sep);
    } else {
      assert s[..n] == s;
    }
  }

  /** Splitting loses nothing: no piece holds a separator, and writing the separator between the
      pieces gives the text back, save for a separator that ends it. */
  lemma {:induction false} PiecesRejoin(s: string, sep: char)
    ensures AllLack(Pieces(s, sep), sep)
    ensures s == Join(Pieces(s, sep), sep) + FinalSeparator(s, sep)
    decreases |s|
  {
    PiecesLack(s, sep);
    var n := Find(s, sep);
    if s != "" && n < |s| {
      var p, rest := s[..n], s[n + 1..];
      assert s == p + [sep] + rest;
      PiecesRejoin(rest, sep);
      RejoinStep(p, Pieces(rest, sep), rest, sep);
    }
  }

  lemma {:induction false} RejoinStep(p: string, ps: seq<string>, rest: string, sep: char)
    requires rest == Join(ps, sep) + FinalSeparator(rest, sep)
    requires ps == [] <==> rest == ""
    ensures p + [sep] + rest == Join([p] + ps, sep) + FinalSeparator(p + [sep] + rest, sep)
  {
    if ps == [] {
      assert p + [sep] + rest == p + [sep];
    } else {
      JoinCons(p, ps, sep);
      SeparatorAtEnd(p + [sep], rest, sep);
      assert p + [sep] + (Join(ps, sep) + FinalSeparator(rest, sep))
          == p + [sep] + Join(ps, sep) + FinalSeparator(rest, sep);
    }
  }

  lemma {:induction false} SeparatorAtEnd(a: string, b: string, sep: char)
    requires b != ""
    ensures FinalSeparator(a + b, sep) == FinalSeparator(b, sep)
  {
  }

  function FinalSeparator(s: string, sep: char): string {
    if s != "" && s[|s| - 1] == sep then [sep] else ""
  }

  lemma {:induction false} JoinCons(p: string, ps: seq<string>, sep: char)
    requires ps != []
    ensures Join([p] + ps, sep) == p + [sep] + Join(ps, sep)
  {
    assert ([p] + ps)[1..] == ps;
  }

  /** The inverse: separator-free pieces that were joined are the pieces found. */
  lemma {:induction false} PiecesOfJoin(ps: seq<string>, sep: char)
    requires AllLack(ps, sep)
    requires ps != [] ==> ps[|ps| - 1] != ""
    ensures Pieces(Join(ps, sep), sep) == ps
  {
    if |ps| == 1 {
      PiecesOne(ps[0], sep);
    } else if ps != [] {
      PiecesOfJoin(ps[1..], sep);
      PiecesCons(ps[0], sep, Join(ps[1..], sep));
    }
  }

  /** Lines that were written one by one are the lines read. */
  lemma {:induction false} PiecesOfTerminated(ps: seq<string>, sep: char)
    requires AllLack(ps, sep)
    ensures Pieces(Terminated(ps, sep), sep) == ps
  {
    if ps != [] {
      PiecesOfTerminated(ps[1..], sep);
      PiecesCons(ps[0], sep, Terminated(ps[1..], sep));
    }
  }
}
