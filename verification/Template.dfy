/** Filling code templates by a chain of str.replace calls (graph_gstcomponent_generator.py). */
module Template {

  /** str.replace: every occurrence from the left, without overlaps. */
  function Replace(s: string, target: string, value: string): string
    requires target != ""
  {
    if |s| < |target| then s
    else if target <= s then value + Replace(s[|target|..], target, value)
    else [s[0]] + Replace(s[1..], target, value)
  }

  /** A template: text, and tokens written as <NAME>. */
  datatype Piece = Text(text: string) | Token(name: string)

  function Marker(name: string): (m: string)
    ensures |m| == |name| + 2 && m[0] == '<' && m[|m| - 1] == '>' && m[1..|m| - 1] == name
  {
    "<" + name + ">"
  }

  function Show(p: Piece): string {
    match p case Text(t) => t case Token(n) => Marker(n)
  }

  function Render(ps: seq<Piece>): string {
    if ps == [] then "" else Show(ps[0]) + Render(ps[1..])
  }

  predicate IsName(n: string) {
    '<' !in n && '>' !in n
  }

  /** One of the two starts with the other. */
  predicate Compatible(a: string, b: string) {
    a <= b || b <= a
  }

  /** No occurrence of the marker starts within t, whatever follows t. */
  predicate Inert(t: string, name: string) {
    forall i :: 0 <= i < |t| ==> !Compatible(t[i..], Marker(name))
  }

  lemma {:induction false} PlainIsInert(t: string, name: string)
    requires '<' !in t
    ensures Inert(t, name)
  {
    forall i | 0 <= i < |t| ensures !Compatible(t[i..], Marker(name)) {
      assert t[i..][0] == t[i] && t[i] in t;
    }
  }

  /** A marker is inert for every other name. */
  lemma {:induction false} MarkerIsInert(m: string, n: string)
    requires IsName(m) && IsName(n) && m != n
    ensures Inert(Marker(m), n)
  {
    var a, b := Marker(m), Marker(n);
    forall i | 0 <= i < |a| ensures !Compatible(a[i..], b) {
      if i > 0 {
        assert a[i..][0] == a[i];
        assert i < |a| - 1 ==> a[i] == m[i - 1];
      } else {
        assert a[0..] == a;
        MarkersDiffer(m, n);
      }
    }
  }

  lemma {:induction false} MarkersDiffer(m: string, n: string)
    requires IsName(m) && IsName(n) && m != n
    ensures !Compatible(Marker(m), Marker(n))
  {
  }

  lemma {:induction false} ReplaceAfterInert(t: string, rest: string, name: string, value: string)
    requires Inert(t, name)
    ensures Replace(t + rest, Marker(name), value) == t + Replace(rest, Marker(name), value)
  {
    var m := Marker(name);
    if t == "" {
      assert t + rest == rest;
    } else {
      assert t[0..] == t;
      assert !(m <= t + rest) by {
        if m <= t + rest { SplitPrefix(m, t, rest); }
      }
      assert (t + rest)[1..] == t[1..] + rest;
      forall i | 0 <= i < |t[1..]| ensures !Compatible(t[1..][i..], m) {
        assert t[1..][i..] == t[i + 1..];
      }
      ReplaceAfterInert(t[1..], rest, name, value);
      ReplaceShort(t + rest, m, value);
    }
  }

  lemma {:induction false} ReplaceShort(s: string, target: string, value: string)
    requires target != "" && s != "" && !(target <= s)
    ensures Replace(s, target, value) == [s[0]] + Replace(s[1..], target, value)
  {
    if |s| < |target| {
      assert [s[0]] + s[1..] == s;
    }
  }

  lemma {:induction false} SplitPrefix(m: string, t: string, rest: string)
    requires m <= t + rest
    ensures Compatible(t, m)
  {
    if |m| <= |t| {
      assert m == (t + rest)[..|m|] == t[..|m|];
    } else {
      assert t == (t + rest)[..|t|] == m[..|t|];
    }
  }

  lemma {:induction false} ReplaceMarker(rest: string, name: string, value: string)
    ensures Replace(Marker(name) + rest, Marker(name), value) == value + Replace(rest, Marker(name), value)
  {
    assert (Marker(name) + rest)[|Marker(name)|..] == rest;
  }

  // ---------------------------------------------------------------- one replacement

  /** The token of that name replaced by text. */
  function Subst(ps: seq<Piece>, name: string, value: string): (r: seq<Piece>)
    ensures |r| == |ps|
    ensures forall i :: 0 <= i < |ps| ==> r[i] == if ps[i] == Token(name) then Text(value) else ps[i]
  {
    seq(|ps|, i requires 0 <= i < |ps| => if ps[i] == Token(name) then Text(value) else ps[i])
  }

  /** All text is inert for the name, and all tokens have proper names. */
  predicate Ready(ps: seq<Piece>, name: string) {
    forall i :: 0 <= i < |ps| ==>
      match ps[i] case Text(t) => Inert(t, name) case Token(n) => IsName(n)
  }

  lemma {:induction false} ReplaceIsSubst(ps: seq<Piece>, name: string, value: string)
    requires IsName(name) && Ready(ps, name)
    ensures Replace(Render(ps), Marker(name), value) == Render(Subst(ps, name, value))
  {
    if ps != [] {
      var p := ps[0];
      ReplaceIsSubst(ps[1..], name, value);
      assert Subst(ps, name, value)[1..] == Subst(ps[1..], name, value);
      if p == Token(name) {
        ReplaceMarker(Render(ps[1..]), name, value);
      } else {
        if p.Token? { MarkerIsInert(p.name, name); }
        ReplaceAfterInert(Show(p), Render(ps[1..]), name, value);
      }
    }
  }

  // ---------------------------------------------------------------- the chain

  datatype Sub = Sub(name: string, value: string)

  /** s.replace(...).replace(...)... */
  function Chain(s: string, subs: seq<Sub>): string
    decreases |subs|
  {
    if subs == [] then s else Chain(Replace(s, Marker(subs[0].name), subs[0].value), subs[1..])
  }

  /** The value a token stands for. */
  function Value(name: string, subs: seq<Sub>): Piece {
    if subs == [] then Token(name)
    else if subs[0].name == name then Text(subs[0].value)
    else Value(name, subs[1..])
  }

  /** All tokens replaced at once. */
  function SubstAll(ps: seq<Piece>, subs: seq<Sub>): (r: seq<Piece>)
    ensures |r| == |ps|
    ensures forall i :: 0 <= i < |ps| ==> r[i] == if ps[i].Token? then Value(ps[i].name, subs) else ps[i]
  {
    seq(|ps|, i requires 0 <= i < |ps| => if ps[i].Token? then Value(ps[i].name, subs) else ps[i])
  }

  /** Each value is inert for the names that are replaced after it; the last value may be anything. */
  predicate Ordered(subs: seq<Sub>) {
    && (forall i :: 0 <= i < |subs| ==> IsName(subs[i].name))
    && (forall i, j :: 0 <= i < j < |subs| ==> subs[i].name != subs[j].name && Inert(subs[i].value, subs[j].name))
  }

  /** The chain of replacements is the simultaneous substitution. */
  lemma {:induction false} ChainIsSimultaneous(ps: seq<Piece>, subs: seq<Sub>)
    requires Ordered(subs) && forall j :: 0 <= j < |subs| ==> Ready(ps, subs[j].name)
    ensures Chain(Render(ps), subs) == Render(SubstAll(ps, subs))
    decreases |subs|
  {
    if subs == [] {
      assert SubstAll(ps, subs) == ps;
    } else {
      var next := Subst(ps, subs[0].name, subs[0].value);
      ReplaceIsSubst(ps, subs[0].name, subs[0].value);
      StaysReady(ps, subs);
      ChainIsSimultaneous(next, subs[1..]);
      FirstThenRest(ps, subs);
    }
  }

  lemma {:induction false} StaysReady(ps: seq<Piece>, subs: seq<Sub>)
    requires subs != [] && Ordered(subs) && forall j :: 0 <= j < |subs| ==> Ready(ps, subs[j].name)
    ensures var next, rest := Subst(ps, subs[0].name, subs[0].value), subs[1..];
      Ordered(rest) && forall j :: 0 <= j < |rest| ==> Ready(next, rest[j].name)
  {
    var next, rest := Subst(ps, subs[0].name, subs[0].value), subs[1..];
    forall j | 0 <= j < |rest| ensures Ready(next, rest[j].name) {
      assert rest[j] == subs[j + 1] && Inert(subs[0].value, subs[j + 1].name);
      assert Ready(ps, subs[j + 1].name);
    }
  }

  lemma {:induction false} FirstThenRest(ps: seq<Piece>, subs: seq<Sub>)
    requires subs != []
    ensures SubstAll(Subst(ps, subs[0].name, subs[0].value), subs[1..]) == SubstAll(ps, subs)
  {
  }

  // ---------------------------------------------------------------- the property setter

  /** The tokens of the PROP_SET templates, in the order in which the code replaces them. */
  const SETTER_NAMES: seq<string> := ["PROPNAME", "PROPNAME_US", "PROPNAME_US_VAL", "GPROPTYPE", "PROP_DEF_VALUE"]

  lemma {:induction false} SetterNames(i: nat)
    requires i < 5
    ensures IsName(SETTER_NAMES[i]) && |SETTER_NAMES[i]| == [8, 11, 15, 9, 14][i]
  {
  }

  predicate Fills(subs: seq<Sub>, names: seq<string>) {
    |subs| == |names| && forall i :: 0 <= i < |subs| ==> subs[i].name == names[i]
  }

  /** Values without '<', save perhaps for the last one. */
  predicate PlainButLast(subs: seq<Sub>) {
    forall i :: 0 <= i < |subs| - 1 ==> '<' !in subs[i].value
  }

  predicate PlainTexts(ps: seq<Piece>) {
    forall i :: 0 <= i < |ps| ==> match ps[i] case Text(t) => '<' !in t case Token(n) => IsName(n)
  }

  lemma {:induction false} SetterOrdered(subs: seq<Sub>)
    requires Fills(subs, SETTER_NAMES) && PlainButLast(subs)
    ensures Ordered(subs)
  {
    var names := SETTER_NAMES;
    forall i | 0 <= i < |subs| ensures IsName(subs[i].name) {
      SetterNames(i);
    }
    forall i, j | 0 <= i < j < |subs| ensures subs[i].name != subs[j].name && Inert(subs[i].value, subs[j].name) {
      SetterNames(i);
      SetterNames(j);
      PlainIsInert(subs[i].value, subs[j].name);
    }
  }

  /** A setter whose template is plain text around tokens, filled with a name and types without '<' and
      with any default value at all, is the simultaneous substitution. */
  lemma {:induction false} SetterFilled(ps: seq<Piece>, subs: seq<Sub>)
    requires PlainTexts(ps) && Fills(subs, SETTER_NAMES) && PlainButLast(subs)
    ensures Chain(Render(ps), subs) == Render(SubstAll(ps, subs))
  {
    SetterOrdered(subs);
    forall j | 0 <= j < |subs| ensures Ready(ps, subs[j].name) {
      forall i | 0 <= i < |ps| && ps[i].Text? ensures Inert(ps[i].text, subs[j].name) {
        PlainIsInert(ps[i].text, subs[j].name);
      }
    }
    ChainIsSimultaneous(ps, subs);
  }
}
