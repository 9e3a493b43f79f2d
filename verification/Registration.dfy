/** Descriptions and nicks are free text: what the replacements that follow theirs do to them
    (graph_gstcomponent_generator.py). */
module Registration {
  import opened Template

  // ---------------------------------------------------------------- what a later replacement does to filled-in text

  predicate Occurs(s: string, m: string)
    decreases |s|
  {
    |m| <= |s| && (m <= s || Occurs(s[1..], m))
  }

  lemma {:induction false} ReplaceLength(s: string, m: string, v: string)
    requires m != "" && |v| != |m|
    ensures |v| > |m| ==> |Replace(s, m, v)| >= |s| && (|Replace(s, m, v)| == |s| <==> !Occurs(s, m))
    ensures |v| < |m| ==> |Replace(s, m, v)| <= |s| && (|Replace(s, m, v)| == |s| <==> !Occurs(s, m))
    decreases |s|
  {
    if |s| >= |m| {
      if m <= s {
        ReplaceLength(s[|m|..], m, v);
      } else {
        ReplaceLength(s[1..], m, v);
      }
    }
  }

  lemma {:induction false} ReplaceSameLength(s: string, m: string, v: string)
    requires m != "" && |v| == |m| && v != m
    ensures Replace(s, m, v) == s <==> !Occurs(s, m)
    decreases |s|
  {
    if |s| >= |m| {
      if m <= s {
        assert Replace(s, m, v)[..|m|] == v && s[..|m|] == m;
      } else {
        ReplaceSameLength(s[1..], m, v);
        assert Replace(s, m, v)[1..] == Replace(s[1..], m, v);
      }
    }
  }

  /** Filled-in text survives a later replacement exactly when it does not hold that token (or the token
      is replaced by itself). */
  lemma {:induction false} SurvivesExactly(s: string, name: string, v: string)
    ensures Replace(s, Marker(name), v) == s <==> !Occurs(s, Marker(name)) || v == Marker(name)
  {
    var m := Marker(name);
    if v == m {
      ReplaceBySelf(s, m);
    } else if |v| == |m| {
      ReplaceSameLength(s, m, v);
    } else {
      ReplaceLength(s, m, v);
      if !Occurs(s, m) { ReplaceNothing(s, m, v); }
    }
  }

  lemma {:induction false} ReplaceNothing(s: string, m: string, v: string)
    requires m != "" && !Occurs(s, m)
    ensures Replace(s, m, v) == s
    decreases |s|
  {
    if |s| >= |m| {
      ReplaceNothing(s[1..], m, v);
    }
  }

  lemma {:induction false} ReplaceBySelf(s: string, m: string)
    requires m != ""
    ensures Replace(s, m, m) == s
    decreases |s|
  {
    if |s| >= |m| {
      if m <= s {
        ReplaceBySelf(s[|m|..], m);
        assert m + s[|m|..] == s;
      } else {
        ReplaceBySelf(s[1..], m);
      }
    }
  }

  // ---------------------------------------------------------------- several later replacements

  function Angles(s: string): nat {
    if s == "" then 0 else (if s[0] == '<' then 1 else 0) + Angles(s[1..])
  }

  lemma {:induction false} AnglesConcat(a: string, b: string)
    ensures Angles(a + b) == Angles(a) + Angles(b)
  {
    if a == "" {
      assert a + b == b;
    } else {
      AnglesConcat(a[1..], b);
      assert (a + b)[1..] == a[1..] + b;
    }
  }

  lemma {:induction false} PlainAngles(s: string)
    requires '<' !in s
    ensures Angles(s) == 0
  {
    if s != "" {
      PlainAngles(s[1..]);
    }
  }

  /** Plain text in place of a marker takes its '<' away. */
  lemma {:induction false} ReplaceAngles(s: string, m: string, v: string)
    requires m != "" && m[0] == '<' && '<' !in v
    ensures Angles(Replace(s, m, v)) <= Angles(s)
    ensures Angles(Replace(s, m, v)) == Angles(s) <==> !Occurs(s, m)
    decreases |s|
  {
    if |s| >= |m| {
      if m <= s {
        ReplaceAngles(s[|m|..], m, v);
        PlainAngles(v);
        AnglesConcat(v, Replace(s[|m|..], m, v));
        AnglesConcat(m, s[|m|..]);
        assert m + s[|m|..] == s;
      } else {
        ReplaceAngles(s[1..], m, v);
        assert Replace(s, m, v)[1..] == Replace(s[1..], m, v);
      }
    }
  }

  /** The text holds none of these tokens. */
  predicate HoldsNone(s: string, subs: seq<Sub>) {
    forall j :: 0 <= j < |subs| ==> !Occurs(s, Marker(subs[j].name))
  }

  predicate PlainValues(subs: seq<Sub>) {
    forall j :: 0 <= j < |subs| ==> '<' !in subs[j].value
  }

  /** Text without any of the tokens survives, whatever they stand for. */
  lemma {:induction false} UntouchedSurvives(s: string, subs: seq<Sub>)
    requires HoldsNone(s, subs)
    ensures Chain(s, subs) == s
    decreases |subs|
  {
    if subs != [] {
      ReplaceNothing(s, Marker(subs[0].name), subs[0].value);
      UntouchedSurvives(s, subs[1..]);
    }
  }

  /** When the tokens stand for plain text, no other text survives. */
  lemma {:induction false} ChainSurvivesExactly(s: string, subs: seq<Sub>)
    requires PlainValues(subs)
    ensures Angles(Chain(s, subs)) <= Angles(s)
    ensures Chain(s, subs) == s <==> HoldsNone(s, subs)
    decreases |subs|
  {
    if subs != [] {
      var m, v := Marker(subs[0].name), subs[0].value;
      ReplaceAngles(s, m, v);
      ChainSurvivesExactly(Replace(s, m, v), subs[1..]);
      if Occurs(s, m) {
        assert Angles(Chain(s, subs)) < Angles(s);
      } else {
        ReplaceNothing(s, m, v);
        assert HoldsNone(s, subs) <==> HoldsNone(s, subs[1..]) by { OneMoreToken(s, subs); }
      }
    }
  }

  lemma {:induction false} OneMoreToken(s: string, subs: seq<Sub>)
    requires subs != []
    ensures HoldsNone(s, subs) <==> !Occurs(s, Marker(subs[0].name)) && HoldsNone(s, subs[1..])
  {
    if !Occurs(s, Marker(subs[0].name)) && HoldsNone(s, subs[1..]) {
      forall j | 0 <= j < |subs| ensures !Occurs(s, Marker(subs[j].name)) {
        assert j > 0 ==> subs[j] == subs[1..][j - 1];
      }
    }
  }

  // ---------------------------------------------------------------- what a chain makes of a sealed template

  predicate TokenChar(c: char) {
    'A' <= c <= 'Z' || c == '_'
  }

  predicate IsTokenName(n: string) {
    forall i :: 0 <= i < |n| ==> TokenChar(n[i])
  }

  /** Plain text whose start cannot be the rest of a token. */
  predicate Seals(p: Piece) {
    p.Text? && '<' !in p.text && p.text != "" && !TokenChar(p.text[0]) && p.text[0] != '>'
  }

  /** Every token, and what has been filled in for it, is followed by text that seals it. */
  predicate Sealed(ps: seq<Piece>) {
    forall i :: 0 <= i < |ps| ==> SealedAt(ps, i)
  }

  predicate SealedAt(ps: seq<Piece>, i: nat)
    requires i < |ps|
  {
    || (ps[i].Text? && '<' !in ps[i].text)
    || ((ps[i].Token? ==> IsTokenName(ps[i].name)) && (i + 1 < |ps| ==> Seals(ps[i + 1])))
  }

  /** What follows cannot complete a token. */
  predicate Breaks(rest: string) {
    rest != "" ==> !TokenChar(rest[0]) && rest[0] != '>'
  }

  /** Both parts are replaced on their own. */
  lemma {:induction false} ReplaceSplits(a: string, b: string, name: string, v: string)
    requires IsTokenName(name) && Breaks(b)
    ensures Replace(a + b, Marker(name), v) == Replace(a, Marker(name), v) + Replace(b, Marker(name), v)
    decreases |a|
  {
    var m := Marker(name);
    if a == "" {
      assert a + b == b;
    } else if m <= a {
      ReplaceSplits(a[|m|..], b, name, v);
      SplitsAtToken(a[|m|..], b, name, v);
      assert a == m + a[|m|..];
    } else {
      NoTokenAcross(a, b, name);
      ReplaceSplits(a[1..], b, name, v);
      SplitsElsewhere(a, b, m, v);
    }
  }

  lemma {:induction false} SplitsAtToken(a: string, b: string, name: string, v: string)
    requires Replace(a + b, Marker(name), v) == Replace(a, Marker(name), v) + Replace(b, Marker(name), v)
    ensures Replace(Marker(name) + a + b, Marker(name), v)
         == Replace(Marker(name) + a, Marker(name), v) + Replace(b, Marker(name), v)
  {
    Regroup(Marker(name), a, b);
    ReplaceMarker(a + b, name, v);
    ReplaceMarker(a, name, v);
    Regroup(v, Replace(a, Marker(name), v), Replace(b, Marker(name), v));
  }

  lemma {:induction false} Regroup(a: string, b: string, c: string)
    ensures a + b + c == a + (b + c)
  {
  }

  lemma {:induction false} SplitsElsewhere(a: string, b: string, m: string, v: string)
    requires m != "" && a != "" && !(m <= a) && !(m <= a + b)
    requires Replace(a[1..] + b, m, v) == Replace(a[1..], m, v) + Replace(b, m, v)
    ensures Replace(a + b, m, v) == Replace(a, m, v) + Replace(b, m, v)
  {
    assert (a + b)[1..] == a[1..] + b;
    ReplaceShort(a + b, m, v);
    ReplaceShort(a, m, v);
    Regroup([a[0]], Replace(a[1..], m, v), Replace(b, m, v));
  }

  lemma {:induction false} NoTokenAcross(a: string, b: string, name: string)
    requires IsTokenName(name) && Breaks(b) && a != "" && !(Marker(name) <= a)
    ensures !(Marker(name) <= a + b)
  {
    var m := Marker(name);
    if m <= a + b {
      SplitPrefix(m, a, b);
      if |a| < |m| {
        AfterFirst(name, |a|);
      }
      assert false;
    }
  }

  lemma {:induction false} AfterFirst(name: string, i: nat)
    requires IsTokenName(name) && 0 < i < |Marker(name)|
    ensures TokenChar(Marker(name)[i]) || Marker(name)[i] == '>'
  {
    assert i < |name| + 1 ==> Marker(name)[i] == name[i - 1];
  }

  lemma {:induction false} PlainKept(t: string, name: string, v: string)
    requires '<' !in t
    ensures Replace(t, Marker(name), v) == t
  {
    PlainIsInert(t, name);
    ReplaceAfterInert(t, "", name, v);
    assert t + "" == t;
  }

  /** One replacement, piece by piece. */
  function ReplacedPiece(p: Piece, sub: Sub): Piece {
    match p
    case Text(t) => Text(Replace(t, Marker(sub.name), sub.value))
    case Token(n) => if n == sub.name then Text(sub.value) else p
  }

  function Replaced(ps: seq<Piece>, sub: Sub): (r: seq<Piece>)
    ensures |r| == |ps| && forall i :: 0 <= i < |ps| ==> r[i] == ReplacedPiece(ps[i], sub)
  {
    seq(|ps|, i requires 0 <= i < |ps| => ReplacedPiece(ps[i], sub))
  }

  lemma {:induction false} SealedTail(ps: seq<Piece>)
    requires Sealed(ps) && ps != []
    ensures Sealed(ps[1..])
    ensures !(ps[0].Text? && '<' !in ps[0].text) ==> Breaks(Render(ps[1..]))
  {
    assert SealedAt(ps, 0);
    forall i | 0 <= i < |ps[1..]| ensures SealedAt(ps[1..], i) {
      assert SealedAt(ps, i + 1);
    }
    if |ps| > 1 {
      assert ps[1..][0] == ps[1];
    }
  }

  lemma {:induction false} ReplaceSealed(ps: seq<Piece>, sub: Sub)
    requires Sealed(ps) && IsTokenName(sub.name)
    ensures Replace(Render(ps), Marker(sub.name), sub.value) == Render(Replaced(ps, sub))
  {
    if ps != [] {
      SealedTail(ps);
      ReplaceSealed(ps[1..], sub);
      assert Replaced(ps, sub)[1..] == Replaced(ps[1..], sub);
      assert SealedAt(ps, 0);
      ReplaceHead(ps[0], Render(ps[1..]), sub);
    }
  }

  lemma {:induction false} ReplaceHead(p: Piece, rest: string, sub: Sub)
    requires IsTokenName(sub.name) && (p.Token? ==> IsTokenName(p.name))
    requires (p.Text? && '<' !in p.text) || Breaks(rest)
    ensures Replace(Show(p) + rest, Marker(sub.name), sub.value)
         == Show(ReplacedPiece(p, sub)) + Replace(rest, Marker(sub.name), sub.value)
  {
    var m, v := Marker(sub.name), sub.value;
    if p == Token(sub.name) {
      ReplaceMarker(rest, sub.name, v);
    } else if p.Token? {
      NamesProper(p.name);
      NamesProper(sub.name);
      MarkerIsInert(p.name, sub.name);
      ReplaceAfterInert(Show(p), rest, sub.name, v);
    } else if '<' !in p.text {
      PlainKept(p.text, sub.name, v);
      PlainIsInert(p.text, sub.name);
      ReplaceAfterInert(p.text, rest, sub.name, v);
    } else {
      ReplaceSplits(p.text, rest, sub.name, v);
    }
  }

  lemma {:induction false} NamesProper(n: string)
    requires IsTokenName(n)
    ensures IsName(n)
  {
  }

  lemma {:induction false} StaysSealed(ps: seq<Piece>, sub: Sub)
    requires Sealed(ps)
    ensures Sealed(Replaced(ps, sub))
  {
    var r := Replaced(ps, sub);
    forall i | 0 <= i < |ps| ensures SealedAt(r, i) {
      assert SealedAt(ps, i);
      if ps[i].Text? && '<' !in ps[i].text {
        PlainKept(ps[i].text, sub.name, sub.value);
      } else if i + 1 < |ps| {
        PlainKept(ps[i + 1].text, sub.name, sub.value);
      }
    }
  }

  predicate TokenNames(subs: seq<Sub>) {
    forall j :: 0 <= j < |subs| ==> IsTokenName(subs[j].name)
  }

  /** What a chain leaves of a piece: a token becomes its value, as the replacements after its own
      leave it. */
  function LeftOf(p: Piece, subs: seq<Sub>): Piece
    decreases |subs|
  {
    match p
    case Text(t) => Text(Chain(t, subs))
    case Token(n) =>
      if subs == [] then p
      else if n == subs[0].name then Text(Chain(subs[0].value, subs[1..]))
      else LeftOf(p, subs[1..])
  }

  function Left(ps: seq<Piece>, subs: seq<Sub>): (r: seq<Piece>)
    ensures |r| == |ps| && forall i :: 0 <= i < |ps| ==> r[i] == LeftOf(ps[i], subs)
  {
    seq(|ps|, i requires 0 <= i < |ps| => LeftOf(ps[i], subs))
  }

  /** A chain on a sealed template, whatever the values: each value only meets the replacements after its
      own, and meets them alone. */
  lemma {:induction false} ChainLeaves(ps: seq<Piece>, subs: seq<Sub>)
    requires Sealed(ps) && TokenNames(subs)
    ensures Chain(Render(ps), subs) == Render(Left(ps, subs))
    decreases |subs|
  {
    if subs == [] {
      assert Left(ps, subs) == ps;
    } else {
      var next, rest := Replaced(ps, subs[0]), subs[1..];
      ReplaceSealed(ps, subs[0]);
      StaysSealed(ps, subs[0]);
      forall j | 0 <= j < |rest| ensures IsTokenName(rest[j].name) {
        assert rest[j] == subs[j + 1];
      }
      ChainLeaves(next, rest);
      assert Left(next, rest) == Left(ps, subs);
    }
  }

  // ---------------------------------------------------------------- when a chain is the simultaneous substitution

  predicate DistinctNames(subs: seq<Sub>) {
    forall i, j :: 0 <= i < j < |subs| ==> subs[i].name != subs[j].name
  }

  /** A template as it is written. */
  predicate IsTemplate(ps: seq<Piece>) {
    Sealed(ps) && PlainTexts(ps)
  }

  /** The later replacements leave value i alone. */
  predicate Survives(subs: seq<Sub>, i: nat)
    requires i < |subs|
  {
    Chain(subs[i].value, subs[i + 1..]) == subs[i].value
  }

  lemma {:induction false} TokenLeft(n: string, subs: seq<Sub>) returns (k: nat)
    requires DistinctNames(subs)
    ensures k <= |subs| && (k < |subs| ==> subs[k].name == n)
    ensures k < |subs| ==> Value(n, subs) == Text(subs[k].value)
    ensures k < |subs| ==> LeftOf(Token(n), subs) == Text(Chain(subs[k].value, subs[k + 1..]))
    ensures k == |subs| ==> LeftOf(Token(n), subs) == Value(n, subs)
    ensures forall i :: 0 <= i < |subs| && subs[i].name == n ==> i == k
    decreases |subs|
  {
    if subs == [] || subs[0].name == n {
      k := 0;
    } else {
      k := TokenLeft(n, subs[1..]);
      k := k + 1;
      assert k < |subs| ==> subs[1..][k..] == subs[k + 1..];
    }
  }

  lemma {:induction false} PlainChain(t: string, subs: seq<Sub>)
    requires '<' !in t
    ensures Chain(t, subs) == t
    decreases |subs|
  {
    if subs != [] {
      PlainKept(t, subs[0].name, subs[0].value);
      PlainChain(t, subs[1..]);
    }
  }

  /** Two texts that differ in one value, wherever that value stands. */
  predicate Differ(xs: seq<Piece>, ys: seq<Piece>, a: string, b: string) {
    |xs| == |ys| && forall i :: 0 <= i < |xs| ==> xs[i] == ys[i] || (xs[i] == Text(a) && ys[i] == Text(b))
  }

  lemma {:induction false} DifferTail(xs: seq<Piece>, ys: seq<Piece>, a: string, b: string)
    requires Differ(xs, ys, a, b) && xs != []
    ensures Differ(xs[1..], ys[1..], a, b)
  {
  }

  lemma {:induction false} LongerRender(xs: seq<Piece>, ys: seq<Piece>, a: string, b: string)
    requires Differ(xs, ys, a, b) && |a| > |b|
    ensures |Render(xs)| >= |Render(ys)|
    ensures xs != ys ==> |Render(xs)| > |Render(ys)|
  {
    if xs != [] {
      DifferTail(xs, ys, a, b);
      LongerRender(xs[1..], ys[1..], a, b);
      if xs[0] == ys[0] && xs[1..] == ys[1..] { SameParts(xs, ys); }
    }
  }

  lemma {:induction false} SameParts(xs: seq<Piece>, ys: seq<Piece>)
    requires xs != [] && ys != [] && xs[0] == ys[0] && xs[1..] == ys[1..]
    ensures xs == ys
  {
    assert xs == [xs[0]] + xs[1..] && ys == [ys[0]] + ys[1..];
  }

  lemma {:induction false} SameLengthRender(xs: seq<Piece>, ys: seq<Piece>, a: string, b: string)
    requires Differ(xs, ys, a, b) && |a| == |b| && Render(xs) == Render(ys)
    ensures xs == ys
  {
    if xs != [] {
      var n := |Show(xs[0])|;
      assert Render(xs)[..n] == Show(xs[0]) && Render(ys)[..n] == Show(ys[0]);
      assert Render(xs)[n..] == Render(xs[1..]) && Render(ys)[n..] == Render(ys[1..]);
      DifferTail(xs, ys, a, b);
      SameLengthRender(xs[1..], ys[1..], a, b);
      SameParts(xs, ys);
    }
  }

  lemma {:induction false} RenderDiffers(xs: seq<Piece>, ys: seq<Piece>, a: string, b: string)
    requires Differ(xs, ys, a, b)
    ensures Render(xs) == Render(ys) <==> xs == ys
  {
    if |a| > |b| {
      LongerRender(xs, ys, a, b);
    } else if |a| < |b| {
      LongerRender(ys, xs, b, a);
    } else if Render(xs) == Render(ys) {
      SameLengthRender(xs, ys, a, b);
    }
  }

  lemma {:induction false} PieceInDoubt(p: Piece, subs: seq<Sub>, k: nat)
    requires DistinctNames(subs) && k < |subs| && (p.Text? ==> '<' !in p.text)
    requires forall i :: 0 <= i < |subs| && i != k ==> Survives(subs, i)
    ensures p == Token(subs[k].name) ==>
      LeftOf(p, subs) == Text(Chain(subs[k].value, subs[k + 1..])) && Value(p.name, subs) == Text(subs[k].value)
    ensures p != Token(subs[k].name) ==> LeftOf(p, subs) == if p.Token? then Value(p.name, subs) else p
  {
    match p
    case Text(t) => PlainChain(t, subs);
    case Token(n) =>
      var j := TokenLeft(n, subs);
      assert j < |subs| && j != k ==> Survives(subs, j);
  }

  /** With one value in doubt, the chain is the simultaneous substitution exactly when that value
      survives. */
  lemma {:induction false} OneInDoubt(ps: seq<Piece>, subs: seq<Sub>, k: nat)
    requires IsTemplate(ps) && TokenNames(subs) && DistinctNames(subs)
    requires k < |subs| && Token(subs[k].name) in ps
    requires forall i :: 0 <= i < |subs| && i != k ==> Survives(subs, i)
    ensures Chain(Render(ps), subs) == Render(SubstAll(ps, subs)) <==> Survives(subs, k)
  {
    var xs, ys := Left(ps, subs), SubstAll(ps, subs);
    var a, b := Chain(subs[k].value, subs[k + 1..]), subs[k].value;
    ChainLeaves(ps, subs);
    forall i | 0 <= i < |ps|
      ensures if ps[i] == Token(subs[k].name) then xs[i] == Text(a) && ys[i] == Text(b) else xs[i] == ys[i]
    {
      PieceInDoubt(ps[i], subs, k);
    }
    RenderDiffers(xs, ys, a, b);
  }

  /** Exactly when: the chain on a template is the simultaneous substitution, with one value of any text
      and the others plain, when that value holds no token that is replaced after its own. */
  lemma {:induction false} FilledExactly(ps: seq<Piece>, subs: seq<Sub>, k: nat)
    requires IsTemplate(ps) && TokenNames(subs) && DistinctNames(subs)
    requires k < |subs| && Token(subs[k].name) in ps
    requires forall i :: 0 <= i < |subs| && i != k ==> '<' !in subs[i].value
    ensures Chain(Render(ps), subs) == Render(SubstAll(ps, subs)) <==> HoldsNone(subs[k].value, subs[k + 1..])
  {
    forall i | 0 <= i < |subs| && i != k ensures Survives(subs, i) {
      PlainChain(subs[i].value, subs[i + 1..]);
    }
    OneInDoubt(ps, subs, k);
    ChainSurvivesExactly(subs[k].value, subs[k + 1..]);
  }

  /** Exactly when, with values of any text: the other values hold no token replaced after their own, and
      one replacement follows the value in doubt. */
  lemma {:induction false} FilledBeforeLast(ps: seq<Piece>, subs: seq<Sub>)
    requires IsTemplate(ps) && TokenNames(subs) && DistinctNames(subs)
    requires |subs| >= 2 && Token(subs[|subs| - 2].name) in ps
    requires forall i :: 0 <= i < |subs| - 2 ==> HoldsNone(subs[i].value, subs[i + 1..])
    ensures var value, last := subs[|subs| - 2].value, subs[|subs| - 1];
      Chain(Render(ps), subs) == Render(SubstAll(ps, subs))
      <==> !Occurs(value, Marker(last.name)) || last.value == Marker(last.name)
  {
    var k := |subs| - 2;
    var value, last := subs[k].value, subs[k + 1];
    forall i | 0 <= i < |subs| && i != k ensures Survives(subs, i) {
      UntouchedSurvives(subs[i].value, subs[i + 1..]);
    }
    OneInDoubt(ps, subs, k);
    assert subs[k + 1..] == [last] && subs[k + 1..][1..] == [];
    assert Chain(value, [last]) == Replace(value, Marker(last.name), last.value);
    SurvivesExactly(value, last.name, last.value);
  }

  // ---------------------------------------------------------------- the templates

  /** A token, and the text of the template after it. */
  datatype Slot = Slot(token: string, after: string)

  predicate ProperSlot(slot: Slot) {
    IsTokenName(slot.token) && Seals(Text(slot.after))
  }

  function Written(start: string, slots: seq<Slot>): seq<Piece> {
    [Text(start)] + Slots(slots)
  }

  function Slots(slots: seq<Slot>): (ps: seq<Piece>)
    ensures forall i :: 0 <= i < |slots| ==> Token(slots[i].token) in ps
  {
    if slots == [] then [] else [Token(slots[0].token), Text(slots[0].after)] + Slots(slots[1..])
  }

  lemma {:induction false} SlotsSealed(slots: seq<Slot>)
    requires forall i :: 0 <= i < |slots| ==> ProperSlot(slots[i])
    ensures IsTemplate(Slots(slots))
  {
    if slots != [] {
      var rest := Slots(slots[1..]);
      assert ProperSlot(slots[0]);
      NamesProper(slots[0].token);
      SlotsSealed(slots[1..]);
      var ps := Slots(slots);
      assert ps[2..] == rest;
      forall i | 0 <= i < |ps| ensures SealedAt(ps, i) {
        if i >= 2 {
          assert SealedAt(rest, i - 2);
          assert i + 1 < |ps| ==> ps[i + 1] == rest[i - 1];
        }
      }
    }
  }

  lemma {:induction false} WrittenIsTemplate(start: string, slots: seq<Slot>)
    requires '<' !in start && forall i :: 0 <= i < |slots| ==> ProperSlot(slots[i])
    ensures IsTemplate(Written(start, slots))
    ensures forall i :: 0 <= i < |slots| ==> Token(slots[i].token) in Written(start, slots)
  {
    SlotsSealed(slots);
    var ps := Written(start, slots);
    forall i | 0 <= i < |ps| ensures SealedAt(ps, i) {
      if i >= 1 {
        assert SealedAt(Slots(slots), i - 1);
      }
    }
  }

  /** The registration of a parameter: mandatory, and with a default value. */
  const REGISTER: string := "result &= " + "registrar->" + "parameter("
  const MANDATORY_SLOTS: seq<Slot> :=
    [Slot("PROPNAME", ", \""), Slot("KEY", "\", \""), Slot("HEADLINE", "\", \""), Slot("SHORT_DESC", "\");")]
  const OPTIONAL_SLOTS: seq<Slot> :=
    [Slot("PROPNAME", ", \""), Slot("KEY", "\", \""), Slot("HEADLINE", "\", \""), Slot("SHORT_DESC", "\", "),
     Slot("DEFAULT_VALUE", ", GXF_PARAMETER" + "_FLAGS" + "_OPTIONAL);")]

  /** The method that sets a property at run time, and the one that gets it. */
  function Control(verb: string): string {
    "/**\n    * @brief " + verb + " method for '"
  }

  const SET_SIGNATURE: seq<Slot> :=
    [Slot("PROPNAME", "' ("), Slot("PROPDESC", ") \n" + "    */\n" + "    void set_"), Slot("PROPNAME_US", " ("),
     Slot("PROPTYPE", " ")]
  const SET_BODY: seq<Slot> :=
    [Slot("PROPNAME_US", ") {\n        " + "g_object_set(" + "G_OBJECT(" + "element_), \""), Slot("PROPNAME", "\", "),
     Slot("PROPNAME_US", ", nullptr);" + "\n    }")]
  const GET_SIGNATURE: seq<Slot> :=
    [Slot("PROPNAME", "' ("), Slot("PROPDESC", ") \n" + "    */\n" + "    void get_"), Slot("PROPNAME_US", " ("),
     Slot("PROPTYPE", " *")]
  const GET_BODY: seq<Slot> :=
    [Slot("PROPNAME_US", ") {\n        " + "g_object_get(" + "G_OBJECT(" + "element_), \""), Slot("PROPNAME", "\", "),
     Slot("PROPNAME_US", ", nullptr);" + "\n    }")]

  /** The tokens in the order in which the code replaces them. */
  const MANDATORY_NAMES: seq<string> := ["PROPNAME", "KEY", "SHORT_DESC", "HEADLINE"]
  const OPTIONAL_NAMES: seq<string> := ["PROPNAME", "KEY", "SHORT_DESC", "HEADLINE", "DEFAULT_VALUE"]
  const CONTROL_NAMES: seq<string> := ["PROPNAME_US", "PROPNAME", "PROPDESC", "PROPTYPE"]

  lemma {:induction false} MandatorySlots(i: nat)
    requires i < 4
    ensures |MANDATORY_SLOTS| == 4 && ProperSlot(MANDATORY_SLOTS[i])
    ensures i == 3 ==> MANDATORY_SLOTS[i].token == "SHORT_DESC"
  {
  }

  lemma {:induction false} OptionalSlots(i: nat)
    requires i < 5
    ensures |OPTIONAL_SLOTS| == 5 && ProperSlot(OPTIONAL_SLOTS[i])
    ensures i == 3 ==> OPTIONAL_SLOTS[i].token == "SHORT_DESC"
    ensures i == 2 ==> OPTIONAL_SLOTS[i].token == "HEADLINE"
  {
    assert '<' !in ", GXF_PARAMETER" && '<' !in "_FLAGS" && '<' !in "_OPTIONAL);";
  }

  lemma {:induction false} SetSignature(i: nat)
    requires i < 4
    ensures ProperSlot(SET_SIGNATURE[i])
  {
  }

  lemma {:induction false} SetBody(i: nat)
    requires i < 3
    ensures ProperSlot(SET_BODY[i])
  {
    assert '<' !in ") {\n        " && '<' !in "g_object_set(" && '<' !in "G_OBJECT(" && '<' !in "element_), \"";
    assert '<' !in ", nullptr);" && '<' !in "\n    }";
  }

  lemma {:induction false} GetSignature(i: nat)
    requires i < 4
    ensures ProperSlot(GET_SIGNATURE[i])
  {
  }

  lemma {:induction false} GetBody(i: nat)
    requires i < 3
    ensures ProperSlot(GET_BODY[i])
  {
    assert '<' !in ") {\n        " && '<' !in "g_object_get(" && '<' !in "G_OBJECT(" && '<' !in "element_), \"";
    assert '<' !in ", nullptr);" && '<' !in "\n    }";
  }

  lemma {:induction false} OptionalNames(subs: seq<Sub>)
    requires Fills(subs, OPTIONAL_NAMES)
    ensures TokenNames(subs) && DistinctNames(subs)
  {
  }

  lemma {:induction false} MandatoryNames(subs: seq<Sub>)
    requires Fills(subs, MANDATORY_NAMES)
    ensures TokenNames(subs) && DistinctNames(subs)
  {
  }

  lemma {:induction false} ControlNames(subs: seq<Sub>)
    requires Fills(subs, CONTROL_NAMES)
    ensures TokenNames(subs) && DistinctNames(subs)
  {
  }

  // ---------------------------------------------------------------- what is generated for one parameter

  /** The chain gives the template with every token replaced by its own value. */
  predicate WellFilled(ps: seq<Piece>, subs: seq<Sub>) {
    Chain(Render(ps), subs) == Render(SubstAll(ps, subs))
  }

  function Mandatory(): seq<Piece> { Written(REGISTER, MANDATORY_SLOTS) }
  function Optional(): seq<Piece> { Written(REGISTER, OPTIONAL_SLOTS) }
  function Setter(): seq<Piece> { Written(Control("Set"), SET_SIGNATURE + SET_BODY) }
  function Getter(): seq<Piece> { Written(Control("Get"), GET_SIGNATURE + GET_BODY) }

  lemma {:induction false} StartsPlain()
    ensures '<' !in REGISTER && '<' !in Control("Set") && '<' !in Control("Get")
  {
    assert '<' !in "result &= " && '<' !in "registrar->" && '<' !in "parameter(";
    assert '<' !in "/**\n    * @brief " && '<' !in " method for '";
    assert '<' !in "Set" && '<' !in "Get";
  }

  lemma {:induction false} MandatoryTemplate()
    ensures IsTemplate(Mandatory()) && Token("SHORT_DESC") in Mandatory()
  {
    MandatorySlots(3);
    forall i | 0 <= i < 4 ensures ProperSlot(MANDATORY_SLOTS[i]) { MandatorySlots(i); }
    StartsPlain();
    WrittenIsTemplate(REGISTER, MANDATORY_SLOTS);
  }

  lemma {:induction false} OptionalTemplate()
    ensures IsTemplate(Optional()) && Token("SHORT_DESC") in Optional() && Token("HEADLINE") in Optional()
  {
    forall i | 0 <= i < 5 ensures ProperSlot(OPTIONAL_SLOTS[i]) { OptionalSlots(i); }
    OptionalSlots(2);
    OptionalSlots(3);
    StartsPlain();
    WrittenIsTemplate(REGISTER, OPTIONAL_SLOTS);
  }

  lemma {:induction false} SetterTemplate()
    ensures IsTemplate(Setter()) && Token("PROPDESC") in Setter()
  {
    var slots := SET_SIGNATURE + SET_BODY;
    forall i | 0 <= i < |slots| ensures ProperSlot(slots[i]) {
      if i < 4 { SetSignature(i); } else { SetBody(i - 4); }
    }
    assert slots[1].token == "PROPDESC";
    StartsPlain();
    WrittenIsTemplate(Control("Set"), slots);
  }

  lemma {:induction false} GetterTemplate()
    ensures IsTemplate(Getter()) && Token("PROPDESC") in Getter()
  {
    var slots := GET_SIGNATURE + GET_BODY;
    forall i | 0 <= i < |slots| ensures ProperSlot(slots[i]) {
      if i < 4 { GetSignature(i); } else { GetBody(i - 4); }
    }
    assert slots[1].token == "PROPDESC";
    StartsPlain();
    WrittenIsTemplate(Control("Get"), slots);
  }

  /** A template with its tokens replaced: value, text, value, text. */
  function Filled(slots: seq<Slot>, subs: seq<Sub>): string {
    if slots == [] then "" else Show(Value(slots[0].token, subs)) + (slots[0].after + Filled(slots[1..], subs))
  }

  lemma {:induction false} RenderTwo(p: Piece, q: Piece, rest: seq<Piece>)
    ensures Render([p, q] + rest) == Show(p) + (Show(q) + Render(rest))
  {
    var ps := [p, q] + rest;
    assert ps[1..] == [q] + rest && ([q] + rest)[1..] == rest;
  }

  lemma {:induction false} SubstAllTwo(slot: Slot, rest: seq<Piece>, subs: seq<Sub>)
    ensures SubstAll([Token(slot.token), Text(slot.after)] + rest, subs)
         == [Value(slot.token, subs), Text(slot.after)] + SubstAll(rest, subs)
  {
  }

  lemma {:induction false} SlotsFilled(slots: seq<Slot>, subs: seq<Sub>)
    ensures Render(SubstAll(Slots(slots), subs)) == Filled(slots, subs)
  {
    if slots != [] {
      SlotsFilled(slots[1..], subs);
      SubstAllTwo(slots[0], Slots(slots[1..]), subs);
      RenderTwo(Value(slots[0].token, subs), Text(slots[0].after), SubstAll(Slots(slots[1..]), subs));
    }
  }

  lemma {:induction false} WrittenFilled(start: string, slots: seq<Slot>, subs: seq<Sub>)
    ensures Render(SubstAll(Written(start, slots), subs)) == start + Filled(slots, subs)
  {
    SlotsFilled(slots, subs);
    assert SubstAll(Written(start, slots), subs)[1..] == SubstAll(Slots(slots), subs);
  }

  lemma {:induction false} FilledOne(slot: Slot, rest: seq<Slot>, subs: seq<Sub>)
    ensures Filled([slot] + rest, subs) == Show(Value(slot.token, subs)) + (slot.after + Filled(rest, subs))
  {
    assert ([slot] + rest)[1..] == rest;
  }

  lemma {:induction false} FilledTwo(a: Slot, b: Slot, rest: seq<Slot>, subs: seq<Sub>)
    ensures Filled([a, b] + rest, subs)
         == Show(Value(a.token, subs)) + (a.after + (Show(Value(b.token, subs)) + (b.after + Filled(rest, subs))))
  {
    assert [a, b] + rest == [a] + ([b] + rest);
    FilledOne(a, [b] + rest, subs);
    FilledOne(b, rest, subs);
  }

  lemma {:induction false} FilledThree(a: Slot, b: Slot, c: Slot, rest: seq<Slot>, subs: seq<Sub>)
    ensures Filled([a, b, c] + rest, subs)
         == Show(Value(a.token, subs)) + (a.after + (Show(Value(b.token, subs)) + (b.after
          + (Show(Value(c.token, subs)) + (c.after + Filled(rest, subs))))))
  {
    assert [a, b, c] + rest == [a] + ([b, c] + rest);
    FilledOne(a, [b, c] + rest, subs);
    FilledTwo(b, c, rest, subs);
  }

  lemma {:induction false} FilledFour(a: Slot, b: Slot, c: Slot, d: Slot, rest: seq<Slot>, subs: seq<Sub>)
    ensures Filled([a, b, c, d] + rest, subs)
         == Show(Value(a.token, subs)) + (a.after + (Show(Value(b.token, subs)) + (b.after
          + (Show(Value(c.token, subs)) + (c.after + (Show(Value(d.token, subs)) + (d.after
          + Filled(rest, subs))))))))
  {
    assert [a, b, c, d] + rest == [a] + ([b, c, d] + rest);
    FilledOne(a, [b, c, d] + rest, subs);
    FilledThree(b, c, d, rest, subs);
  }

  /** The tokens of a registration and their values. */
  lemma {:induction false} OptionalValues(name: string, description: string, nick: string, default: string)
    ensures var subs := Values(name, description, nick, default);
      && Fills(subs, OPTIONAL_NAMES)
      && Value("PROPNAME", subs) == Text(name) && Value("KEY", subs) == Text(name)
      && Value("HEADLINE", subs) == Text(nick) && Value("SHORT_DESC", subs) == Text(description)
      && Value("DEFAULT_VALUE", subs) == Text(default)
  {
    var subs := Values(name, description, nick, default);
    OptionalNames(subs);
    var k := TokenLeft("PROPNAME", subs);
    k := TokenLeft("KEY", subs);
    k := TokenLeft("HEADLINE", subs);
    k := TokenLeft("SHORT_DESC", subs);
    k := TokenLeft("DEFAULT_VALUE", subs);
  }

  /** What a well filled registration of a parameter with a default value is. */
  lemma {:induction false} OptionalText(name: string, description: string, nick: string, default: string)
    ensures Render(SubstAll(Optional(), Values(name, description, nick, default))) == REGISTER
      + (name + (", \"" + (name + ("\", \"" + (nick + ("\", \"" + (description + ("\", "
      + (default + (", GXF_PARAMETER" + "_FLAGS" + "_OPTIONAL);" + ""))))))))))
  {
    var subs := Values(name, description, nick, default);
    OptionalValues(name, description, nick, default);
    WrittenFilled(REGISTER, OPTIONAL_SLOTS, subs);
    var s := OPTIONAL_SLOTS;
    assert s == [s[0], s[1], s[2], s[3]] + [s[4]] && [s[4]] == [s[4]] + [];
    FilledFour(s[0], s[1], s[2], s[3], [s[4]], subs);
    FilledOne(s[4], [], subs);
  }

  /** And of a mandatory parameter. */
  lemma {:induction false} MandatoryText(name: string, description: string, nick: string)
    ensures Render(SubstAll(Mandatory(), MandatoryValues(name, description, nick))) == REGISTER
      + (name + (", \"" + (name + ("\", \"" + (nick + ("\", \"" + (description + ("\");" + ""))))))))
  {
    var subs := MandatoryValues(name, description, nick);
    MandatoryTokens(name, description, nick);
    WrittenFilled(REGISTER, MANDATORY_SLOTS, subs);
    var s := MANDATORY_SLOTS;
    assert s == [s[0], s[1], s[2], s[3]] + [];
    FilledFour(s[0], s[1], s[2], s[3], [], subs);
  }

  function MandatoryValues(name: string, description: string, nick: string): seq<Sub> {
    [Sub("PROPNAME", name), Sub("KEY", name), Sub("SHORT_DESC", description), Sub("HEADLINE", nick)]
  }

  lemma {:induction false} MandatoryTokens(name: string, description: string, nick: string)
    ensures var subs := MandatoryValues(name, description, nick);
      && Fills(subs, MANDATORY_NAMES)
      && Value("PROPNAME", subs) == Text(name) && Value("KEY", subs) == Text(name)
      && Value("HEADLINE", subs) == Text(nick) && Value("SHORT_DESC", subs) == Text(description)
  {
    var subs := MandatoryValues(name, description, nick);
    MandatoryNames(subs);
    var k := TokenLeft("PROPNAME", subs);
    k := TokenLeft("KEY", subs);
    k := TokenLeft("HEADLINE", subs);
    k := TokenLeft("SHORT_DESC", subs);
  }

  function ControlValues(us: string, name: string, description: string, kind: string): seq<Sub> {
    [Sub("PROPNAME_US", us), Sub("PROPNAME", name), Sub("PROPDESC", description), Sub("PROPTYPE", kind)]
  }

  lemma {:induction false} ControlTokens(us: string, name: string, description: string, kind: string)
    ensures var subs := ControlValues(us, name, description, kind);
      && Fills(subs, CONTROL_NAMES)
      && Value("PROPNAME_US", subs) == Text(us) && Value("PROPNAME", subs) == Text(name)
      && Value("PROPDESC", subs) == Text(description) && Value("PROPTYPE", subs) == Text(kind)
  {
    var subs := ControlValues(us, name, description, kind);
    ControlNames(subs);
    var k := TokenLeft("PROPNAME_US", subs);
    k := TokenLeft("PROPNAME", subs);
    k := TokenLeft("PROPDESC", subs);
    k := TokenLeft("PROPTYPE", subs);
  }

  /** What a well filled method to set a property is. */
  lemma {:induction false} SetterText(us: string, name: string, description: string, kind: string)
    ensures Render(SubstAll(Setter(), ControlValues(us, name, description, kind))) == Control("Set")
      + (name + ("' (" + (description + (") \n" + "    */\n" + "    void set_" + (us + (" (" + (kind + (" " + (us
      + (") {\n        " + "g_object_set(" + "G_OBJECT(" + "element_), \"" + (name + ("\", " + (us
      + (", nullptr);" + "\n    }" + ""))))))))))))))
  {
    var subs := ControlValues(us, name, description, kind);
    ControlTokens(us, name, description, kind);
    var s, t := SET_SIGNATURE, SET_BODY;
    WrittenFilled(Control("Set"), s + t, subs);
    assert s == [s[0], s[1], s[2], s[3]] && t == [t[0], t[1], t[2]] && t == t + [];
    FilledFour(s[0], s[1], s[2], s[3], t, subs);
    FilledThree(t[0], t[1], t[2], [], subs);
  }

  /** What a well filled method to get a property is. */
  lemma {:induction false} GetterText(us: string, name: string, description: string, kind: string)
    ensures Render(SubstAll(Getter(), ControlValues(us, name, description, kind))) == Control("Get")
      + (name + ("' (" + (description + (") \n" + "    */\n" + "    void get_" + (us + (" (" + (kind + (" *" + (us
      + (") {\n        " + "g_object_get(" + "G_OBJECT(" + "element_), \"" + (name + ("\", " + (us
      + (", nullptr);" + "\n    }" + ""))))))))))))))
  {
    var subs := ControlValues(us, name, description, kind);
    ControlTokens(us, name, description, kind);
    var s, t := GET_SIGNATURE, GET_BODY;
    WrittenFilled(Control("Get"), s + t, subs);
    assert s == [s[0], s[1], s[2], s[3]] && t == [t[0], t[1], t[2]] && t == t + [];
    FilledFour(s[0], s[1], s[2], s[3], t, subs);
    FilledThree(t[0], t[1], t[2], [], subs);
  }

  predicate Holds(s: string, name: string) {
    Occurs(s, Marker(name))
  }

  /** With a default value, the description is followed by the replacements of HEADLINE and
      DEFAULT_VALUE. When these stand for plain text, the registration is well filled exactly when the
      description holds neither token. */
  lemma {:induction false} DescriptionExact(subs: seq<Sub>)
    requires Fills(subs, OPTIONAL_NAMES)
    requires forall i :: 0 <= i < 5 && i != 2 ==> '<' !in subs[i].value
    ensures WellFilled(Optional(), subs)
      <==> !Holds(subs[2].value, "HEADLINE") && !Holds(subs[2].value, "DEFAULT_VALUE")
  {
    OptionalTemplate();
    OptionalNames(subs);
    TwoFollow(Optional(), subs, 2);
  }

  lemma {:induction false} TwoFollow(ps: seq<Piece>, subs: seq<Sub>, k: nat)
    requires IsTemplate(ps) && TokenNames(subs) && DistinctNames(subs)
    requires |subs| == k + 3 && Token(subs[k].name) in ps
    requires forall i :: 0 <= i < |subs| && i != k ==> '<' !in subs[i].value
    ensures WellFilled(ps, subs)
      <==> !Holds(subs[k].value, subs[k + 1].name) && !Holds(subs[k].value, subs[k + 2].name)
  {
    FilledExactly(ps, subs, k);
    TwoTokens(subs[k].value, subs[k + 1..]);
  }

  lemma {:induction false} TwoTokens(s: string, subs: seq<Sub>)
    requires |subs| == 2
    ensures HoldsNone(s, subs) <==> !Holds(s, subs[0].name) && !Holds(s, subs[1].name)
  {
  }

  /** When the description holds neither token, the rest is exact for every nick and every default value:
      only a nick that holds the default's token is rewritten. */
  lemma {:induction false} NickExact(subs: seq<Sub>)
    requires Fills(subs, OPTIONAL_NAMES) && '<' !in subs[0].value && '<' !in subs[1].value
    requires !Holds(subs[2].value, "HEADLINE") && !Holds(subs[2].value, "DEFAULT_VALUE")
    ensures WellFilled(Optional(), subs)
      <==> !Holds(subs[3].value, "DEFAULT_VALUE") || subs[4].value == Marker("DEFAULT_VALUE")
  {
    OptionalTemplate();
    OptionalNames(subs);
    forall i | 0 <= i < 3 ensures HoldsNone(subs[i].value, subs[i + 1..]) {
      if i < 2 { PlainHoldsNone(subs[i].value, subs[i + 1..]); }
    }
    FilledBeforeLast(Optional(), subs);
  }

  /** A mandatory parameter, for every description and every nick. */
  lemma {:induction false} MandatoryExact(subs: seq<Sub>)
    requires Fills(subs, MANDATORY_NAMES) && '<' !in subs[0].value && '<' !in subs[1].value
    ensures WellFilled(Mandatory(), subs)
      <==> !Holds(subs[2].value, "HEADLINE") || subs[3].value == Marker("HEADLINE")
  {
    MandatoryTemplate();
    MandatoryNames(subs);
    forall i | 0 <= i < 2 ensures HoldsNone(subs[i].value, subs[i + 1..]) {
      PlainHoldsNone(subs[i].value, subs[i + 1..]);
    }
    FilledBeforeLast(Mandatory(), subs);
  }

  /** The methods for control at run time, for every description: PROPTYPE is replaced after it. */
  lemma {:induction false} ControlExact(subs: seq<Sub>)
    requires Fills(subs, CONTROL_NAMES) && '<' !in subs[0].value && '<' !in subs[1].value
    ensures WellFilled(Setter(), subs)
      <==> !Holds(subs[2].value, "PROPTYPE") || subs[3].value == Marker("PROPTYPE")
    ensures WellFilled(Getter(), subs) <==> WellFilled(Setter(), subs)
  {
    SetterTemplate();
    GetterTemplate();
    ControlNames(subs);
    forall i | 0 <= i < 2 ensures HoldsNone(subs[i].value, subs[i + 1..]) {
      PlainHoldsNone(subs[i].value, subs[i + 1..]);
    }
    FilledBeforeLast(Setter(), subs);
    FilledBeforeLast(Getter(), subs);
  }

  lemma {:induction false} PlainHoldsNone(s: string, subs: seq<Sub>)
    requires '<' !in s
    ensures HoldsNone(s, subs)
  {
    forall j | 0 <= j < |subs| ensures !Occurs(s, Marker(subs[j].name)) {
      PlainHolds(s, Marker(subs[j].name));
    }
  }

  lemma {:induction false} PlainHolds(s: string, m: string)
    requires '<' !in s && m != "" && m[0] == '<'
    ensures !Occurs(s, m)
    decreases |s|
  {
    if |s| >= |m| {
      PlainHolds(s[1..], m);
    }
  }

  // ---------------------------------------------------------------- two descriptions

  lemma {:induction false} OccursWithin(a: string, m: string, b: string)
    ensures Occurs(a + m + b, m)
  {
    if a == "" {
      assert a + m + b == m + b;
    } else {
      OccursWithin(a[1..], m, b);
      assert (a + m + b)[1..] == a[1..] + m + b;
    }
  }

  function Values(name: string, description: string, nick: string, default: string): seq<Sub> {
    [Sub("PROPNAME", name), Sub("KEY", name), Sub("SHORT_DESC", description), Sub("HEADLINE", nick),
     Sub("DEFAULT_VALUE", default)]
  }

  /** A description that is rewritten. */
  lemma {:induction false} DescriptionRewritten()
    ensures !WellFilled(Optional(), Values("mode", "see " + Marker("HEADLINE") + ".", "Mode", "0"))
  {
    var subs := Values("mode", "see " + Marker("HEADLINE") + ".", "Mode", "0");
    OccursWithin("see ", Marker("HEADLINE"), ".");
    DescriptionExact(subs);
  }

  /** Plain text for the default is needed: this description holds a token, and is restored by a default
      value of the same text. */
  lemma {:induction false} DescriptionRestored()
    ensures var odd := "<DEFAULT_" + Marker("HEADLINE") + ">";
      Holds(odd, "HEADLINE") && WellFilled(Optional(), Values("mode", odd, "VALUE", odd))
  {
    var odd := "<DEFAULT_" + Marker("HEADLINE") + ">";
    OccursWithin("<DEFAULT_", Marker("HEADLINE"), ">");
    OddReplaced();
    Restored(Values("mode", odd, "VALUE", odd));
  }

  /** A default value whose token the nick completes within the description. */
  lemma {:induction false} Restored(subs: seq<Sub>)
    requires Fills(subs, OPTIONAL_NAMES)
    requires forall i :: 0 <= i < 4 && i != 2 ==> '<' !in subs[i].value
    requires Replace(subs[2].value, Marker("HEADLINE"), subs[3].value) == Marker("DEFAULT_VALUE")
    requires subs[4].value == subs[2].value
    ensures WellFilled(Optional(), subs)
  {
    OptionalTemplate();
    OptionalNames(subs);
    forall i | 0 <= i < 5 && i != 2 ensures Survives(subs, i) {
      if i < 4 { PlainChain(subs[i].value, subs[i + 1..]); }
    }
    OneInDoubt(Optional(), subs, 2);
    TwoReplacements(subs[2].value, subs[3..]);
    ReplaceMarker("", "DEFAULT_VALUE", subs[4].value);
    assert Marker("DEFAULT_VALUE") + "" == Marker("DEFAULT_VALUE") && subs[4].value + "" == subs[4].value;
  }

  lemma {:induction false} TwoReplacements(s: string, subs: seq<Sub>)
    requires |subs| == 2
    ensures Chain(s, subs)
         == Replace(Replace(s, Marker(subs[0].name), subs[0].value), Marker(subs[1].name), subs[1].value)
  {
    var rest := subs[1..];
    assert rest[0] == subs[1] && rest[1..] == [];
    var once := Replace(s, Marker(subs[0].name), subs[0].value);
    assert Chain(once, rest) == Chain(Replace(once, Marker(rest[0].name), rest[0].value), rest[1..]);
  }

  lemma {:induction false} OddReplaced()
    ensures Replace("<DEFAULT_" + Marker("HEADLINE") + ">", Marker("HEADLINE"), "VALUE") == Marker("DEFAULT_VALUE")
  {
    var m := Marker("HEADLINE");
    OddInert();
    ReplaceAfterInert("<DEFAULT_", m + ">", "HEADLINE", "VALUE");
    ReplaceMarker(">", "HEADLINE", "VALUE");
    assert "<DEFAULT_" + m + ">" == "<DEFAULT_" + (m + ">");
    assert Replace(">", m, "VALUE") == ">";
  }

  lemma {:induction false} OddInert()
    ensures Inert("<DEFAULT_", "HEADLINE")
  {
    var t := "<DEFAULT_";
    forall i | 0 <= i < |t| ensures !Compatible(t[i..], Marker("HEADLINE")) {
      assert t[i..][0] == t[i];
      if i == 0 {
        assert t[0..][1] == 'D' && Marker("HEADLINE")[1] == 'H';
      }
    }
  }
}
