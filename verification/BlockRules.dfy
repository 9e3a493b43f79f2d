/** What the second pass does with a block, by the kind of the block: when it is accepted, which tensors its
    layer function gets, and which weights it takes. */
module BlockRules {
  import opened Wrappers
  import opened Text
  import opened Numbers
  import opened CfgParser
  import opened YoloTypes
  import opened HeadScan
  import opened NetworkBuilder
  import opened LayerNumbers

  // ---------------------------------------------------------------- kinds

  lemma {:induction false} NamesOfSettings(b: Block)
    ensures HasKind(b, Net) <==> "type" in b && b["type"] == "net"
    ensures HasKind(b, Dropout) <==> "type" in b && b["type"] == "dropout"
    ensures HasKind(b, Head) <==> "type" in b && b["type"] in {"yolo", "region"}
  {
  }

  lemma {:induction false} NamesOfConvolutions(b: Block)
    ensures HasKind(b, Conv) <==> "type" in b && b["type"] in {"conv", "convolutional"}
    ensures HasKind(b, Deconv) <==> "type" in b && b["type"] in {"deconv", "deconvolutional"}
  {
  }

  lemma {:induction false} NamesOfWeighted(b: Block)
    ensures HasKind(b, BatchNorm) <==> "type" in b && b["type"] == "batchnorm"
    ensures HasKind(b, Implicit) <==> "type" in b && b["type"] in {"implicit", "implicit_add", "implicit_mul"}
  {
  }

  lemma {:induction false} NamesOfJoins(b: Block)
    ensures HasKind(b, Channels) <==> "type" in b && b["type"] in {"shift_channels", "control_channels"}
    ensures HasKind(b, Shortcut) <==> "type" in b && b["type"] == "shortcut"
    ensures HasKind(b, Sam) <==> "type" in b && b["type"] == "sam"
    ensures HasKind(b, Route) <==> "type" in b && b["type"] == "route"
  {
  }

  lemma {:induction false} NamesOfResizes(b: Block)
    ensures HasKind(b, Upsample) <==> "type" in b && b["type"] == "upsample"
    ensures HasKind(b, Pool) <==> "type" in b && b["type"] in {"max", "maxpool", "avg", "avgpool"}
    ensures HasKind(b, Reorg) <==> "type" in b && b["type"] in {"reorg", "reorg3d"}
  {
  }

  /** The kinds whose layer function gets the current tensor, and those that take weights. */
  predicate TakesCurrent(b: Block) {
    || HasKind(b, Conv) || HasKind(b, Deconv) || HasKind(b, BatchNorm)
    || HasKind(b, Upsample) || HasKind(b, Pool) || HasKind(b, Reorg)
  }

  predicate TakesWeights(b: Block) {
    HasKind(b, Conv) || HasKind(b, Deconv) || HasKind(b, BatchNorm) || HasKind(b, Implicit)
  }

  predicate Skips(b: Block) {
    HasKind(b, Channels) || HasKind(b, Shortcut) || HasKind(b, Sam)
  }

  // ---------------------------------------------------------------- ranks

  predicate RanksHold(s: Build) {
    s.previous.nbDims >= 1 && forall t :: 0 <= t < |s.outs| ==> s.outs[t].nbDims >= 1
  }

  /** No tensor of a build has rank zero, so the asserts on ranks never fail. */
  lemma {:induction false} RanksAlwaysHold(p: Source, n: nat)
    requires p.Accepts(n) && p.data.nbDims >= 1
    ensures RanksHold(p.Run(n).value)
  {
    if n > 0 {
      AcceptsLess(p, n - 1, n);
      RanksAlwaysHold(p, n - 1);
    }
  }

  predicate IsCurrent(t: Tensor, data: Tensor, calls: seq<Call>) {
    t == if calls == [] then data else calls[|calls| - 1].output
  }

  lemma {:induction false} StepCurrent(p: Source, n: nat)
    requires p.Accepts(n) && p.Accepts(n + 1)
    requires IsCurrent(p.Run(n).value.previous, p.data, p.Run(n).value.network)
    ensures IsCurrent(p.Run(n + 1).value.previous, p.data, p.Run(n + 1).value.network)
  {
  }

  /** The current tensor is the output of the last call, or the input of the network. */
  lemma {:induction false} CurrentIsLastOutput(p: Source, n: nat)
    requires p.Accepts(n)
    ensures IsCurrent(p.Run(n).value.previous, p.data, p.Run(n).value.network)
  {
    if n > 0 {
      AcceptsLess(p, n - 1, n);
      CurrentIsLastOutput(p, n - 1);
      StepCurrent(p, n - 1);
    }
  }

  // ---------------------------------------------------------------- accepted blocks

  /** Block i has called its layer function on these tensors, and its output is the current tensor and
      the next of the tensors. */
  predicate Called(p: Source, i: nat, inputs: seq<Tensor>, takes: bool) {
    && p.Accepts(i) && p.Accepts(i + 1)
    && var s, s' := p.Run(i).value, p.Run(i + 1).value;
       && p.layer(i, inputs).output == Some(s'.previous) && s'.outs == s.outs + [s'.previous]
       && s'.network == s.network + [Call(i, inputs, s'.previous)]
       && s'.heads == s.heads && s'.headInputs == s.headInputs
       && s'.weightPtr == s.weightPtr + if takes then p.layer(i, inputs).used else 0
  }

  lemma {:induction false} InstrOfCurrent(b: Block, i: nat)
    requires TakesCurrent(b) && Decode(b, i).Ok?
    ensures Decode(b, i).value == Unary(TakesWeights(b), HasKind(b, Conv) || HasKind(b, Deconv))
  {
  }

  lemma {:induction false} InstrOfSkip(b: Block, i: nat)
    requires Skips(b) && Decode(b, i).Ok?
    ensures "from" in b && Stoi(b["from"]) == Some(Decode(b, i).value.from)
    ensures Decode(b, i).value == Skip(Decode(b, i).value.from, HasKind(b, Shortcut))
  {
  }

  /** A layer that takes the current tensor. */
  lemma {:induction false} CurrentMeans(p: Source, blocks: seq<Block>, i: nat)
    requires p.code == DecodeAll(blocks) && p.Accepts(i + 1) && TakesCurrent(blocks[i])
    ensures p.Accepts(i) && Called(p, i, [p.Run(i).value.previous], TakesWeights(blocks[i]))
  {
    AcceptsLess(p, i, i + 1);
    DecodeAllAt(blocks, i);
    InstrOfCurrent(blocks[i], i);
  }

  /** A layer that takes weights only. */
  lemma {:induction false} ConstantMeans(p: Source, blocks: seq<Block>, i: nat)
    requires p.code == DecodeAll(blocks) && p.Accepts(i + 1) && HasKind(blocks[i], Implicit)
    ensures Called(p, i, [], true)
  {
    AcceptsLess(p, i, i + 1);
    DecodeAllAt(blocks, i);
    assert Decode(blocks[i], i) == Ok(Constant);
  }

  /** A layer that takes the current tensor and the one that "from" counts to. */
  lemma {:induction false} JoinMeans(p: Source, blocks: seq<Block>, i: nat) returns (t: nat)
    requires p.code == DecodeAll(blocks) && p.Accepts(i + 1) && Skips(blocks[i])
    ensures p.Accepts(i) && "from" in blocks[i] && Stoi(blocks[i]["from"]).Some?
    ensures t == TrueTarget(i, Stoi(blocks[i]["from"]).value) < |p.Run(i).value.outs|
    ensures Called(p, i, [p.Run(i).value.previous, p.Run(i).value.outs[t]], false)
  {
    AcceptsLess(p, i, i + 1);
    DecodeAllAt(blocks, i);
    InstrOfSkip(blocks[i], i);
    var call := SkipStep(p, i);
    SkipAccepted(p, i);
    t := TargetOf(p.code, i);
  }

  /** Net and dropout change nothing. */
  lemma {:induction false} SilentMeans(p: Source, blocks: seq<Block>, i: nat)
    requires p.code == DecodeAll(blocks) && p.Accepts(i + 1)
    requires HasKind(blocks[i], Net) || HasKind(blocks[i], Dropout)
    ensures p.Accepts(i) && p.Run(i + 1) == p.Run(i)
  {
    AcceptsLess(p, i, i + 1);
    DecodeAllAt(blocks, i);
    DecodeKinds(blocks[i], i);
  }

  /** A head records the current tensor, which stays current and is the next of the tensors. */
  lemma {:induction false} HeadMeans(p: Source, blocks: seq<Block>, i: nat)
    requires p.code == DecodeAll(blocks) && p.Accepts(i + 1) && HasKind(blocks[i], Head)
    ensures p.Accepts(i)
    ensures var s, s' := p.Run(i).value, p.Run(i + 1).value;
      && s'.headInputs == s.headInputs + [s.previous] && s'.outs == s.outs + [s.previous]
      && s'.previous == s.previous && s'.network == s.network && s'.weightPtr == s.weightPtr
  {
    AcceptsLess(p, i, i + 1);
    DecodeAllAt(blocks, i);
    DecodeKinds(blocks[i], i);
  }

  // ---------------------------------------------------------------- when a block is accepted

  /** The layer function makes a tensor of these. */
  predicate Makes(p: Source, i: nat, inputs: seq<Tensor>) {
    p.layer(i, inputs).output.Some? && p.layer(i, inputs).output.value.nbDims >= 1
  }

  lemma {:induction false} CurrentDecodes(b: Block, i: nat)
    requires TakesCurrent(b)
    ensures Decode(b, i).Ok? <==> (HasKind(b, Conv) || HasKind(b, BatchNorm) ==> "activation" in b)
  {
  }

  /** A layer on the current tensor needs its activation, four dimensions for a (de)convolution, and an
      output. */
  lemma {:induction false} CurrentAccepted(p: Source, blocks: seq<Block>, i: nat)
    requires p.code == DecodeAll(blocks) && i < |blocks| && p.Accepts(i) && p.data.nbDims >= 1
    requires TakesCurrent(blocks[i])
    ensures var b, current := blocks[i], p.Run(i).value.previous;
      p.Accepts(i + 1) <==>
        && (HasKind(b, Conv) || HasKind(b, BatchNorm) ==> "activation" in b)
        && (HasKind(b, Conv) || HasKind(b, Deconv) ==> current.nbDims == 4)
        && Makes(p, i, [current])
  {
    DecodeAllAt(blocks, i);
    RanksAlwaysHold(p, i);
    CurrentDecodes(blocks[i], i);
    if Decode(blocks[i], i).Ok? { InstrOfCurrent(blocks[i], i); }
  }

  lemma {:induction false} ConstantAccepted(p: Source, blocks: seq<Block>, i: nat)
    requires p.code == DecodeAll(blocks) && i < |blocks| && p.Accepts(i) && HasKind(blocks[i], Implicit)
    ensures p.Accepts(i + 1) <==> Makes(p, i, [])
  {
    DecodeAllAt(blocks, i);
    assert Decode(blocks[i], i) == Ok(Constant);
  }

  /** Net and dropout are always accepted, and a block of an unknown type never. */
  lemma {:induction false} SilentAccepted(p: Source, blocks: seq<Block>, i: nat)
    requires p.code == DecodeAll(blocks) && i < |blocks| && p.Accepts(i)
    ensures HasKind(blocks[i], Net) || HasKind(blocks[i], Dropout) ==> p.Accepts(i + 1)
    ensures "type" !in blocks[i] || HasKind(blocks[i], Unsupported) ==> !p.Accepts(i + 1)
  {
    DecodeAllAt(blocks, i);
    DecodeKinds(blocks[i], i);
  }

  lemma {:induction false} HeadAccepted(p: Source, blocks: seq<Block>, i: nat)
    requires p.code == DecodeAll(blocks) && i < |blocks| && p.Accepts(i) && p.data.nbDims >= 1
    requires HasKind(blocks[i], Head)
    ensures var s := p.Run(i).value;
      p.Accepts(i + 1) <==> |s.headInputs| < |s.heads| && |s.headInputs| < p.slots
  {
    DecodeAllAt(blocks, i);
    DecodeKinds(blocks[i], i);
    RanksAlwaysHold(p, i);
  }

  lemma {:induction false} SkipDecodes(b: Block, i: nat)
    requires Skips(b)
    ensures Decode(b, i).Ok? <==> "from" in b && Stoi(b["from"]).Some?
  {
  }

  /** A skip connection needs a number under "from", a reachable target, and an output. */
  lemma {:induction false} JoinAccepted(p: Source, blocks: seq<Block>, i: nat)
    requires p.code == DecodeAll(blocks) && i < |blocks| && p.Accepts(i) && p.data.nbDims >= 1
    requires Skips(blocks[i])
    ensures p.Accepts(i + 1) <==>
      && "from" in blocks[i] && Stoi(blocks[i]["from"]).Some?
      && var s, t := p.Run(i).value, TrueTarget(i, Stoi(blocks[i]["from"]).value);
         && 0 <= t < i - 2 < |s.outs| && Makes(p, i, [s.previous, s.outs[t]])
  {
    DecodeAllAt(blocks, i);
    SkipDecodes(blocks[i], i);
    RanksAlwaysHold(p, i);
    if p.code[i].Ok? {
      InstrOfSkip(blocks[i], i);
      TensorCount(p, i);
      SkipTargetExact(i, p.code[i].value.from, |p.Run(i).value.outs|);
    }
  }

  // ---------------------------------------------------------------- routes

  function ShowInts(vs: seq<Int32>): (ps: seq<string>)
    ensures |ps| == |vs| && forall i :: 0 <= i < |vs| ==> ps[i] == ShowInt(vs[i])
  {
    seq(|vs|, i requires 0 <= i < |vs| => ShowInt(vs[i]))
  }

  lemma {:induction false} IntText(v: Int32)
    ensures ',' !in ShowInt(v) && Trim(ShowInt(v)) == ShowInt(v) != "" && Stoi(Trim(ShowInt(v))) == Some(v)
  {
    var s := ShowInt(v);
    StoiShow(v);
    TrimIdle(s);
  }

  lemma {:induction false} IntsRead(vs: seq<Int32>)
    ensures AllLack(ShowInts(vs), ',') && ReadAll(ShowInts(vs), Stoi) == Some(vs)
  {
    forall i | 0 <= i < |vs| ensures ',' !in ShowInt(vs[i]) && Stoi(Trim(ShowInts(vs)[i])) == Some(vs[i]) {
      IntText(vs[i]);
    }
    ReadAllExactly(ShowInts(vs), Stoi);
    assert ReadAll(ShowInts(vs), Stoi).value == vs;
  }

  lemma {:induction false} PiecesTail(ps: seq<string>, tail: string, sep: char)
    requires AllLack(ps, sep) && sep !in tail
    ensures Pieces(Terminated(ps, sep) + tail, sep) == ps + if tail == "" then [] else [tail]
  {
    if ps == [] {
      assert "" + tail == tail;
      PiecesOne(tail, sep);
    } else {
      PiecesTail(ps[1..], tail, sep);
      assert Terminated(ps, sep) + tail == ps[0] + [sep] + (Terminated(ps[1..], sep) + tail);
      PiecesCons(ps[0], sep, Terminated(ps[1..], sep) + tail);
      assert ps == [ps[0]] + ps[1..];
    }
  }

  /** "layers" as someone may write it: indices with commas between them, or after each of them with blanks
      behind the last comma. */
  predicate Lists(text: string, vs: seq<Int32>, blanks: string) {
    text == Text.Join(ShowInts(vs), ',') || text == Terminated(ShowInts(vs), ',') + blanks
  }

  lemma {:induction false} RoutePiecesRead(text: string, vs: seq<Int32>, blanks: string)
    requires vs != [] && AllSpace(blanks) && Lists(text, vs, blanks)
    ensures RoutePieces(text) == ShowInts(vs)
  {
    var ps := ShowInts(vs);
    IntsRead(vs);
    IntText(vs[|vs| - 1]);
    if text == Text.Join(ps, ',') {
      PiecesOfJoin(ps, ',');
    } else {
      PiecesTail(ps, blanks, ',');
      TerminatedEnds(ps, blanks, ',');
      BlankTrims(blanks);
    }
  }

  /** A written route is read back, grouped exactly when it has "groups". */
  lemma {:induction false} RouteRoundTrip(b: Block, vs: seq<Int32>, blanks: string, i: nat)
    requires HasKind(b, Route) && "layers" in b && vs != [] && AllSpace(blanks) && Lists(b["layers"], vs, blanks)
    ensures Decode(b, i) == Ok(NetworkBuilder.Join(vs, "groups" in b))
  {
    RoutePiecesRead(b["layers"], vs, blanks);
    IntsRead(vs);
  }

  lemma {:induction false} BlankTrims(s: string)
    requires AllSpace(s)
    ensures Trim(s) == ""
  {
    TrimUnique(s, "", "");
    assert s + "" + "" == s;
  }

  lemma {:induction false} TerminatedEnds(ps: seq<string>, tail: string, sep: char)
    requires ps != []
    ensures var s := Terminated(ps, sep) + tail;
      s != "" && s[|s| - 1] == if tail == "" then sep else tail[|tail| - 1]
  {
    if |ps| > 1 {
      TerminatedEnds(ps[1..], tail, sep);
    }
  }

  /** A route needs "layers" with at least one index, and every one an int. */
  lemma {:induction false} RouteDecodes(b: Block, i: nat)
    requires HasKind(b, Route)
    ensures Decode(b, i).Ok? <==>
      && "layers" in b
      && var ps := RoutePieces(b["layers"]);
         ps != [] && forall k :: 0 <= k < |ps| ==> Stoi(Trim(ps[k])).Some?
  {
    if "layers" in b {
      var ps := RoutePieces(b["layers"]);
      ReadAllExactly(ps, Stoi);
    }
  }

  /** A route is accepted exactly when its indices are read, resolve to tensors, and are joined by its layer
      function, which is not needed for a single one without groups. */
  lemma {:induction false} RouteAccepted(p: Source, blocks: seq<Block>, i: nat, vs: seq<Int32>)
    requires p.code == DecodeAll(blocks) && i < |blocks| && p.Accepts(i) && p.data.nbDims >= 1
    requires HasKind(blocks[i], Route) && p.code[i] == Ok(NetworkBuilder.Join(vs, "groups" in blocks[i]))
    ensures var outs := p.Run(i).value.outs;
      p.Accepts(i + 1) <==>
        && (forall k :: 0 <= k < |vs| ==> RouteTarget(vs[k], |outs|).Some?)
        && ((|vs| == 1 && "groups" !in blocks[i]) || Makes(p, i, Routed(vs, outs)))
  {
    RanksAlwaysHold(p, i);
    var outs := p.Run(i).value.outs;
    var r := ResolveRoute(vs, |outs|);
    if r.Some? {
      assert Routed(vs, outs) == Select(outs, r.value);
    }
  }

  /** The tensors that the indices resolve to. */
  function Routed(vs: seq<Int32>, outs: seq<Tensor>): (ts: seq<Tensor>)
    ensures |ts| == |vs|
  {
    seq(|vs|, k requires 0 <= k < |vs| =>
      var t := RouteTarget(vs[k], |outs|);
      if t.Some? && t.value < |outs| then outs[t.value] else Tensor(0, 0, 0, 0))
  }
}
