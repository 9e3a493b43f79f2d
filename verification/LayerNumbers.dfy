/** What the tensors of a build are: layer numbers, skip connections and routes. */
module LayerNumbers {
  import opened Wrappers
  import opened NetworkBuilder

  lemma {:induction false} AcceptsLess(p: Source, k: nat, n: nat)
    requires k <= n && p.Accepts(n)
    ensures p.Accepts(k)
  {
    if p.Run(k).Err? {
      RunStops(p, k, n);
    }
  }

  type Code = seq<Result<Instr>>

  predicate IsNet(r: Result<Instr>) {
    r == Ok(Settings)
  }

  predicate IsDropout(r: Result<Instr>) {
    r == Ok(Idle)
  }

  /** A block that pushes no tensor. */
  predicate Silent(r: Result<Instr>) {
    IsNet(r) || IsDropout(r)
  }

  /** The blocks below n that push a tensor, in order. */
  function Producers(code: Code, n: nat): (r: seq<nat>)
    requires n <= |code|
    ensures forall t :: 0 <= t < |r| ==> r[t] < n && !Silent(code[r[t]])
    ensures |r| <= n
  {
    if n == 0 then [] else Producers(code, n - 1) + if Silent(code[n - 1]) then [] else [n - 1]
  }

  function NetCount(code: Code, n: nat): (r: nat)
    requires n <= |code|
    ensures r <= n
  {
    if n == 0 then 0 else NetCount(code, n - 1) + if IsNet(code[n - 1]) then 1 else 0
  }

  function DropoutCount(code: Code, n: nat): (r: nat)
    requires n <= |code|
    ensures NetCount(code, n) + r <= n
  {
    if n == 0 then 0 else DropoutCount(code, n - 1) + if IsDropout(code[n - 1]) then 1 else 0
  }

  /** The number of net and dropout blocks below n. */
  function SilentCount(code: Code, n: nat): (r: nat)
    requires n <= |code|
    ensures r <= n
  {
    NetCount(code, n) + DropoutCount(code, n)
  }

  /** What a block does to the tensors: nothing, or it pushes the tensor it leaves behind. */
  predicate Pushes(b: Result<Instr>, s: Build, s': Build) {
    if Silent(b) then s' == s else s'.outs == s.outs + [s'.previous]
  }

  /** The states of an accepted build: before the first block, and after each block. */
  function States(p: Source, n: nat): (ss: seq<Build>)
    requires p.Accepts(n)
    ensures |ss| == n + 1
    ensures forall j :: 0 <= j <= n ==> p.Accepts(j) && ss[j] == p.Run(j).value
  {
    assert forall j :: 0 <= j <= n ==> p.Accepts(j) by {
      forall j | 0 <= j <= n ensures p.Accepts(j) { AcceptsLess(p, j, n); }
    }
    seq(n + 1, j requires 0 <= j <= n && p.Accepts(j) => p.Run(j).value)
  }

  lemma {:induction false} StepPushes(p: Source, n: nat)
    requires p.Accepts(n + 1) && p.Accepts(n)
    ensures Pushes(p.code[n], p.Run(n).value, p.Run(n + 1).value)
  {
  }

  predicate AllSteps(code: Code, ss: seq<Build>) {
    && 1 <= |ss| <= |code| + 1 && ss[0].outs == []
    && forall j :: 0 <= j < |ss| - 1 ==> Pushes(code[j], ss[j], ss[j + 1])
  }

  lemma {:induction false} StatesStep(p: Source, n: nat)
    requires p.Accepts(n)
    ensures AllSteps(p.code, States(p, n))
  {
    var ss := States(p, n);
    forall j | 0 <= j < n ensures Pushes(p.code[j], ss[j], ss[j + 1]) {
      StepPushes(p, j);
    }
  }

  lemma {:induction false} TensorsOfStates(code: Code, ss: seq<Build>)
    requires AllSteps(code, ss)
    ensures var outs, ps := ss[|ss| - 1].outs, Producers(code, |ss| - 1);
      |outs| == |ps| && forall t :: 0 <= t < |ps| ==> outs[t] == ss[ps[t] + 1].previous
  {
    var n := |ss| - 1;
    if n > 0 {
      TensorsOfStates(code, ss[..n]);
      assert Pushes(code[n - 1], ss[n - 1], ss[n]);
    }
  }

  /** Tensor t is the output of block b: what b leaves behind as the input of the next block. */
  predicate MadeBy(p: Source, t: Tensor, b: nat) {
    p.Accepts(b + 1) && t == p.Run(b + 1).value.previous
  }

  /** Before block n, the tensors are the outputs of the blocks that push one, in order. */
  lemma {:induction false} OutputsAre(p: Source, n: nat)
    requires p.Accepts(n)
    ensures |p.Run(n).value.outs| == |Producers(p.code, n)|
    ensures forall t :: 0 <= t < |Producers(p.code, n)| ==>
      MadeBy(p, p.Run(n).value.outs[t], Producers(p.code, n)[t])
  {
    var ss, ps := States(p, n), Producers(p.code, n);
    StatesStep(p, n);
    TensorsOfStates(p.code, ss);
    assert ss[n] == p.Run(n).value;
    forall t | 0 <= t < |ps| ensures MadeBy(p, p.Run(n).value.outs[t], ps[t]) {
      assert ss[ps[t] + 1] == p.Run(ps[t] + 1).value;
    }
  }

  lemma {:induction false} ProducerCount(code: Code, n: nat)
    requires n <= |code|
    ensures |Producers(code, n)| == n - SilentCount(code, n)
  {
    if n > 0 {
      ProducerCount(code, n - 1);
    }
  }

  /** Layer numbering: one tensor for each earlier block that is not net or dropout. */
  lemma {:induction false} TensorCount(p: Source, n: nat)
    requires p.Accepts(n)
    ensures |p.Run(n).value.outs| == n - SilentCount(p.code, n)
  {
    OutputsAre(p, n);
    ProducerCount(p.code, n);
  }

  // ---------------------------------------------------------------- layer numbers

  /** The number of block b as a layer: net blocks are not layers, dropout blocks are. */
  function LayerNumber(code: Code, b: nat): nat
    requires b <= |code|
  {
    b - NetCount(code, b)
  }

  lemma {:induction false} LayerNumberGrows(code: Code, b: nat, b': nat)
    requires b < b' <= |code|
    ensures LayerNumber(code, b) <= LayerNumber(code, b')
    ensures !IsNet(code[b]) ==> LayerNumber(code, b) < LayerNumber(code, b')
  {
    if b < b' - 1 {
      LayerNumberGrows(code, b, b' - 1);
    }
  }

  /** A layer number belongs to one block. */
  lemma {:induction false} LayerUnique(code: Code, b: nat, b': nat)
    requires b < |code| && b' < |code| && !IsNet(code[b]) && !IsNet(code[b'])
    requires LayerNumber(code, b) == LayerNumber(code, b')
    ensures b == b'
  {
    if b < b' {
      LayerNumberGrows(code, b, b');
    } else if b' < b {
      LayerNumberGrows(code, b', b);
    }
  }

  lemma {:induction false} ProducersGrow(code: Code, k: nat, n: nat)
    requires k <= n <= |code|
    ensures Producers(code, k) <= Producers(code, n)
  {
    if k < n {
      ProducersGrow(code, k, n - 1);
    }
  }

  /** Tensor t has t blocks that push before its own. */
  lemma {:induction false} ProducerRank(code: Code, n: nat, t: nat)
    requires n <= |code| && t < |Producers(code, n)|
    ensures |Producers(code, Producers(code, n)[t])| == t
  {
    if t < |Producers(code, n - 1)| {
      ProducerRank(code, n - 1, t);
    }
  }

  /** Tensor t comes from layer t plus the number of dropouts before that layer. */
  lemma {:induction false} ProducerLayer(code: Code, n: nat, t: nat)
    requires n <= |code| && t < |Producers(code, n)|
    ensures var b := Producers(code, n)[t];
      b < n && !Silent(code[b]) && LayerNumber(code, b) == t + DropoutCount(code, b)
  {
    ProducerRank(code, n, t);
    ProducerCount(code, Producers(code, n)[t]);
  }

  lemma {:induction false} DropoutsGrow(code: Code, k: nat, n: nat)
    requires k <= n <= |code|
    ensures DropoutCount(code, k) <= DropoutCount(code, n)
  {
    if k < n {
      DropoutsGrow(code, k, n - 1);
    }
  }

  /** No dropout below n has a layer number from lo to hi. */
  predicate DropoutFree(code: Code, n: nat, lo: int, hi: int)
    requires n <= |code|
  {
    forall b :: 0 <= b < n && lo <= LayerNumber(code, b) <= hi ==> !IsDropout(code[b])
  }

  /** A dropout at b is counted behind it. */
  lemma {:induction false} DropoutCounted(code: Code, b: nat, n: nat)
    requires b < n <= |code| && IsDropout(code[b])
    ensures DropoutCount(code, b) < DropoutCount(code, n)
  {
    DropoutsGrow(code, b + 1, n);
  }

  /** The first dropout, and how many tensors it finds. */
  lemma {:induction false} FirstDropout(code: Code, n: nat) returns (b: nat)
    requires n <= |code| && DropoutCount(code, n) > 0
    ensures b < n && IsDropout(code[b]) && LayerNumber(code, b) <= |Producers(code, n)|
  {
    if DropoutCount(code, n - 1) > 0 {
      b := FirstDropout(code, n - 1);
    } else {
      b := n - 1;
      ProducerCount(code, b);
    }
  }

  /** From the start: tensor t comes from layer t or a later one, and from layer t exactly when none of the
      layers 0 to t is a dropout. */
  lemma {:induction false} ProducerFromStart(code: Code, n: nat, t: nat)
    requires n <= |code| && t < |Producers(code, n)|
    ensures var b := Producers(code, n)[t];
      t <= LayerNumber(code, b) && (LayerNumber(code, b) == t <==> DropoutFree(code, n, 0, t))
  {
    var b := Producers(code, n)[t];
    ProducerLayer(code, n, t);
    ProducerRank(code, n, t);
    if DropoutCount(code, b) > 0 {
      var first := FirstDropout(code, b);
    } else {
      forall c | 0 <= c < n && 0 <= LayerNumber(code, c) <= t ensures !IsDropout(code[c]) {
        if IsDropout(code[c]) {
          if c < b { DropoutCounted(code, c, b); } else if b < c { LayerNumberGrows(code, b, c); }
        }
      }
    }
  }

  /** From the end: the v-th tensor from the end comes from the v-th layer from the end or an earlier one,
      and from that layer exactly when none of the last v layers is a dropout. */
  lemma {:induction false} ProducerFromEnd(code: Code, n: nat, v: nat)
    requires n <= |code| && 1 <= v <= |Producers(code, n)|
    ensures var ps, last := Producers(code, n), LayerNumber(code, n);
      && LayerNumber(code, ps[|ps| - v]) <= last - v
      && (LayerNumber(code, ps[|ps| - v]) == last - v <==> DropoutFree(code, n, last - v, last))
  {
    var t, last := |Producers(code, n)| - v, LayerNumber(code, n);
    var b := Producers(code, n)[t];
    ProducerLayer(code, n, t);
    ProducerCount(code, n);
    DropoutsGrow(code, b, n);
    if DropoutCount(code, b) == DropoutCount(code, n) {
      NoDropoutFrom(code, n, b);
    } else {
      var c := DropoutBehind(code, n, t);
    }
  }

  lemma {:induction false} NoDropoutFrom(code: Code, n: nat, b: nat)
    requires b < n <= |code| && DropoutCount(code, b) == DropoutCount(code, n) && !Silent(code[b])
    ensures DropoutFree(code, n, LayerNumber(code, b), LayerNumber(code, n))
  {
    forall c | 0 <= c < n && LayerNumber(code, b) <= LayerNumber(code, c) ensures !IsDropout(code[c]) {
      if IsDropout(code[c]) {
        if c < b {
          LayerNumberGrows(code, c, b);
        } else {
          DropoutCounted(code, c, n);
          DropoutsGrow(code, b, c);
        }
      }
    }
  }

  /** A dropout behind the block of tensor t. */
  lemma {:induction false} DropoutBehind(code: Code, n: nat, t: nat) returns (c: nat)
    requires n <= |code| && t < |Producers(code, n)|
    requires DropoutCount(code, Producers(code, n)[t]) < DropoutCount(code, n)
    ensures c < n && IsDropout(code[c])
    ensures LayerNumber(code, n) - (|Producers(code, n)| - t) <= LayerNumber(code, c) <= LayerNumber(code, n)
  {
    var b := Producers(code, n)[t];
    c := LastDropout(code, n);
    LayerNumberGrows(code, c, n);
    if c < b { DropoutsGrow(code, c + 1, b); }
    ProducerRank(code, n, t);
    ProducersGrow(code, b + 1, c);
    ProducerCount(code, c);
    ProducerCount(code, n);
  }

  lemma {:induction false} LastDropout(code: Code, n: nat) returns (c: nat)
    requires n <= |code| && DropoutCount(code, n) > 0
    ensures c < n && IsDropout(code[c]) && DropoutCount(code, c + 1) == DropoutCount(code, n)
  {
    if IsDropout(code[n - 1]) {
      c := n - 1;
    } else {
      c := LastDropout(code, n - 1);
    }
  }

  // ---------------------------------------------------------------- skip connections

  predicate IsSkip(b: Result<Instr>) {
    b.Ok? && b.value.Skip?
  }

  /** The target of the skip connection in block i, as a layer number. */
  function TargetOf(code: Code, i: nat): int
    requires i < |code| && IsSkip(code[i])
  {
    TrueTarget(i, code[i].value.from)
  }

  /** The asserts let a skip connection pass exactly when its target is a layer number before that of
      the previous layer and at most one earlier block is net or dropout. */
  lemma {:induction false} SkipAccepted(p: Source, i: nat)
    requires p.Accepts(i) && i < |p.code| && IsSkip(p.code[i])
    ensures SkipTarget(i, p.code[i].value.from, |p.Run(i).value.outs|)
         == if Reachable(p.code, i) then Some(TargetOf(p.code, i)) else None
  {
    TensorCount(p, i);
    SkipTargetExact(i, p.code[i].value.from, |p.Run(i).value.outs|);
  }

  predicate Reachable(code: Code, i: nat)
    requires i < |code| && IsSkip(code[i])
  {
    0 <= TargetOf(code, i) < i - 2 && SilentCount(code, i) <= 1
  }

  /** The block that made the tensor a skip connection reads. */
  function SkipSource(code: Code, i: nat): (b: nat)
    requires i < |code| && IsSkip(code[i]) && Reachable(code, i)
    ensures b < i
  {
    ProducerCount(code, i);
    Producers(code, i)[TargetOf(code, i)]
  }

  /** An accepted skip connection joins the output of the previous block and that of its source. */
  lemma {:induction false} SkipMeans(p: Source, i: nat) returns (call: Call)
    requires p.Accepts(i + 1) && IsSkip(p.code[i])
    ensures p.Accepts(i) && 0 < i && Reachable(p.code, i)
    ensures p.Run(i + 1).value.network == p.Run(i).value.network + [call]
    ensures call.block == i && |call.inputs| == 2 && MadeBy(p, call.output, i)
    ensures MadeBy(p, call.inputs[0], i - 1) && MadeBy(p, call.inputs[1], SkipSource(p.code, i))
  {
    AcceptsLess(p, i, i + 1);
    call := SkipStep(p, i);
    SkipAccepted(p, i);
    OutputsAre(p, i);
    CurrentTensor(p, i);
  }

  /** The layer that the author of a cfg means: layer "from", or |from| layers back. */
  function Meant(code: Code, i: nat): int
    requires i < |code| && IsSkip(code[i])
  {
    var from := code[i].value.from;
    if from > 0 then from else LayerNumber(code, i) + from
  }

  /** The skip connection reads the layer that is meant, exactly when: for a layer number, none of the
      layers up to it is a dropout; for an offset, there is a net before the block, or a dropout before
      block i + from. */
  lemma {:induction false} SkipNames(code: Code, i: nat)
    requires i < |code| && IsSkip(code[i]) && Reachable(code, i)
    ensures !Silent(code[SkipSource(code, i)])
    ensures var from := code[i].value.from;
      LayerNumber(code, SkipSource(code, i)) == Meant(code, i) <==>
        if from > 0 then DropoutFree(code, i, 0, from) else NetCount(code, i) > 0 || DropoutCount(code, i + from) > 0
  {
    var t := TargetOf(code, i);
    ProducerCount(code, i);
    ProducerLayer(code, i, t);
    if code[i].value.from > 0 {
      ProducerFromStart(code, i, t);
    } else {
      OffsetNames(code, i, t);
    }
  }

  lemma {:induction false} OffsetNames(code: Code, i: nat, t: nat)
    requires i < |code| && t < |Producers(code, i)| && t + 1 < i && SilentCount(code, i) <= 1
    ensures LayerNumber(code, Producers(code, i)[t]) == LayerNumber(code, i) - (i - 1 - t)
      <==> NetCount(code, i) > 0 || DropoutCount(code, t + 1) > 0
  {
    var b := Producers(code, i)[t];
    ProducerLayer(code, i, t);
    DropoutsGrow(code, b, i);
    DropoutsGrow(code, t + 1, i);
    if NetCount(code, i) == 0 {
      NetsGrow(code, b, i);
      if DropoutCount(code, b) == 0 { assert b == t; }
    }
  }

  lemma {:induction false} NetsGrow(code: Code, k: nat, n: nat)
    requires k <= n <= |code|
    ensures NetCount(code, k) <= NetCount(code, n)
  {
    if k < n {
      NetsGrow(code, k, n - 1);
    }
  }

  /** After a net, wherever it stands, a skip connection is accepted only if there is no dropout and no
      second net before it, and then it reads the layer that is meant. */
  lemma {:induction false} SkipAfterNet(code: Code, i: nat)
    requires i < |code| && IsSkip(code[i]) && NetCount(code, i) > 0
    ensures Reachable(code, i)
      <==> 0 <= TargetOf(code, i) < i - 2 && NetCount(code, i) == 1 && DropoutCount(code, i) == 0
    ensures Reachable(code, i) ==> LayerNumber(code, SkipSource(code, i)) == Meant(code, i)
  {
    if Reachable(code, i) {
      SkipNames(code, i);
      forall b | 0 <= b < i ensures !IsDropout(code[b]) {
        if IsDropout(code[b]) { DropoutCounted(code, b, i); }
      }
    }
  }

  /** With no net and no dropout before it, an offset reads the layer before the one that is meant. */
  lemma {:induction false} OffsetWithoutNet(code: Code, i: nat)
    requires i < |code| && IsSkip(code[i]) && Reachable(code, i) && SilentCount(code, i) == 0
    ensures code[i].value.from <= 0 ==> LayerNumber(code, SkipSource(code, i)) == Meant(code, i) - 1
  {
    var b := SkipSource(code, i);
    ProducerCount(code, i);
    ProducerLayer(code, i, TargetOf(code, i));
    DropoutsGrow(code, b, i);
  }

  lemma {:induction false} CurrentTensor(p: Source, i: nat)
    requires 0 < i && p.Accepts(i)
    ensures MadeBy(p, p.Run(i).value.previous, i - 1)
  {
  }

  /** The one layer call of an accepted skip connection. */
  lemma {:induction false} SkipStep(p: Source, i: nat) returns (call: Call)
    requires p.Accepts(i + 1) && p.Accepts(i)
    requires IsSkip(p.code[i])
    ensures var s := p.Run(i).value;
            var t := SkipTarget(i, p.code[i].value.from, |s.outs|);
      && t.Some? && call == Call(i, [s.previous, s.outs[t.value]], p.Run(i + 1).value.previous)
      && p.Run(i + 1).value.network == s.network + [call]
  {
    var s := p.Run(i).value;
    var t := SkipTarget(i, p.code[i].value.from, |s.outs|).value;
    call := Call(i, [s.previous, s.outs[t]], p.Run(i + 1).value.previous);
  }

  // ---------------------------------------------------------------- routes

  /** RouteTarget on an index that resolves to t. */
  function TrueIndex(v: int, size: int): int {
    if v < 0 then size + v else v
  }

  lemma {:induction false} RouteIndexExact(v: Int32, size: nat)
    requires size < 0x8000_0000
    ensures RouteTarget(v, size) == if 0 <= TrueIndex(v, size) < size then Some(TrueIndex(v, size)) else None
  {
    WrapOnce(size);
    WrapOnce(size + v);
  }

  /** A route index is accepted exactly when the tensor it counts to exists, and it names the output of
      the block that made that tensor. */
  lemma {:induction false} RouteNames(p: Source, i: nat, v: Int32)
    requires p.Accepts(i) && i < 0x8000_0000
    ensures var outs, ps := p.Run(i).value.outs, Producers(p.code, i);
            var t := TrueIndex(v, |ps|);
      && |outs| == |ps|
      && RouteTarget(v, |outs|) == (if 0 <= t < |ps| then Some(t) else None)
      && (0 <= t < |ps| ==> MadeBy(p, outs[t], ps[t]))
  {
    OutputsAre(p, i);
    RouteIndexExact(v, |Producers(p.code, i)|);
  }

  /** An absolute route index v names layer v exactly when none of the layers 0 to v is a dropout;
      otherwise it names a later layer. */
  lemma {:induction false} RouteAbsolute(code: Code, i: nat, v: nat)
    requires i <= |code| && v < |Producers(code, i)|
    ensures var b := Producers(code, i)[TrueIndex(v, |Producers(code, i)|)];
      && !Silent(code[b]) && v <= LayerNumber(code, b)
      && (LayerNumber(code, b) == v <==> DropoutFree(code, i, 0, v))
  {
    ProducerFromStart(code, i, v);
  }

  /** A route index -v names the layer v back exactly when none of the last v layers is a dropout;
      otherwise it names an earlier layer. */
  lemma {:induction false} RouteRelative(code: Code, i: nat, v: int)
    requires i <= |code| && 1 <= v <= |Producers(code, i)|
    ensures var b, here := Producers(code, i)[TrueIndex(-v, |Producers(code, i)|)], LayerNumber(code, i);
      && !Silent(code[b]) && LayerNumber(code, b) <= here - v
      && (LayerNumber(code, b) == here - v <==> DropoutFree(code, i, here - v, here))
  {
    var ps := Producers(code, i);
    assert ps[TrueIndex(-v, |ps|)] == ps[|ps| - v];
    ProducerFromEnd(code, i, v);
    ProducerLayer(code, i, |ps| - v);
  }

  /** An accepted route joins the tensors its indices resolve to, in order; one index without groups gives
      that tensor itself. */
  lemma {:induction false} RouteMeans(p: Source, i: nat) returns (call: Call)
    requires p.Accepts(i + 1) && p.code[i].Ok? && p.code[i].value.Join?
    ensures p.Accepts(i)
    ensures p.Run(i + 1).value.network == p.Run(i).value.network + [call]
    ensures var vs, outs := p.code[i].value.indices, p.Run(i).value.outs;
      && call.block == i && |call.inputs| == |vs| && MadeBy(p, call.output, i)
      && forall k :: 0 <= k < |vs| ==>
           && RouteTarget(vs[k], |outs|).Some? && RouteTarget(vs[k], |outs|).value < |outs|
           && call.inputs[k] == outs[RouteTarget(vs[k], |outs|).value]
    ensures |call.inputs| == 1 && !p.code[i].value.grouped ==> call.output == call.inputs[0]
  {
    AcceptsLess(p, i, i + 1);
    var outs := p.Run(i).value.outs;
    var ts := ResolveRoute(p.code[i].value.indices, |outs|).value;
    call := Call(i, Select(outs, ts), p.Run(i + 1).value.previous);
  }
}
