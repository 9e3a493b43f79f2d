/** Small cfgs that are imported, and that show where the importer does something else than what their author
    means. */
module Examples {
  import opened Wrappers
  import opened Text
  import opened Numbers
  import opened CfgParser
  import opened YoloTypes
  import opened HeadScan
  import opened NetworkBuilder
  import opened LayerNumbers
  import opened OutputLayout
  import opened YoloModel
  import KernelReads

  // ---------------------------------------------------------------- blocks

  /** An index that is an int. */
  type Index = x: int | 0 <= x < 0x8000_0000

  /** A block by what it is: net, a convolution, dropout, a shortcut, a route with one index, a head. */
  datatype Sample = Start | Layer | Drop | Link(from: Int32) | Path(index: Index) | Last

  function BlockFor(s: Sample): Block {
    match s
    case Start => map["type" := "net", "channels" := "1", "height" := "1", "width" := "1"]
    case Layer => map["type" := "convolutional", "activation" := "linear"]
    case Drop => map["type" := "dropout"]
    case Link(from) => map["type" := "shortcut", "from" := ShowInt(from)]
    case Path(index) => map["type" := "route", "layers" := ShowNat(index)]
    case Last => map["type" := "yolo", "num" := "1", "classes" := "1", "anchors" := ""]
  }

  function BlocksFor(ss: seq<Sample>): (blocks: seq<Block>)
    ensures |blocks| == |ss| && forall i :: 0 <= i < |ss| ==> blocks[i] == BlockFor(ss[i])
  {
    seq(|ss|, i requires 0 <= i < |ss| => BlockFor(ss[i]))
  }

  /** The head that Last describes. */
  const HEAD: TensorInfo := TensorInfo("", 0, 0, 1, ONE_AS_FLOAT, [], [])

  /** What the first pass reads. */
  function Says(s: Sample): Update {
    match s
    case Start => Input(1, 1, 1, None)
    case Last => Detect(1, None, HEAD)
    case _ => Nothing
  }

  function SaysAll(ss: seq<Sample>): (us: seq<Update>)
    ensures |us| == |ss|
  {
    if ss == [] then [] else SaysAll(ss[..|ss| - 1]) + [Says(ss[|ss| - 1])]
  }

  /** What the second pass reads. */
  function InstrFor(s: Sample, i: nat): Instr {
    match s
    case Start => Settings
    case Layer => Unary(true, true)
    case Drop => Idle
    case Link(from) => Skip(from, true)
    case Path(index) => Join([index], false)
    case Last => Detector("yolo_" + ShowNat(i))
  }

  lemma {:induction false} OneReads()
    ensures Stoul("1") == Some(1) && Trim("1") == "1"
  {
    NatTextReads(1);
    assert Digit(1) == '1';
  }

  lemma {:induction false} ReadOne<T>(s: string, read: string -> Option<T>, x: T)
    requires read(Trim(s)) == Some(x)
    ensures ReadAll([s], read) == Some([x])
  {
    assert [s][1..] == [] && ReadAll([s][1..], read) == Some([]);
    assert [x] + [] == [x];
  }

  lemma {:induction false} StartReads(stof: string -> Option<Word>, i: nat)
    ensures ReadBlock(BlockFor(Start), stof) == Some(Says(Start))
    ensures Decode(BlockFor(Start), i) == Ok(Settings)
  {
    assert KINDS["net"] == Net;
    OneReads();
  }

  lemma {:induction false} LayerReads(stof: string -> Option<Word>, i: nat)
    ensures ReadBlock(BlockFor(Layer), stof) == Some(Nothing)
    ensures Decode(BlockFor(Layer), i) == Ok(Unary(true, true))
  {
    assert KINDS["convolutional"] == Conv;
  }

  lemma {:induction false} DropReads(stof: string -> Option<Word>, i: nat)
    ensures ReadBlock(BlockFor(Drop), stof) == Some(Nothing)
    ensures Decode(BlockFor(Drop), i) == Ok(Idle)
  {
    assert KINDS["dropout"] == Dropout;
  }

  lemma {:induction false} LinkReads(from: Int32, stof: string -> Option<Word>, i: nat)
    ensures ReadBlock(BlockFor(Link(from)), stof) == Some(Nothing)
    ensures Decode(BlockFor(Link(from)), i) == Ok(Skip(from, true))
  {
    assert KINDS["shortcut"] == Shortcut;
    StoiShow(from);
  }

  lemma {:induction false} PathReads(index: Index, stof: string -> Option<Word>, i: nat)
    ensures ReadBlock(BlockFor(Path(index)), stof) == Some(Nothing)
    ensures Decode(BlockFor(Path(index)), i) == Ok(Join([index], false))
  {
    assert KINDS["route"] == Route;
    var s := ShowNat(index);
    NatTextReads(index);
    PiecesOne(s, ',');
    ReadOne(s, Stoi, index as Int32);
  }

  lemma {:induction false} LastReads(stof: string -> Option<Word>, i: nat)
    ensures ReadBlock(BlockFor(Last), stof) == Some(Says(Last))
    ensures Decode(BlockFor(Last), i) == Ok(Detector("yolo_" + ShowNat(i)))
  {
    assert KINDS["yolo"] == Head;
    OneReads();
  }

  lemma {:induction false} SampleReads(s: Sample, stof: string -> Option<Word>, i: nat)
    ensures ReadBlock(BlockFor(s), stof) == Some(Says(s)) && Decode(BlockFor(s), i) == Ok(InstrFor(s, i))
  {
    match s
    case Start => StartReads(stof, i);
    case Layer => LayerReads(stof, i);
    case Drop => DropReads(stof, i);
    case Link(from) => LinkReads(from, stof, i);
    case Path(index) => PathReads(index, stof, i);
    case Last => LastReads(stof, i);
  }

  // ---------------------------------------------------------------- the first pass

  lemma {:induction false} AllRead(ss: seq<Sample>, stof: string -> Option<Word>)
    ensures ReadBlocks(BlocksFor(ss), stof) == Some(SaysAll(ss))
  {
    if ss != [] {
      var n := |ss| - 1;
      AllRead(ss[..n], stof);
      assert BlocksFor(ss)[..n] == BlocksFor(ss[..n]);
      SampleReads(ss[n], stof, n);
    }
  }

  /** The fields after the first pass. */
  function After(net: bool, head: bool): Scanned {
    var side, n := if net then 1 else 0, if head then 1 else 0;
    Scanned(side, side, side, side, n, 0, 0, n, if head then [HEAD] else [])
  }

  /** There is one head, at the end. */
  predicate OneHead(ss: seq<Sample>) {
    ss != [] && ss[|ss| - 1] == Last && forall i :: 0 <= i < |ss| - 1 ==> ss[i] != Last
  }

  lemma {:induction false} HeadlessFields(ss: seq<Sample>)
    requires forall i :: 0 <= i < |ss| ==> ss[i] != Last
    ensures ApplyAll(FRESH, SaysAll(ss)) == After(Start in ss, false)
  {
    if ss != [] {
      var n := |ss| - 1;
      HeadlessFields(ss[..n]);
      assert SaysAll(ss)[..n] == SaysAll(ss[..n]);
      assert ss == ss[..n] + [ss[n]];
    }
  }

  // ---------------------------------------------------------------- the second pass

  /** Layer functions that number their outputs by block and take one weight each. */
  function Out(i: int): Tensor {
    Tensor(i, 4, 1, 1)
  }

  function Numbered(i: nat, inputs: seq<Tensor>): Made {
    Made(Some(Out(i)), 1)
  }

  function Program(ss: seq<Sample>): Source {
    Source(Numbered, 1, DecodeAll(BlocksFor(ss)), Out(-1), [HEAD])
  }

  /** The tensor that reaches the next block. */
  function Current(bs: seq<nat>): Tensor {
    if bs == [] then Out(-1) else Out(bs[|bs| - 1])
  }

  /** A run of samples without a head: which block made each tensor, the weights taken, and the calls. */
  datatype Trace = Trace(made: seq<nat>, taken: nat, calls: seq<Call>)

  const EMPTY: Trace := Trace([], 0, [])

  function Push(t: Trace, n: nat, maker: nat, taken: nat, inputs: seq<Tensor>): Trace {
    Trace(t.made + [maker], t.taken + taken, t.calls + [Call(n, inputs, Out(maker))])
  }

  function Next(s: Sample, n: nat, t: Trace): Option<Trace> {
    match s
    case Start => Some(t)
    case Drop => Some(t)
    case Layer => Some(Push(t, n, n, 1, [Current(t.made)]))
    case Link(from) =>
      var target := TrueTarget(n, from);
      if 0 <= target < n - 2 < |t.made| then Some(Push(t, n, n, 0, [Current(t.made), Out(t.made[target])])) else None
    case Path(index) =>
      if index < |t.made| then Some(Push(t, n, t.made[index], 0, [Out(t.made[index])])) else None
    case Last => None
  }

  function TraceOf(ss: seq<Sample>): (t: Option<Trace>)
    ensures t.Some? ==> |t.value.made| <= |ss| && Last !in ss
  {
    if ss == [] then Some(EMPTY)
    else match TraceOf(ss[..|ss| - 1])
      case None => None
      case Some(t) => Next(ss[|ss| - 1], |ss| - 1, t)
  }

  /** The build before block n is what the trace says. */
  predicate Shows(b: Build, t: Trace) {
    && |b.outs| == |t.made| && (forall i :: 0 <= i < |t.made| ==> b.outs[i] == Out(t.made[i]))
    && b.previous == Current(t.made) && b.weightPtr == t.taken && b.heads == [HEAD] && b.headInputs == []
    && b.network == t.calls
  }

  lemma {:induction false} CodeAt(ss: seq<Sample>, n: nat)
    requires n < |ss|
    ensures Program(ss).code[n] == Ok(InstrFor(ss[n], n))
  {
    DecodeAllAt(BlocksFor(ss), n);
    SampleReads(ss[n], s => None, n);
  }

  lemma {:induction false} NextLayer(b: Build, n: Word, t: Trace)
    requires Shows(b, t)
    ensures var r := LayerStep(Numbered, n, Unary(true, true), b);
      r.Ok? && Shows(r.value, Next(Layer, n, t).value)
  {
  }

  lemma {:induction false} NextLink(b: Build, n: Word, t: Trace, from: Int32)
    requires Shows(b, t) && Next(Link(from), n, t).Some? && |t.made| <= n
    ensures var r := LayerStep(Numbered, n, Skip(from, true), b);
      r.Ok? && Shows(r.value, Next(Link(from), n, t).value)
  {
    SkipTargetExact(n, from, |b.outs|);
  }

  lemma {:induction false} NextPath(b: Build, n: Word, t: Trace, index: Index)
    requires Shows(b, t) && Next(Path(index), n, t).Some? && |t.made| < 0x8000_0000
    ensures var r := LayerStep(Numbered, n, Join([index], false), b);
      r.Ok? && Shows(r.value, Next(Path(index), n, t).value)
  {
    RouteIndexExact(index, |b.outs|);
    OneIndex(index, |b.outs|);
    OneSelected(b.outs, index);
  }

  lemma {:induction false} OneIndex(v: Int32, size: nat)
    requires RouteTarget(v, size) == Some(v)
    ensures ResolveRoute([v], size) == Some([v])
  {
    assert ResolveRoute([v][1..], size) == Some([]);
    assert [v] + [] == [v];
  }

  lemma {:induction false} OneSelected(outs: seq<Tensor>, t: nat)
    requires t < |outs|
    ensures Select(outs, [t]) == [outs[t]]
  {
    assert Select(outs, [t][1..]) == [];
  }

  /** A sample program runs as traced. */
  lemma {:induction false} Traced(ss: seq<Sample>, n: nat)
    requires n <= |ss| < 0x8000_0000 && TraceOf(ss[..n]).Some?
    ensures Program(ss).Accepts(n) && Shows(Program(ss).Run(n).value, TraceOf(ss[..n]).value)
  {
    if n > 0 {
      assert ss[..n][..n - 1] == ss[..n - 1];
      Traced(ss, n - 1);
      CodeAt(ss, n - 1);
      NextShown(ss[n - 1], Program(ss).Run(n - 1).value, n - 1, TraceOf(ss[..n - 1]).value);
    }
  }

  lemma {:induction false} NextShown(s: Sample, b: Build, n: Word, t: Trace)
    requires Shows(b, t) && Next(s, n, t).Some? && |t.made| <= n < 0x8000_0000
    ensures var r := BuildStep(Numbered, 1, n, InstrFor(s, n), b);
      r.Ok? && Shows(r.value, Next(s, n, t).value)
  {
    match s
    case Layer => NextLayer(b, n, t);
    case Link(from) => NextLink(b, n, t, from);
    case Path(index) => NextPath(b, n, t, index);
    case _ =>
  }

  // ---------------------------------------------------------------- imported cfgs

  /** A new object imports the cfg with k weights. */
  predicate Imports(ss: seq<Sample>, k: nat, e: Engine) {
    |ss| < TWO_TO_THE_32 && Import(FRESH, SaysAll(ss), BlocksFor(ss), Numbered, -1, k) == Ok(e)
  }

  /** The head of block n, in the table. */
  function BuiltHead(t: Trace, n: nat): TensorInfo {
    WithGrid(HEAD, "yolo_" + ShowNat(n), Current(t.made))
  }

  lemma {:induction false} AddHead(b: Build, t: Trace, n: nat) returns (c: Build)
    requires Shows(b, t)
    ensures HeadStep(1, "yolo_" + ShowNat(n), b) == Ok(c)
    ensures c.weightPtr == t.taken && |c.headInputs| == 1 && c.heads == [BuiltHead(t, n)] && c.network == t.calls
  {
    c := HeadStep(1, "yolo_" + ShowNat(n), b).value;
  }

  /** The build of samples with a head at the end. */
  lemma {:induction false} BuildsHead(ss: seq<Sample>, n: nat, t: Trace) returns (c: Build)
    requires |ss| == n + 1 < 0x8000_0000 && ss[n] == Last && TraceOf(ss[..n]) == Some(t)
    ensures Program(ss).Run(n + 1) == Ok(c)
    ensures c.weightPtr == t.taken && |c.headInputs| == 1 && c.heads == [BuiltHead(t, n)] && c.network == t.calls
  {
    Traced(ss, n);
    CodeAt(ss, n);
    c := AddHead(Program(ss).Run(n).value, t, n);
  }

  /** Samples with a net, and a head at the end, are imported when the samples before it have a trace. */
  lemma {:induction false} Imported(body: seq<Sample>, t: Trace) returns (e: Engine)
    requires |body| < 0x7FFF_FFFF && Start in body && TraceOf(body) == Some(t) && t.taken < 0x8000_0000
    ensures Imports(body + [Last], t.taken, e) && e.network == t.calls
    ensures e.plugin.tensors == [BuiltHead(t, |body|)] && e.plugin.numClasses == 1
  {
    var ss := body + [Last];
    assert ss[..|body|] == body;
    OneHeadFields(ss);
    var b := BuildsHead(ss, |body|, t);
    e := FinishOne(b, t.taken);
  }

  lemma {:induction false} OneHeadFields(ss: seq<Sample>)
    requires OneHead(ss) && Start in ss && |ss| < TWO_TO_THE_32
    ensures ApplyAll(FRESH, SaysAll(ss)) == After(true, true)
    ensures SourceFor(FRESH, SaysAll(ss), BlocksFor(ss), Numbered, -1) == Program(ss)
  {
    var n := |ss| - 1;
    HeadlessFields(ss[..n]);
    assert SaysAll(ss)[..n] == SaysAll(ss[..n]);
    assert Start in ss[..n];
    assert [] + [HEAD] == [HEAD];
  }

  lemma {:induction false} FinishOne(b: Build, k: nat) returns (e: Engine)
    requires b.weightPtr == k < 0x8000_0000 && |b.headInputs| == 1 && |b.heads| == 1
    requires b.heads[0].numBBoxes == b.heads[0].gridSizeX == b.heads[0].gridSizeY == 1
    ensures Finish(After(true, true), b, k) == Ok(e)
    ensures e.network == b.network && e.plugin.tensors == b.heads && e.plugin.numClasses == 1
  {
    WrapOnce(k);
    assert Cells32(b.heads[0]) == 1;
    assert Sum32(b.heads, 0) == 0;
    e := Finish(After(true, true), b, k).value;
  }

  lemma {:induction false} OneMore(ss: seq<Sample>, s: Sample, t: Trace)
    requires TraceOf(ss) == Some(t)
    ensures TraceOf(ss + [s]) == Next(s, |ss|, t)
  {
    assert (ss + [s])[..|ss|] == ss;
  }

  /** Layers one after another. */
  function Layers(n: nat): (ss: seq<Sample>)
    ensures |ss| == n
  {
    seq(n, i => Layer)
  }

  /** The blocks from a number on. */
  function From(first: nat, n: nat): (r: seq<nat>)
    ensures |r| == n && forall i :: 0 <= i < n ==> r[i] == first + i
  {
    seq(n, i => first + i)
  }

  lemma {:induction false} MoreLayers(ss: seq<Sample>, n: nat, t: Trace) returns (u: Trace)
    requires TraceOf(ss) == Some(t)
    ensures TraceOf(ss + Layers(n)) == Some(u) && u.taken == t.taken + n && u.made == t.made + From(|ss|, n)
  {
    if n == 0 {
      u := t;
      assert ss + Layers(n) == ss && t.made + From(|ss|, n) == t.made;
    } else {
      var before := MoreLayers(ss, n - 1, t);
      LayersStep(ss, n);
      u := LayerMore(ss + Layers(n - 1), before);
      assert |ss + Layers(n - 1)| == |ss| + (n - 1);
      FromStep(t.made, |ss|, n);
    }
  }

  lemma {:induction false} LayersStep(ss: seq<Sample>, n: nat)
    requires n > 0
    ensures ss + Layers(n - 1) + [Layer] == ss + Layers(n)
  {
  }

  lemma {:induction false} FromStep(made: seq<nat>, first: nat, n: nat)
    requires n > 0
    ensures made + From(first, n - 1) + [first + (n - 1)] == made + From(first, n)
  {
  }

  /** A shortcut, a net and a head behind some samples. */
  lemma {:induction false} LinkImported(ss: seq<Sample>, t: Trace, from: Int32) returns (e: Engine, call: Call)
    requires TraceOf(ss) == Some(t) && t.taken < 0x8000_0000 && Next(Link(from), |ss|, t).Some?
    requires |ss| < 0x7FFF_0000
    ensures Imports(ss + [Link(from)] + [Start] + [Last], t.taken, e) && call in e.network
    ensures call == Call(|ss|, [Current(t.made), Out(t.made[TrueTarget(|ss|, from)])], Out(|ss|))
  {
    OneMore(ss, Link(from), t);
    var u := Next(Link(from), |ss|, t).value;
    OneMore(ss + [Link(from)], Start, u);
    e := Imported(ss + [Link(from)] + [Start], u);
    call := u.calls[|t.calls|];
  }

  /** Layers with a dropout after the first n. */
  function Dropped(n: nat, m: nat): seq<Sample> {
    Layers(n) + [Drop] + Layers(m)
  }

  lemma {:induction false} DropThenLayers(ss: seq<Sample>, m: nat, t: Trace) returns (u: Trace)
    requires TraceOf(ss) == Some(t)
    ensures TraceOf(ss + [Drop] + Layers(m)) == Some(u) && u.taken == t.taken + m
    ensures u.made == t.made + From(|ss| + 1, m)
  {
    OneMore(ss, Drop, t);
    u := MoreLayers(ss + [Drop], m, t);
  }

  lemma {:induction false} DroppedTrace(n: nat, m: nat) returns (t: Trace)
    ensures TraceOf(Dropped(n, m)) == Some(t) && t.taken == n + m && |Dropped(n, m)| == n + 1 + m
    ensures t.made == From(0, n) + From(n + 1, m)
  {
    var u := LayersTrace(n);
    t := DropThenLayers(Layers(n), m, u);
  }

  lemma {:induction false} LayersTrace(n: nat) returns (t: Trace)
    ensures TraceOf(Layers(n)) == Some(t) && t.taken == n && t.made == From(0, n)
  {
    t := MoreLayers([], n, EMPTY);
    assert [] + Layers(n) == Layers(n) && [] + From(0, n) == From(0, n);
  }

  /** No net before the shortcut: layer 2 is the dropout in block 2, and the output of block 3 is read. */
  lemma {:induction false} ShortcutAfterDropout() returns (e: Engine, call: Call)
    ensures Imports(Dropped(2, 2) + [Link(2)] + [Start] + [Last], 4, e) && call in e.network
    ensures call == Call(5, [Out(4), Out(3)], Out(5))
  {
    var t := DroppedTrace(2, 2);
    e, call := LinkImported(Dropped(2, 2), t, 2);
  }

  /** A dropout in place of the net: layer 2 is block 2, and the output of block 3 is read. */
  lemma {:induction false} LeadingDropout() returns (e: Engine, call: Call)
    ensures Imports(Dropped(0, 5) + [Link(2)] + [Start] + [Last], 5, e) && call in e.network
    ensures call == Call(6, [Out(5), Out(3)], Out(6))
  {
    var t := DroppedTrace(0, 5);
    e, call := LinkImported(Dropped(0, 5), t, 2);
  }

  /** No net before the shortcut: three layers back is block 2, and the output of block 1 is read. */
  lemma {:induction false} OffsetOneTooFar() returns (e: Engine, call: Call)
    ensures Imports(Layers(5) + [Link(-3)] + [Start] + [Last], 5, e) && call in e.network
    ensures call == Call(5, [Out(4), Out(1)], Out(5))
  {
    var t := LayersTrace(5);
    e, call := LinkImported(Layers(5), t, -3);
  }

  /** A net, a layer, a dropout, a layer, and a route to layer 1. */
  function Routed(): seq<Sample> {
    [Start] + [Layer] + [Drop] + [Layer] + [Path(1)]
  }

  lemma {:induction false} LayerMore(ss: seq<Sample>, t: Trace) returns (u: Trace)
    requires TraceOf(ss) == Some(t)
    ensures TraceOf(ss + [Layer]) == Some(u) && u.made == t.made + [|ss|] && u.taken == t.taken + 1
  {
    OneMore(ss, Layer, t);
    u := Next(Layer, |ss|, t).value;
  }

  lemma {:induction false} PathMore(ss: seq<Sample>, t: Trace, index: Index) returns (u: Trace, call: Call)
    requires TraceOf(ss) == Some(t) && index < |t.made|
    ensures TraceOf(ss + [Path(index)]) == Some(u) && u.taken == t.taken && call in u.calls
    ensures call == Call(|ss|, [Out(t.made[index])], Out(t.made[index]))
  {
    OneMore(ss, Path(index), t);
    u := Next(Path(index), |ss|, t).value;
    call := u.calls[|t.calls|];
  }

  lemma {:induction false} StartTrace()
    ensures TraceOf([Start]) == Some(EMPTY)
  {
    OneMore([], Start, EMPTY);
    assert [] + [Start] == [Start];
  }

  lemma {:induction false} DropBetween(ss: seq<Sample>, t: Trace) returns (u: Trace)
    requires TraceOf(ss) == Some(t)
    ensures TraceOf(ss + [Layer] + [Drop] + [Layer]) == Some(u)
    ensures u.made == t.made + [|ss|] + [|ss| + 2] && u.taken == t.taken + 2
  {
    u := LayerMore(ss, t);
    OneMore(ss + [Layer], Drop, u);
    u := LayerMore(ss + [Layer] + [Drop], u);
  }

  lemma {:induction false} RoutedTrace() returns (t: Trace, call: Call)
    ensures TraceOf(Routed()) == Some(t) && t.taken == 2
    ensures call in t.calls && call == Call(4, [Out(3)], Out(3))
  {
    StartTrace();
    t := DropBetween([Start], EMPTY);
    t, call := PathMore([Start] + [Layer] + [Drop] + [Layer], t, 1);
  }

  /** Layer 1 is the dropout in block 2, and the output of block 3 is given. */
  lemma {:induction false} RouteAfterDropout() returns (e: Engine, call: Call)
    ensures Imports(Routed() + [Last], 2, e) && call in e.network
    ensures call == Call(4, [Out(3)], Out(3))
  {
    var t;
    t, call := RoutedTrace();
    assert Routed()[0] == Start;
    e := Imported(Routed(), t);
  }

  /** A net and a layer. */
  function Tiny(): seq<Sample> {
    [Start] + [Layer]
  }

  lemma {:induction false} TinyTrace() returns (t: Trace)
    ensures TraceOf(Tiny()) == Some(t) && t.taken == 1 && Current(t.made) == Out(1)
    ensures Start in Tiny() && |Tiny()| == 2 && OneHead(Tiny() + [Last])
  {
    StartTrace();
    t := LayerMore([Start], EMPTY);
    assert Tiny()[0] == Start;
  }

  lemma {:induction false} TinyImports() returns (e: Engine)
    ensures Imports(Tiny() + [Last], 1, e) && e.plugin.numClasses == 1
    ensures e.plugin.tensors == [WithGrid(HEAD, "yolo_" + ShowNat(2), Out(1))]
  {
    var t := TinyTrace();
    e := Imported(Tiny(), t);
  }

  /** The object that imported e does not import the same again. */
  predicate FailsAgain(ss: seq<Sample>, k: nat, e: Engine) {
    && |ss| < TWO_TO_THE_32
    && Import(After(true, true).(yoloTensors := e.plugin.tensors), SaysAll(ss), BlocksFor(ss), Numbered, -1, k)
    == Err(HeadCountMismatch)
  }

  /** No imported samples are imported again by the same object. */
  lemma {:induction false} NotTwice(ss: seq<Sample>, k: nat, e: Engine, stof: string -> Option<Word>)
    requires OneHead(ss) && Start in ss && |ss| < 0x8000_0000 && Imports(ss, k, e)
    ensures ReadBlocks(BlocksFor(ss), stof) == Some(SaysAll(ss))
    ensures FailsAgain(ss, k, e)
  {
    AllRead(ss, stof);
    OneHeadFields(ss);
    SecondImportFails(FRESH, SaysAll(ss), BlocksFor(ss), stof, Numbered, -1, k, e);
  }

  /** A net, a layer and a head are imported by a new object, and not by one that has imported them. */
  lemma {:induction false} TinyTwice(stof: string -> Option<Word>) returns (e: Engine)
    ensures ReadBlocks(BlocksFor(Tiny() + [Last]), stof) == Some(SaysAll(Tiny() + [Last]))
    ensures Imports(Tiny() + [Last], 1, e) && FailsAgain(Tiny() + [Last], 1, e)
  {
    var t := TinyTrace();
    e := Imported(Tiny(), t);
    NotTwice(Tiny() + [Last], 1, e, stof);
  }

  // ---------------------------------------------------------------- reads out of bounds

  /** The head of an imported cfg reads six values for each cell, whatever the number of channels of the
      tensor that reaches it. */
  lemma {:induction false} InputTooSmall(size: nat) returns (e: Engine, r: KernelReads.Read)
    requires size < 6
    ensures Imports(Tiny() + [Last], 1, e) && |e.plugin.tensors| == 1
    ensures var t, classes := e.plugin.tensors[0], e.plugin.numClasses;
      KernelReads.IsRead(t, classes, r) && KernelReads.ReadIndex(t, classes, r) >= size
  {
    e := TinyImports();
    var t := e.plugin.tensors[0];
    assert KernelReads.InputVolume(t, 1) == 6;
    KernelReads.ReadsFit(t, 1, size);
    r :| KernelReads.IsRead(t, 1, r) && !(KernelReads.ReadIndex(t, 1, r) < size);
  }

  const FAR_HEAD: Block := map["num" := "1", "classes" := "1", "anchors" := "1", "mask" := "1"]

  /** The first pass accepts a head whose mask names a pair of anchors that is not there; thread z = 0 of
      the kernel then reads beyond the anchors. */
  lemma {:induction false} MaskBeyondAnchors(stof: string -> Option<Word>) returns (t: TensorInfo)
    requires stof("1").Some?
    ensures HeadOf(FAR_HEAD, stof) == Some(t) && t.numBBoxes == 1 && t.mask == [1] && |t.anchors| == 1
    ensures !KernelReads.AnchorsInside(t, 0)
  {
    OneReads();
    PiecesOne("1", ',');
    ReadOne("1", stof, stof("1").value);
    ReadOne("1", ReadMask, 1 as Int32);
    t := HeadOf(FAR_HEAD, stof).value;
  }
}
