/** The second pass over the blocks: what Yolo::buildYoloNetwork (yolo.cpp) does with each block, and
    the resolution of skip connections and routes. */
module NetworkBuilder {
  import opened Wrappers
  import opened Text
  import opened Numbers
  import opened CfgParser
  import opened YoloTypes
  import opened HeadScan

  /** A tensor handle of TensorRT: its identity, its rank, and the two dimensions the builder reads. */
  datatype Tensor = Tensor(id: int, nbDims: int, d2: Int32, d3: Int32)

  /** What a layer function returns: a tensor or nullptr, and how far it moved the weight cursor. */
  datatype Made = Made(output: Option<Tensor>, used: nat)

  /** The layer functions for the blocks of one cfg: block index and input tensors. */
  type LayerFn = (nat, seq<Tensor>) -> Made

  datatype Error =
    | MissingKey | BadNumber | AssertFailed | LayerFailed | UnsupportedType
    | HeadTableOverrun | WeightsLeft | HeadCountMismatch | ConfigRejected | WeightsRejected

  datatype Result<+T> = Ok(value: T) | Err(error: Error)

  // ---------------------------------------------------------------- skip connections

  /** i + from - 1 in 32-bit unsigned arithmetic, after "from = from - i + 1" for a positive from. */
  function SkipIndex(i: Word, from: Int32): Word {
    var f: Int32 := if from > 0 then ToInt32(ToWord(from - i) + 1) else from;
    ToWord(ToWord(i + f) - 1)
  }

  /** The target of a skip connection in block i with size tensors so far; None when an assert fails. */
  function SkipTarget(i: Word, from: Int32, size: nat): Option<Word> {
    var before, t := ToWord(i - 2), SkipIndex(i, from);
    if before < size && t < size && t < before then Some(t) else None
  }

  /** The target a cfg author means: a layer number, or an offset from the current layer. */
  function TrueTarget(i: int, from: int): int {
    if from > 0 then from else i - 1 + from
  }

  lemma {:induction false} SkipIndexWraps(i: Word, from: Int32)
    ensures SkipIndex(i, from) == ToWord(TrueTarget(i, from))
  {
    if from > 0 {
      WrapTwice(i + ToInt32(ToWord(from - i) + 1), -1);
      WrapTwice(ToWord(from - i) + 1, i - 1);
      WrapTwice(from - i, i);
    } else {
      WrapTwice(i + from, -1);
    }
  }

  /** The wrapped arithmetic accepts exactly the targets before the previous layer, and finds them. */
  lemma {:induction false} SkipTargetExact(i: Word, from: Int32, size: nat)
    requires size <= i
    ensures SkipTarget(i, from, size).Some? <==> 0 <= TrueTarget(i, from) < i - 2 < size
    ensures SkipTarget(i, from, size).Some? ==> SkipTarget(i, from, size).value == TrueTarget(i, from)
  {
    SkipIndexWraps(i, from);
    WrapOnce(TrueTarget(i, from));
    WrapOnce(i - 2);
  }

  // ---------------------------------------------------------------- routes

  /** One index of a route, counted from the start or, when negative, from the end. */
  function RouteTarget(v: Int32, size: nat): Option<nat> {
    var t := if v < 0 then ToInt32(size + v) else v;
    if 0 <= t < ToInt32(size) then Some(t) else None
  }

  /** The pieces of "layers": a last piece of spaces only is not read. */
  function RoutePieces(s: string): seq<string> {
    var ps := Pieces(s, ',');
    if ps != [] && s[|s| - 1] != ',' && Trim(ps[|ps| - 1]) == "" then ps[..|ps| - 1] else ps
  }

  /** All indices resolved, or None when an assert fails on one of them. */
  function ResolveRoute(vs: seq<Int32>, size: nat): (r: Option<seq<nat>>)
    ensures r.Some? ==> |r.value| == |vs| && forall k :: 0 <= k < |vs| ==> r.value[k] < size
    ensures r.Some? ==> forall k :: 0 <= k < |vs| ==> RouteTarget(vs[k], size) == Some(r.value[k])
    ensures r.None? ==> exists k :: 0 <= k < |vs| && RouteTarget(vs[k], size).None?
  {
    if vs == [] then Some([])
    else match (RouteTarget(vs[0], size), ResolveRoute(vs[1..], size))
      case (Some(t), Some(ts)) => Some([t] + ts)
      case _ => None
  }

  function Select(outs: seq<Tensor>, ts: seq<nat>): (r: seq<Tensor>)
    requires forall k :: 0 <= k < |ts| ==> ts[k] < |outs|
    ensures |r| == |ts| && forall k :: 0 <= k < |ts| ==> r[k] == outs[ts[k]]
  {
    if ts == [] then [] else [outs[ts[0]]] + Select(outs, ts[1..])
  }

  // ---------------------------------------------------------------- the blocks as instructions

  /** What a block asks the builder to do. Weighted layers are handed the weight cursor. */
  datatype Instr =
    | Settings                                  // net
    | Idle                                      // dropout
    | Detector(name: string)                    // yolo, region
    | Unary(weighted: bool, fourDims: bool)     // takes the current tensor
    | Constant                                  // implicit: takes no tensor, is weighted
    | Skip(from: Int32, bothRanks: bool)        // shortcut, sam, channels
    | Join(indices: seq<Int32>, grouped: bool)  // route, with or without "groups"

  function BlobName(b: Block, i: nat): string
    requires "type" in b
  {
    (if b["type"] == "yolo" then "yolo_" else "region_") + ShowNat(i)
  }

  function DecodeSkip(b: Block, kind: Kind): Result<Instr> {
    if "from" !in b then Err(AssertFailed)
    else match Stoi(b["from"])
      case None => Err(BadNumber)
      case Some(from) => Ok(Skip(from, kind == Shortcut))
  }

  function DecodeRoute(b: Block): Result<Instr> {
    if "layers" !in b then Err(AssertFailed)
    else match ReadAll(RoutePieces(b["layers"]), Stoi)
      case None => Err(BadNumber)
      case Some(vs) => if vs == [] then Err(AssertFailed) else Ok(Join(vs, "groups" in b))
  }

  /** Block i, before the state of the build is looked at. */
  function Decode(b: Block, i: nat): Result<Instr> {
    if "type" !in b then Err(MissingKey)
    else
      var kind := KindOf(b["type"]);
      match kind
      case Net => Ok(Settings)
      case Dropout => Ok(Idle)
      case Head => Ok(Detector(BlobName(b, i)))
      case Conv => if "activation" in b then Ok(Unary(true, true)) else Err(MissingKey)
      case Deconv => Ok(Unary(true, true))
      case BatchNorm => if "activation" in b then Ok(Unary(true, false)) else Err(MissingKey)
      case Implicit => Ok(Constant)
      case Channels => DecodeSkip(b, kind)
      case Shortcut => DecodeSkip(b, kind)
      case Sam => DecodeSkip(b, kind)
      case Route => DecodeRoute(b)
      case Upsample => Ok(Unary(false, false))
      case Pool => Ok(Unary(false, false))
      case Reorg => Ok(Unary(false, false))
      case Unsupported => Err(UnsupportedType)
  }

  function DecodeAll(blocks: seq<Block>): (code: seq<Result<Instr>>)
    ensures |code| == |blocks|
  {
    if blocks == [] then []
    else DecodeAll(blocks[..|blocks| - 1]) + [Decode(blocks[|blocks| - 1], |blocks| - 1)]
  }

  lemma {:induction false} DecodeAllAt(blocks: seq<Block>, i: nat)
    requires i < |blocks|
    ensures DecodeAll(blocks)[i] == Decode(blocks[i], i)
  {
    if i < |blocks| - 1 {
      DecodeAllAt(blocks[..|blocks| - 1], i);
    }
  }

  /** The instructions of net, dropout, and yolo and region blocks. */
  lemma {:induction false} DecodeKinds(b: Block, i: nat)
    ensures Decode(b, i) == Ok(Settings) <==> HasKind(b, Net)
    ensures Decode(b, i) == Ok(Idle) <==> HasKind(b, Dropout)
    ensures (Decode(b, i).Ok? && Decode(b, i).value.Detector?) <==> HasKind(b, Head)
  {
  }

  // ---------------------------------------------------------------- one block

  /** A call of a layer function. */
  datatype Call = Call(block: nat, inputs: seq<Tensor>, output: Tensor)

  /** The local variables of buildYoloNetwork, the head table, and the layer functions called so far. */
  datatype Build = Build(
    previous: Tensor,
    outs: seq<Tensor>,
    weightPtr: nat,
    heads: seq<TensorInfo>,
    headInputs: seq<Tensor>,
    network: seq<Call>)

  /** The tensors handed to the layer function of block i. */
  function Operands(i: Word, instr: Instr, previous: Tensor, outs: seq<Tensor>): Result<seq<Tensor>> {
    match instr
    case Skip(from, bothRanks) =>
      (match SkipTarget(i, from, |outs|)
       case None => Err(AssertFailed)
       case Some(t) =>
         if previous.nbDims < 1 || (bothRanks && outs[t].nbDims < 1) then Err(AssertFailed)
         else Ok([previous, outs[t]]))
    case Join(vs, _) =>
      (match ResolveRoute(vs, |outs|)
       case None => Err(AssertFailed)
       case Some(ts) => Ok(Select(outs, ts)))
    case Unary(_, fourDims) =>
      if previous.nbDims < 1 || (fourDims && previous.nbDims != 4) then Err(AssertFailed) else Ok([previous])
    case _ => Ok([])
  }

  predicate Weighted(instr: Instr) {
    instr.Constant? || (instr.Unary? && instr.weighted)
  }

  /** The head table entry once the tensor it decodes is known. */
  function WithGrid(info: TensorInfo, name: string, t: Tensor): TensorInfo {
    info.(blobName := name, gridSizeY := ToWord(t.d2), gridSizeX := ToWord(t.d3))
  }

  /** A yolo or region block; slots is the length of yoloTensorInputs. */
  function HeadStep(slots: Word, name: string, s: Build): Result<Build> {
    var k := |s.headInputs|;
    if k >= |s.heads| || k >= slots then Err(HeadTableOverrun)
    else if s.previous.nbDims < 1 then Err(AssertFailed)
    else Ok(s.(heads := s.heads[k := WithGrid(s.heads[k], name, s.previous)],
               headInputs := s.headInputs + [s.previous],
               outs := s.outs + [s.previous]))
  }

  /** What the layer function of block i returns. A route of one tensor without groups is that tensor. */
  function Returned(layer: LayerFn, i: Word, instr: Instr, inputs: seq<Tensor>): Made {
    if instr.Join? && !instr.grouped && |inputs| == 1 then Made(Some(inputs[0]), 0) else layer(i, inputs)
  }

  /** A call and the number of weights it took. */
  datatype Added = Added(call: Call, used: nat)

  /** Calling the layer function of block i. */
  function AddLayer(layer: LayerFn, i: Word, instr: Instr, previous: Tensor, outs: seq<Tensor>): Result<Added> {
    match Operands(i, instr, previous, outs)
    case Err(e) => Err(e)
    case Ok(inputs) =>
      var made := Returned(layer, i, instr, inputs);
      if made.output.None? then Err(LayerFailed)
      else if made.output.value.nbDims < 1 then Err(AssertFailed)
      else Ok(Added(Call(i, inputs, made.output.value), if Weighted(instr) then made.used else 0))
  }

  function LayerStep(layer: LayerFn, i: Word, instr: Instr, s: Build): Result<Build> {
    match AddLayer(layer, i, instr, s.previous, s.outs)
    case Err(e) => Err(e)
    case Ok(Added(call, used)) =>
      Ok(s.(previous := call.output, outs := s.outs + [call.output], network := s.network + [call],
            weightPtr := s.weightPtr + used))
  }

  function BuildStep(layer: LayerFn, slots: Word, i: Word, instr: Instr, s: Build): Result<Build> {
    match instr
    case Settings => Ok(s)
    case Idle => Ok(s)
    case Detector(name) => HeadStep(slots, name, s)
    case _ => LayerStep(layer, i, instr, s)
  }

  // ---------------------------------------------------------------- all blocks

  /** A build: the layer functions, the decoded blocks, the input tensor, and the head table and its
      declared size as the first pass left them. */
  datatype Source = Source(
    layer: LayerFn, slots: Word, code: seq<Result<Instr>>, data: Tensor, heads: seq<TensorInfo>)
  {
    /** The state before block n. */
    function Run(n: nat): Result<Build>
      requires n <= |code| < TWO_TO_THE_32
    {
      if n == 0 then Ok(Build(data, [], 0, heads, [], []))
      else match (Run(n - 1), code[n - 1])
        case (Err(e), _) => Err(e)
        case (_, Err(e)) => Err(e)
        case (Ok(s), Ok(instr)) => BuildStep(layer, slots, n - 1, instr, s)
    }

    /** Every block below n is accepted. */
    predicate Accepts(n: nat) {
      n <= |code| < TWO_TO_THE_32 && Run(n).Ok?
    }
  }

  /** The first rejected block decides the result. */
  lemma {:induction false} RunStops(p: Source, k: nat, n: nat)
    requires k <= n <= |p.code| < TWO_TO_THE_32 && p.Run(k).Err?
    ensures p.Run(n) == p.Run(k)
  {
    if k < n {
      RunStops(p, k, n - 1);
    }
  }
}
