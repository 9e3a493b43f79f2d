/** The model importer: class Yolo (yolo.h, yolo.cpp), whose methods fill its fields step by step. */
module YoloModel {
  import opened Wrappers
  import opened Text
  import opened CfgParser
  import opened YoloTypes
  import opened HeadScan
  import opened NetworkBuilder
  import opened HeadAgreement
  import opened OutputLayout
  import opened Bytes
  import opened WeightsFile
  import opened YoloPlugin

  /** What a successful build hands to TensorRT. */
  datatype Engine = Engine(plugin: Layer, inputs: seq<Tensor>, network: seq<Call>)

  /** The checks and the plugin at the end of buildYoloNetwork. */
  function Finish(f: Scanned, b: Build, weights: nat): Result<Engine> {
    if ToInt32(weights) != b.weightPtr then Err(WeightsLeft)
    else if f.yoloCount != |b.headInputs| then Err(HeadCountMismatch)
    else if |b.headInputs| > |b.heads| then Err(HeadTableOverrun)
    else
      var size := Sum32(b.heads, |b.headInputs|);
      if f.inputW == 0 || f.inputH == 0 || f.numClasses == 0 || size == 0 then Err(AssertFailed)
      else Ok(Engine(PluginOf(f, b.heads, size), b.headInputs, b.network))
  }

  function PluginOf(f: Scanned, heads: seq<TensorInfo>, size: nat): Layer {
    Layer(f.inputW, f.inputH, f.numClasses, f.newCoords, size % TWO_TO_THE_64, heads)
  }

  class Yolo {
    var inputC: Word
    var inputH: Word
    var inputW: Word
    var inputSize: Word
    var numClasses: Word
    var letterBox: Word
    var newCoords: Word
    var yoloCount: Word
    var yoloTensors: seq<TensorInfo>
    var configBlocks: seq<Block>

    /** The fields that the first pass writes. */
    function Fields(): Scanned
      reads this
    {
      Scanned(inputC, inputH, inputW, inputSize, numClasses, letterBox, newCoords, yoloCount, yoloTensors)
    }

    constructor ()
      ensures Fields() == FRESH && configBlocks == []
    {
      inputC, inputH, inputW, inputSize, numClasses := 0, 0, 0, 0, 0;
      letterBox, newCoords, yoloCount, yoloTensors, configBlocks := 0, 0, 0, [], [];
    }

    /** The first pass. When a block is rejected the program ends. */
    method ParseConfigBlocks(stof: string -> Option<Word>) returns (ok: bool)
      modifies this
      ensures configBlocks == old(configBlocks)
      ensures ok <==> ReadBlocks(configBlocks, stof).Some?
      ensures ok ==> Fields() == ApplyAll(old(Fields()), ReadBlocks(configBlocks, stof).value)
      ensures ok ==> FieldsFrom(configBlocks, |configBlocks|, old(Fields()), Fields())
    {
      ghost var us: seq<Update> := [];
      for k := 0 to |configBlocks|
        invariant configBlocks == old(configBlocks)
        invariant ReadBlocks(configBlocks[..k], stof) == Some(us)
        invariant Fields() == ApplyAll(old(Fields()), us)
      {
        ghost var before := configBlocks[..k];
        assert configBlocks[..k + 1][..k] == before;
        var u := ParseBlock(configBlocks[k], stof);
        if u.None? {
          ReadStops(configBlocks, k + 1, stof);
          return false;
        }
        assert (us + [u.value])[..|us|] == us;
        us := us + [u.value];
      }
      assert configBlocks[..|configBlocks|] == configBlocks;
      FieldsExact(old(Fields()), configBlocks, us, |configBlocks|, stof);
      ok := true;
    }

    /** One block of the first pass: the fields it writes. */
    method ParseBlock(block: Block, stof: string -> Option<Word>) returns (u: Option<Update>)
      modifies this
      ensures u == ReadBlock(block, stof) && configBlocks == old(configBlocks)
      ensures u.Some? ==> Fields() == Apply(old(Fields()), u.value)
    {
      if "type" !in block { return None; }
      var kind := KindOf(block["type"]);
      if kind == Net {
        u := ReadNet(block);
      } else if kind == Head {
        u := ParseHead(block, stof);
      } else {
        u := Some(Nothing);
      }
      if u.Some? { Store(u.value); }
    }

    /** The asserts and conversions for a head block. */
    method ParseHead(block: Block, stof: string -> Option<Word>) returns (u: Option<Update>)
      ensures u == ReadDetect(block, stof)
    {
      if "num" !in block || "classes" !in block || "anchors" !in block { return None; }
      var classes := Field(block, "classes");
      var coords := FieldIfAny(block, "new_coords");
      if classes.None? || coords.None? { return None; }
      var outputTensor := ReadHead(block, stof);
      if outputTensor.None? { return None; }
      u := Some(Detect(classes.value, coords.value, outputTensor.value));
    }

    /** The assignments to the fields. */
    method Store(u: Update)
      modifies this
      ensures Fields() == Apply(old(Fields()), u) && configBlocks == old(configBlocks)
    {
      match u {
        case Nothing =>
        case Input(c, h, w, l) =>
          inputC, inputH, inputW := c, h, w;
          inputSize := Volume(inputC, inputH, inputW);
          if l.Some? { letterBox := l.value; }
        case Detect(classes, coords, outputTensor) =>
          yoloCount := ToWord(yoloCount + 1);
          numClasses := classes;
          if coords.Some? { newCoords := coords.value; }
          yoloTensors := yoloTensors + [outputTensor];
      }
    }

    /** The build that buildYoloNetwork is about to run. */
    function Build(layer: LayerFn, data: Tensor): Source
      reads this
    {
      Source(layer, yoloCount, DecodeAll(configBlocks), data, yoloTensors)
    }

    /** The local variables of the second pass, with the head table. */
    function Locals(previous: Tensor, tensorOutputs: seq<Tensor>, weightPtr: nat, yoloTensorInputs: seq<Tensor>,
                    network: seq<Call>): Build
      reads this
    {
      NetworkBuilder.Build(previous, tensorOutputs, weightPtr, yoloTensors, yoloTensorInputs, network)
    }

    /** The second pass. The head table is filled in place; weights is the number of weights loaded. */
    method BuildYoloNetwork(layer: LayerFn, data: Tensor, weights: nat) returns (r: Result<Engine>)
      requires |configBlocks| < TWO_TO_THE_32
      modifies this`yoloTensors
      ensures match old(Build(layer, data)).Run(|configBlocks|)
              case Err(e) => r == Err(e)
              case Ok(b) => yoloTensors == b.heads && r == Finish(old(Fields()), b, weights)
    {
      ghost var p := Build(layer, data);
      var code := DecodeAll(configBlocks);
      var n := |code|;
      var previous := data;
      var tensorOutputs: seq<Tensor> := [];
      var weightPtr: nat := 0;
      var yoloTensorInputs: seq<Tensor> := [];
      var network: seq<Call> := [];
      for i := 0 to n
        invariant p.Run(i) == Ok(Locals(previous, tensorOutputs, weightPtr, yoloTensorInputs, network))
      {
        if code[i].Err? {
          RunStops(p, i + 1, n);
          return Err(code[i].error);
        }
        var error;
        error, previous, tensorOutputs, weightPtr, yoloTensorInputs, network :=
          BuildBlock(layer, i, code[i].value, previous, tensorOutputs, weightPtr, yoloTensorInputs, network);
        if error.Some? {
          RunStops(p, i + 1, n);
          return Err(error.value);
        }
      }
      r := FinishNetwork(previous, tensorOutputs, weightPtr, yoloTensorInputs, network, weights);
    }

    /** The body of the loop: one block moves the local variables and the head table. */
    method BuildBlock(layer: LayerFn, i: Word, instr: Instr, previous: Tensor, tensorOutputs: seq<Tensor>,
                      weightPtr: nat, yoloTensorInputs: seq<Tensor>, network: seq<Call>)
      returns (error: Option<Error>, previous': Tensor, tensorOutputs': seq<Tensor>, weightPtr': nat,
               yoloTensorInputs': seq<Tensor>, network': seq<Call>)
      modifies this`yoloTensors
      ensures BuildStep(layer, yoloCount, i, instr,
                        old(Locals(previous, tensorOutputs, weightPtr, yoloTensorInputs, network)))
           == if error.Some? then Err(error.value)
              else Ok(Locals(previous', tensorOutputs', weightPtr', yoloTensorInputs', network'))
    {
      error, previous', tensorOutputs', weightPtr' := None, previous, tensorOutputs, weightPtr;
      yoloTensorInputs', network' := yoloTensorInputs, network;
      match instr {
        case Settings =>
        case Idle =>
        case Detector(name) =>
          var k := |yoloTensorInputs|;
          if k >= |yoloTensors| || k >= yoloCount {
            error := Some(HeadTableOverrun);
          } else if previous.nbDims < 1 {
            error := Some(AssertFailed);
          } else {
            yoloTensors := yoloTensors[k := WithGrid(yoloTensors[k], name, previous)];
            tensorOutputs' := tensorOutputs + [previous];
            yoloTensorInputs' := yoloTensorInputs + [previous];
          }
        case _ =>
          var made := AddLayer(layer, i, instr, previous, tensorOutputs);
          if made.Err? {
            error := Some(made.error);
          } else {
            previous' := made.value.call.output;
            tensorOutputs' := tensorOutputs + [previous'];
            network' := network + [made.value.call];
            weightPtr' := weightPtr + made.value.used;
          }
      }
    }

    /** The end of the second pass. */
    method FinishNetwork(ghost previous: Tensor, ghost tensorOutputs: seq<Tensor>, weightPtr: nat,
                         yoloTensorInputs: seq<Tensor>, network: seq<Call>, weights: nat)
      returns (r: Result<Engine>)
      ensures r == Finish(Fields(), Locals(previous, tensorOutputs, weightPtr, yoloTensorInputs, network), weights)
    {
      if ToInt32(weights) != weightPtr { return Err(WeightsLeft); }
      if yoloCount != |yoloTensorInputs| { return Err(HeadCountMismatch); }
      if |yoloTensorInputs| > |yoloTensors| { return Err(HeadTableOverrun); }
      var outputSize := OutputSize(yoloTensors, |yoloTensorInputs|);
      if inputW == 0 || inputH == 0 || numClasses == 0 || outputSize == 0 { return Err(AssertFailed); }
      r := Ok(Engine(PluginOf(Fields(), yoloTensors, outputSize), yoloTensorInputs, network));
    }

    /** Load the weights and build the network. */
    method ParseModel(path: string, bytes: seq<Byte>, layer: LayerFn, inputId: int) returns (r: Result<Engine>)
      requires |configBlocks| < TWO_TO_THE_32 && |bytes| > HeaderLength(path)
      modifies this`yoloTensors
      ensures !Loadable(path, bytes) ==> r == Err(WeightsRejected)
      ensures Loadable(path, bytes) ==>
        r == Assembled(old(Fields()), old(Build(layer, Data(Fields(), inputId))), Loaded(path, bytes))
      ensures r.Ok? ==> yoloTensors == r.value.plugin.tensors
    {
      var weights := LoadWeights(path, bytes);
      if weights.None? { return Err(WeightsRejected); }
      assert |weights.value| == Loaded(path, bytes);
      r := BuildYoloNetwork(layer, Data(Fields(), inputId), |weights.value|);
    }

    /** The darknet branch of createEngine: read the cfg, scan it, load the weights, build the network. */
    method CreateEngine(text: string, path: string, bytes: seq<Byte>, stof: string -> Option<Word>,
                        layers: seq<Block> -> LayerFn, inputId: int)
      returns (r: Result<Engine>)
      requires Readable(Pieces(text, '\n')) && |Parse(text)| < TWO_TO_THE_32
      requires |bytes| > HeaderLength(path)
      modifies this
      ensures configBlocks == Parse(text)
      ensures match ReadBlocks(configBlocks, stof)
              case None => r == Err(ConfigRejected)
              case Some(us) =>
                && Fields() == ApplyAll(old(Fields()), us).(yoloTensors := yoloTensors)
                && (!Loadable(path, bytes) ==> r == Err(WeightsRejected))
                && (Loadable(path, bytes) ==>
                      r == Import(old(Fields()), us, configBlocks, layers(configBlocks), inputId,
                                  Loaded(path, bytes)))
                && (r.Ok? ==> yoloTensors == r.value.plugin.tensors)
      ensures r.Ok? ==> old(yoloCount) == 0 < yoloCount
      ensures old(Fields()) == FRESH ==> r != Err(HeadTableOverrun) && r != Err(HeadCountMismatch)
    {
      configBlocks := ParseConfigFile(text);
      ghost var before := Fields();
      var ok := ParseConfigBlocks(stof);
      if !ok { return Err(ConfigRejected); }
      ghost var us, layer := ReadBlocks(configBlocks, stof).value, layers(configBlocks);
      assert Build(layer, Data(Fields(), inputId)) == SourceFor(before, us, configBlocks, layer, inputId);
      r := ParseModel(path, bytes, layers(configBlocks), inputId);
      if before == FRESH {
        NewObjectAgrees(us, configBlocks, stof, layer, inputId, Loaded(path, bytes));
      }
      if r.Ok? {
        ImportCounts(before, us, configBlocks, stof, layer, inputId, Loaded(path, bytes));
      }
    }
  }

  predicate Loadable(path: string, bytes: seq<Byte>)
    requires |bytes| > HeaderLength(path)
  {
    Contains(path, ".weights") && (|bytes| - HeaderLength(path)) % 4 == 0
  }

  function Loaded(path: string, bytes: seq<Byte>): nat
    requires |bytes| > HeaderLength(path)
  {
    (|bytes| - HeaderLength(path)) / 4
  }

  /** Importing twice with one object: whatever made the first import succeed, the second fails. */
  method ImportTwice(yolo: Yolo, text: string, path: string, bytes: seq<Byte>, stof: string -> Option<Word>,
                     layers: seq<Block> -> LayerFn, inputId: int)
    returns (first: Result<Engine>, second: Result<Engine>)
    requires Readable(Pieces(text, '\n')) && |Parse(text)| < 0x8000_0000
    requires |bytes| > HeaderLength(path)
    modifies yolo
    ensures first.Ok? ==> second == Err(HeadCountMismatch)
  {
    ghost var before := yolo.Fields();
    first := yolo.CreateEngine(text, path, bytes, stof, layers, inputId);
    second := yolo.CreateEngine(text, path, bytes, stof, layers, inputId);
    if first.Ok? {
      ghost var blocks := Parse(text);
      ghost var us := ReadBlocks(blocks, stof).value;
      SecondImportFails(before, us, blocks, stof, layers(blocks), inputId, Loaded(path, bytes), first.value);
    }
  }

  /** The input tensor that buildYoloNetwork adds. */
  function Data(f: Scanned, id: int): Tensor {
    Tensor(id, 4, ToInt32(f.inputH), ToInt32(f.inputW))
  }

  /** A build and the checks at its end. */
  function Assembled(f: Scanned, p: Source, weights: nat): Result<Engine>
    requires |p.code| < TWO_TO_THE_32
  {
    match p.Run(|p.code|)
    case Err(e) => Err(e)
    case Ok(b) => Finish(f, b, weights)
  }

  function SourceFor(s: Scanned, us: seq<Update>, blocks: seq<Block>, layer: LayerFn, inputId: int): Source {
    SourceOf(s, us, blocks, layer, Data(ApplyAll(s, us), inputId))
  }

  /** What both passes over these blocks make of an object in state s. */
  function Import(s: Scanned, us: seq<Update>, blocks: seq<Block>, layer: LayerFn, inputId: int,
                  weights: nat): Result<Engine>
    requires |blocks| < TWO_TO_THE_32
  {
    Assembled(ApplyAll(s, us), SourceFor(s, us, blocks, layer, inputId), weights)
  }

  /** An import succeeds only on an object that has counted no heads, and leaves one that has. */
  lemma {:induction false} ImportCounts(s: Scanned, us: seq<Update>, blocks: seq<Block>,
      stof: string -> Option<Word>, layer: LayerFn, inputId: int, weights: nat)
    requires |blocks| < TWO_TO_THE_32 && ReadBlocks(blocks, stof) == Some(us)
    requires Import(s, us, blocks, layer, inputId, weights).Ok?
    ensures s.yoloCount == 0 < ApplyAll(s, us).yoloCount == |HeadIndices(blocks, |blocks|)|
  {
    UsedObjectDisagrees(s, us, blocks, stof, SourceFor(s, us, blocks, layer, inputId));
  }

  /** The network input that the first pass leaves does not depend on the object's state when it reads
      the same blocks again. */
  lemma {:induction false} SameInput(s: Scanned, us: seq<Update>, t: Scanned, n: nat)
    requires n <= |us|
    ensures var f, g := ApplyAll(s, us[..n]), ApplyAll(t, us[..n]);
      || (f.inputH == g.inputH && f.inputW == g.inputW)
      || (f.inputH == s.inputH && f.inputW == s.inputW && g.inputH == t.inputH && g.inputW == t.inputW)
  {
    if n > 0 {
      SameInput(s, us, t, n - 1);
      assert us[..n][..n - 1] == us[..n - 1];
    }
  }

  lemma {:induction false} InputAgain(s: Scanned, us: seq<Update>, heads: seq<TensorInfo>, id: int)
    ensures var f := ApplyAll(s, us);
      Data(ApplyAll(f.(yoloTensors := heads), us), id) == Data(f, id)
  {
    SameInput(s, us, ApplyAll(s, us).(yoloTensors := heads), |us|);
    assert us[..|us|] == us;
  }

  /** The first pass over the same blocks again doubles the count and appends to the table. */
  lemma {:induction false} TableAgain(s: Scanned, us: seq<Update>, blocks: seq<Block>, stof: string -> Option<Word>,
      heads: seq<TensorInfo>)
    requires |blocks| < 0x8000_0000 && ReadBlocks(blocks, stof) == Some(us)
    requires s.yoloCount == 0 && |heads| == |ApplyAll(s, us).yoloTensors|
    ensures var f, h := ApplyAll(s, us), |HeadIndices(blocks, |blocks|)|;
      var g := ApplyAll(f.(yoloTensors := heads), us);
      && f.yoloCount == h && g.yoloCount == 2 * h
      && |f.yoloTensors| <= |g.yoloTensors|
  {
    var f := ApplyAll(s, us);
    var again := f.(yoloTensors := heads);
    UsedCount(s, us, blocks, stof);
    UsedCount(again, us, blocks, stof);
    HeadTable(again, us);
    WrapOnce(f.yoloCount);
    WrapOnce(|HeadIndices(blocks, |blocks|)|);
    WrapOnce(2 * |HeadIndices(blocks, |blocks|)|);
  }

  /** After an import, the same import again builds the same network and then fails on the count of
      heads. */
  lemma {:induction false} SecondImportFails(s: Scanned, us: seq<Update>, blocks: seq<Block>,
      stof: string -> Option<Word>, layer: LayerFn, inputId: int, weights: nat, e: Engine)
    requires |blocks| < 0x8000_0000 && ReadBlocks(blocks, stof) == Some(us)
    requires Import(s, us, blocks, layer, inputId, weights) == Ok(e)
    ensures Import(ApplyAll(s, us).(yoloTensors := e.plugin.tensors), us, blocks, layer, inputId, weights)
         == Err(HeadCountMismatch)
  {
    var f := ApplyAll(s, us);
    var again := f.(yoloTensors := e.plugin.tensors);
    var p, q := SourceFor(s, us, blocks, layer, inputId), SourceFor(again, us, blocks, layer, inputId);
    ImportCounts(s, us, blocks, stof, layer, inputId, weights);
    HeadsFilled(p, |blocks|);
    InputAgain(s, us, e.plugin.tensors, inputId);
    TableAgain(s, us, blocks, stof, e.plugin.tensors);
    WiderRun(p, q, |blocks|);
  }

  /** On a new object the head table is never overrun, and the final count never disagrees. */
  lemma {:induction false} NewObjectAgrees(us: seq<Update>, blocks: seq<Block>, stof: string -> Option<Word>,
      layer: LayerFn, inputId: int, weights: nat)
    requires |blocks| < TWO_TO_THE_32 && ReadBlocks(blocks, stof) == Some(us)
    ensures var r := Import(FRESH, us, blocks, layer, inputId, weights);
      r != Err(HeadTableOverrun) && r != Err(HeadCountMismatch)
  {
    var p := SourceFor(FRESH, us, blocks, layer, inputId);
    PassesNeverOverrun(blocks, us, stof, layer, p.data, |blocks|);
    if p.Accepts(|blocks|) {
      TwoPassesAgree(blocks, us, stof, layer, p.data);
    } else {
      forall i | 0 <= i < |blocks| ensures p.code[i] != Err(HeadCountMismatch) {
        DecodeAllAt(blocks, i);
        DecodeErrors(blocks[i], i);
      }
      OnlyFinishCounts(p, |blocks|);
    }
  }

  /** No block is rejected for a wrong count of heads. */
  lemma {:induction false} OnlyFinishCounts(p: Source, n: nat)
    requires n <= |p.code| < TWO_TO_THE_32
    requires forall i :: 0 <= i < n ==> p.code[i] != Err(HeadCountMismatch)
    ensures p.Run(n) != Err(HeadCountMismatch)
  {
    if n > 0 {
      OnlyFinishCounts(p, n - 1);
    }
  }

  /** The final check passes exactly when the layers took all the weights that were loaded. */
  lemma {:induction false} WeightsConserved(f: Scanned, p: Source, weights: nat)
    requires p.Accepts(|p.code|) && weights < 0x8000_0000
    ensures var b := p.Run(|p.code|).value;
      && CallsKnown(p, b.network)
      && (Finish(f, b, weights) == Err(WeightsLeft) <==> Spent(p, b.network) != weights)
  {
    WeightsSpent(p, |p.code|);
    WrapOnce(weights);
  }

  /** From cfg text to plugin: an engine imported by a new object has the sizes that the cfg gives, one
      input and one described table entry for each head block, the output size of all its heads, and layers
      that took all the weights. */
  lemma {:induction false} EngineIsWhole(us: seq<Update>, blocks: seq<Block>, stof: string -> Option<Word>,
      layer: LayerFn, inputId: int, weights: nat, e: Engine)
    requires |blocks| < TWO_TO_THE_32 && ReadBlocks(blocks, stof) == Some(us) && weights < 0x8000_0000
    requires Import(FRESH, us, blocks, layer, inputId, weights) == Ok(e)
    ensures var heads := HeadIndices(blocks, |blocks|);
      && |e.inputs| == |e.plugin.tensors| == |heads|
      && forall k :: 0 <= k < |heads| ==> DescribesHead(e, k, blocks[heads[k]], heads[k], stof)
    ensures e.plugin.outputSize == Sum32(e.plugin.tensors, |e.plugin.tensors|)
    ensures PluginFrom(blocks, e.plugin)
    ensures var p := SourceFor(FRESH, us, blocks, layer, inputId);
      CallsOf(e.network, Layers(p.code, |blocks|)) && CallsKnown(p, e.network) && Spent(p, e.network) == weights
  {
    var p := SourceFor(FRESH, us, blocks, layer, inputId);
    TwoPassesAgree(blocks, us, stof, layer, p.data);
    WeightsSpent(p, |blocks|);
    WrapOnce(weights);
    SumFits(e.plugin.tensors, |e.plugin.tensors|);
    PluginSizes(us, blocks, stof, e.plugin.tensors, e.plugin.outputSize);
    var heads := HeadIndices(blocks, |blocks|);
    forall k | 0 <= k < |heads| ensures DescribesHead(e, k, blocks[heads[k]], heads[k], stof) {
      assert HeadBuilt(p, blocks, stof, k);
    }
  }

  /** The plugin has the sides of the input, the classes and the coordinates that the cfg gives. */
  predicate PluginFrom(blocks: seq<Block>, l: Layer) {
    var n := |blocks|;
    && FieldFrom(blocks, n, Net, "width", 0, l.netWidth) && FieldFrom(blocks, n, Net, "height", 0, l.netHeight)
    && FieldFrom(blocks, n, Head, "classes", 0, l.numClasses)
    && FieldFrom(blocks, n, Head, "new_coords", 0, l.newCoords)
  }

  lemma {:induction false} PluginSizes(us: seq<Update>, blocks: seq<Block>, stof: string -> Option<Word>,
      heads: seq<TensorInfo>, size: nat)
    requires ReadBlocks(blocks, stof) == Some(us)
    ensures PluginFrom(blocks, PluginOf(ApplyAll(FRESH, us), heads, size))
  {
    assert blocks[..|blocks|] == blocks;
    FieldsExact(FRESH, blocks, us, |blocks|, stof);
  }

  /** The input of the network has four dimensions, the last two of which are the height and the width that
      the cfg gives. */
  lemma {:induction false} InputFrom(us: seq<Update>, blocks: seq<Block>, stof: string -> Option<Word>, inputId: int)
      returns (h: Word, w: Word)
    requires ReadBlocks(blocks, stof) == Some(us)
    ensures Data(ApplyAll(FRESH, us), inputId) == Tensor(inputId, 4, ToInt32(h), ToInt32(w))
    ensures FieldFrom(blocks, |blocks|, Net, "height", 0, h) && FieldFrom(blocks, |blocks|, Net, "width", 0, w)
  {
    assert blocks[..|blocks|] == blocks;
    FieldsExact(FRESH, blocks, us, |blocks|, stof);
    h, w := ApplyAll(FRESH, us).inputH, ApplyAll(FRESH, us).inputW;
  }

  /** And an import succeeds exactly when all blocks are accepted, the layers take all the weights, the input
      has a width and a height, and there is a class and a box. */
  lemma {:induction false} ImportedExactly(us: seq<Update>, blocks: seq<Block>, stof: string -> Option<Word>,
      layer: LayerFn, inputId: int, weights: nat)
    requires |blocks| < TWO_TO_THE_32 && ReadBlocks(blocks, stof) == Some(us) && weights < 0x8000_0000
    ensures var p, f := SourceFor(FRESH, us, blocks, layer, inputId), ApplyAll(FRESH, us);
      Import(FRESH, us, blocks, layer, inputId, weights).Ok? <==>
        && p.Accepts(|blocks|)
        && var b := p.Run(|blocks|).value;
           && CallsKnown(p, b.network) && Spent(p, b.network) == weights
           && f.inputW > 0 && f.inputH > 0 && f.numClasses > 0 && Sum32(b.heads, |b.heads|) > 0
  {
    var p := SourceFor(FRESH, us, blocks, layer, inputId);
    if p.Accepts(|blocks|) {
      TwoPassesAgree(blocks, us, stof, layer, p.data);
      WeightsSpent(p, |blocks|);
      WrapOnce(weights);
    }
  }

  lemma {:induction false} SumFits(heads: seq<TensorInfo>, n: nat)
    requires n <= |heads| && n < TWO_TO_THE_32
    ensures Sum32(heads, n) % TWO_TO_THE_64 == Sum32(heads, n)
  {
    if n > 0 {
      NoCarry(Sum32(heads, n - 1), Cells32(heads[n - 1]), n - 1);
    }
  }

  /** Entry k of the head table is what block i says, with the grid of input k. */
  predicate DescribesHead(e: Engine, k: nat, b: Block, i: nat, stof: string -> Option<Word>) {
    && k < |e.inputs| && k < |e.plugin.tensors| && HeadOf(b, stof).Some? && "type" in b
    && IsEntry(e.plugin.tensors[k], HeadOf(b, stof).value, HeadName(b, i), e.inputs[k])
  }
}
