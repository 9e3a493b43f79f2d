/** The head table of the first pass and the second pass that fills it, and the weights that the layers
    take. */
module HeadAgreement {
  import opened Wrappers
  import opened Numbers
  import opened CfgParser
  import opened YoloTypes
  import opened HeadScan
  import opened NetworkBuilder
  import opened LayerNumbers

  predicate IsDetector(b: Result<Instr>) {
    b.Ok? && b.value.Detector?
  }

  /** The detection heads below n, in order. */
  function Detectors(code: Code, n: nat): (r: seq<nat>)
    requires n <= |code|
    ensures forall k :: 0 <= k < |r| ==> r[k] < n && IsDetector(code[r[k]])
  {
    if n == 0 then [] else Detectors(code, n - 1) + if IsDetector(code[n - 1]) then [n - 1] else []
  }

  /** Both passes see the same heads. */
  lemma {:induction false} SameHeads(blocks: seq<Block>, n: nat)
    requires n <= |blocks|
    ensures Detectors(DecodeAll(blocks), n) == HeadIndices(blocks, n)
  {
    if n > 0 {
      SameHeads(blocks, n - 1);
      DecodeAllAt(blocks, n - 1);
      DecodeKinds(blocks[n - 1], n - 1);
    }
  }

  lemma {:induction false} DetectorsGrow(code: Code, k: nat, n: nat)
    requires k <= n <= |code|
    ensures Detectors(code, k) <= Detectors(code, n)
  {
    if k < n {
      DetectorsGrow(code, k, n - 1);
    }
  }

  // ---------------------------------------------------------------- filling the head table

  /** A table entry: the numbers that the block gives, the blob name, and the grid of the tensor that is
      decoded, whose dimension 2 is its height and dimension 3 its width. */
  predicate IsEntry(t: TensorInfo, given: TensorInfo, name: string, input: Tensor) {
    && t.blobName == name && t.gridSizeY == ToWord(input.d2) && t.gridSizeX == ToWord(input.d3)
    && t.numBBoxes == given.numBBoxes && t.scaleXY == given.scaleXY
    && t.anchors == given.anchors && t.mask == given.mask
  }

  /** Entry k of the head table and of the plugin inputs, once the head in block i has been built. */
  predicate FilledAt(p: Source, s: Build, k: nat, i: nat) {
    && k < |p.heads| && k < |s.heads| && k < |s.headInputs|
    && i < |p.code| && IsDetector(p.code[i]) && p.Accepts(i)
    && s.headInputs[k] == p.Run(i).value.previous
    && IsEntry(s.heads[k], p.heads[k], p.code[i].value.name, s.headInputs[k])
  }

  lemma {:induction false} StepHeads(p: Source, n: nat)
    requires p.Accepts(n + 1) && p.Accepts(n)
    ensures var s, s', k := p.Run(n).value, p.Run(n + 1).value, |p.Run(n).value.headInputs|;
      if IsDetector(p.code[n]) then
        && k < |s.heads| && k < p.slots
        && s'.headInputs == s.headInputs + [s.previous]
        && s'.heads == s.heads[k := WithGrid(s.heads[k], p.code[n].value.name, s.previous)]
      else
        s'.headInputs == s.headInputs && s'.heads == s.heads
  {
  }

  /** Before block n the heads below n have filled their entries, in order, and no other entry has
      changed. */
  lemma {:induction false} HeadsFilled(p: Source, n: nat)
    requires p.Accepts(n)
    ensures var s, ds := p.Run(n).value, Detectors(p.code, n);
      && |s.headInputs| == |ds| <= |s.heads| == |p.heads| && |ds| <= p.slots
      && (forall k :: 0 <= k < |ds| ==> FilledAt(p, s, k, ds[k]))
      && (forall k :: |ds| <= k < |p.heads| ==> s.heads[k] == p.heads[k])
  {
    if n > 0 {
      AcceptsLess(p, n - 1, n);
      HeadsFilled(p, n - 1);
      StepHeads(p, n - 1);
      var s, s', ds := p.Run(n - 1).value, p.Run(n).value, Detectors(p.code, n - 1);
      forall k | 0 <= k < |ds| ensures FilledAt(p, s', k, ds[k]) {
        assert FilledAt(p, s, k, ds[k]);
      }
    }
  }

  /** With an entry and a slot for every head, no access to the table is out of bounds. */
  lemma {:induction false} NoOverrun(p: Source, n: nat)
    requires n <= |p.code| < TWO_TO_THE_32
    requires |Detectors(p.code, n)| <= |p.heads| && |Detectors(p.code, n)| <= p.slots
    requires forall i :: 0 <= i < n ==> p.code[i] != Err(HeadTableOverrun)
    ensures p.Run(n) != Err(HeadTableOverrun)
  {
    if n > 0 {
      NoOverrun(p, n - 1);
      if p.Run(n - 1).Ok? {
        HeadsFilled(p, n - 1);
      }
    }
  }

  lemma {:induction false} DecodeErrors(b: Block, i: nat)
    ensures Decode(b, i) != Err(HeadTableOverrun) && Decode(b, i) != Err(HeadCountMismatch)
  {
  }

  /** The build that follows a first pass over the same blocks, on an object in state s. */
  function SourceOf(s: Scanned, us: seq<Update>, blocks: seq<Block>, layer: LayerFn, data: Tensor): Source {
    Source(layer, ApplyAll(s, us).yoloCount, DecodeAll(blocks), data, ApplyAll(s, us).yoloTensors)
  }

  /** "yolo_" or "region_" and the number of the block. */
  function HeadName(b: Block, i: nat): string
    requires "type" in b
  {
    b["type"] + "_" + ShowNat(i)
  }

  /** Entry k of the finished head table: what head block k describes, named after the block, with the
      grid of the tensor before it. */
  predicate HeadBuilt(p: Source, blocks: seq<Block>, stof: string -> Option<Word>, k: nat)
    requires p.Accepts(|blocks|) && k < |HeadIndices(blocks, |blocks|)|
  {
    var s, i := p.Run(|blocks|).value, HeadIndices(blocks, |blocks|)[k];
    && p.Accepts(i) && k < |s.headInputs| && k < |s.heads|
    && HeadOf(blocks[i], stof).Some? && "type" in blocks[i]
    && s.headInputs[k] == p.Run(i).value.previous
    && IsEntry(s.heads[k], HeadOf(blocks[i], stof).value, HeadName(blocks[i], i), p.Run(i).value.previous)
  }

  /** What the first pass leaves on a new object. */
  lemma {:induction false} FreshTable(blocks: seq<Block>, us: seq<Update>, stof: string -> Option<Word>)
    requires |blocks| < TWO_TO_THE_32 && ReadBlocks(blocks, stof) == Some(us)
    ensures var hs, ts := HeadIndices(blocks, |blocks|), ApplyAll(FRESH, us).yoloTensors;
      && ApplyAll(FRESH, us).yoloCount == |hs| == |ts|
      && forall k :: 0 <= k < |hs| ==> HeadOf(blocks[hs[k]], stof) == Some(ts[k])
  {
    HeadTable(FRESH, us);
    assert FRESH.yoloTensors + Detected(us) == Detected(us);
    assert blocks[..|blocks|] == blocks;
    DetectedAre(blocks, us, |blocks|, stof);
    SmallCount(|Detected(us)|);
  }

  lemma {:induction false} SmallCount(n: nat)
    requires n < TWO_TO_THE_32
    ensures ToWord(FRESH.yoloCount + n) == n
  {
    WrapOnce(n);
  }

  /** The two passes agree: after a first pass on a new object no head overruns its table. */
  lemma {:induction false} PassesNeverOverrun(blocks: seq<Block>, us: seq<Update>, stof: string -> Option<Word>,
      layer: LayerFn, data: Tensor, n: nat)
    requires n <= |blocks| < TWO_TO_THE_32 && ReadBlocks(blocks, stof) == Some(us)
    ensures SourceOf(FRESH, us, blocks, layer, data).Run(n) != Err(HeadTableOverrun)
  {
    var p := SourceOf(FRESH, us, blocks, layer, data);
    FreshTable(blocks, us, stof);
    SameHeads(blocks, |blocks|);
    DetectorsGrow(p.code, n, |blocks|);
    forall i | 0 <= i < n ensures p.code[i] != Err(HeadTableOverrun) {
      DecodeAllAt(blocks, i);
      DecodeErrors(blocks[i], i);
    }
    NoOverrun(p, n);
  }

  /** And when all blocks are accepted, the number of heads built is the number counted, and entry k is
      what head block k describes, with the grid of the tensor that reaches that block. */
  lemma {:induction false} TwoPassesAgree(blocks: seq<Block>, us: seq<Update>, stof: string -> Option<Word>,
      layer: LayerFn, data: Tensor)
    requires |blocks| < TWO_TO_THE_32 && ReadBlocks(blocks, stof) == Some(us)
    requires SourceOf(FRESH, us, blocks, layer, data).Accepts(|blocks|)
    ensures var p := SourceOf(FRESH, us, blocks, layer, data);
      && |p.Run(|blocks|).value.headInputs| == p.slots == |HeadIndices(blocks, |blocks|)|
      && |p.Run(|blocks|).value.heads| == p.slots
      && forall k :: 0 <= k < |HeadIndices(blocks, |blocks|)| ==> HeadBuilt(p, blocks, stof, k)
  {
    var p := SourceOf(FRESH, us, blocks, layer, data);
    FreshTable(blocks, us, stof);
    SameHeads(blocks, |blocks|);
    HeadsFilled(p, |blocks|);
    forall k | 0 <= k < |HeadIndices(blocks, |blocks|)| ensures HeadBuilt(p, blocks, stof, k) {
      BuiltFromBlock(p, blocks, stof, k);
    }
  }

  lemma {:induction false} BuiltFromBlock(p: Source, blocks: seq<Block>, stof: string -> Option<Word>, k: nat)
    requires p.code == DecodeAll(blocks) && p.Accepts(|blocks|) && k < |HeadIndices(blocks, |blocks|)|
    requires var i := HeadIndices(blocks, |blocks|)[k];
      && FilledAt(p, p.Run(|blocks|).value, k, i)
      && HeadOf(blocks[i], stof) == Some(p.heads[k])
    ensures HeadBuilt(p, blocks, stof, k)
  {
    var i := HeadIndices(blocks, |blocks|)[k];
    DecodeAllAt(blocks, i);
    DetectorName(blocks[i], i);
  }

  lemma {:induction false} DetectorName(b: Block, i: nat)
    requires IsDetector(Decode(b, i))
    ensures "type" in b && Decode(b, i).value.name == HeadName(b, i)
  {
    NameOfHead(b, i);
  }

  lemma {:induction false} NameOfHead(b: Block, i: nat)
    requires HasKind(b, Head)
    ensures BlobName(b, i) == HeadName(b, i)
  {
    assert b["type"] == "yolo" || b["type"] == "region";
    assert "yolo" + "_" == "yolo_" && "region" + "_" == "region_";
  }

  /** What the first pass leaves on an object that has counted heads before. */
  lemma {:induction false} UsedCount(s: Scanned, us: seq<Update>, blocks: seq<Block>, stof: string -> Option<Word>)
    requires ReadBlocks(blocks, stof) == Some(us)
    ensures ApplyAll(s, us).yoloCount == ToWord(s.yoloCount + |HeadIndices(blocks, |blocks|)|)
  {
    HeadTable(s, us);
    assert blocks[..|blocks|] == blocks;
    DetectedAre(blocks, us, |blocks|, stof);
  }

  /** On an object that has counted heads before (a second createEngine), the first pass adds to them, and
      the counts then agree exactly when there were none. */
  lemma {:induction false} UsedObjectDisagrees(s: Scanned, us: seq<Update>, blocks: seq<Block>,
      stof: string -> Option<Word>, p: Source)
    requires |blocks| < TWO_TO_THE_32 && ReadBlocks(blocks, stof) == Some(us)
    requires p == SourceOf(s, us, blocks, p.layer, p.data) && p.Accepts(|blocks|)
    ensures |p.Run(|blocks|).value.headInputs| == |HeadIndices(blocks, |blocks|)|
    ensures |p.Run(|blocks|).value.headInputs| == p.slots <==> s.yoloCount == 0
  {
    UsedCount(s, us, blocks, stof);
    SameHeads(blocks, |blocks|);
    BuiltCount(p, |blocks|);
    SameCount(s.yoloCount, |HeadIndices(blocks, |blocks|)|);
  }

  /** No wrap-around brings the sum back. */
  lemma {:induction false} SameCount(before: Word, n: Word)
    ensures ToWord(before + n) == n <==> before == 0
  {
  }

  lemma {:induction false} BuiltCount(p: Source, n: nat)
    requires p.Accepts(n)
    ensures |p.Run(n).value.headInputs| == |Detectors(p.code, n)|
  {
    HeadsFilled(p, n);
  }

  // ---------------------------------------------------------------- a larger head table

  /** The same build with more entries and slots than it needs. */
  ghost predicate Widens(p: Source, q: Source) {
    && p.layer == q.layer && p.code == q.code && p.data == q.data
    && p.slots <= q.slots && |p.heads| <= |q.heads|
  }

  /** The two builds differ in their head tables only. */
  predicate SameBut(s: Build, t: Build) {
    && s.previous == t.previous && s.outs == t.outs && s.weightPtr == t.weightPtr
    && s.headInputs == t.headInputs && s.network == t.network && |s.heads| <= |t.heads|
  }

  lemma {:induction false} WiderStep(p: Source, q: Source, n: nat)
    requires Widens(p, q) && p.Accepts(n + 1) && p.Accepts(n) && q.Accepts(n)
    requires SameBut(p.Run(n).value, q.Run(n).value)
    ensures q.Accepts(n + 1) && SameBut(p.Run(n + 1).value, q.Run(n + 1).value)
  {
  }

  /** A larger table changes nothing else. */
  lemma {:induction false} WiderRun(p: Source, q: Source, n: nat)
    requires Widens(p, q) && p.Accepts(n)
    ensures q.Accepts(n) && SameBut(p.Run(n).value, q.Run(n).value)
  {
    if n > 0 {
      AcceptsLess(p, n - 1, n);
      WiderRun(p, q, n - 1);
      WiderStep(p, q, n - 1);
    }
  }

  // ---------------------------------------------------------------- weights

  predicate CallsKnown(p: Source, calls: seq<Call>) {
    forall c :: 0 <= c < |calls| ==> calls[c].block < |p.code| && p.code[calls[c].block].Ok?
  }

  /** The weights a call takes from the cursor. */
  function Taken(p: Source, c: Call): nat
    requires c.block < |p.code| && p.code[c.block].Ok?
  {
    if Weighted(p.code[c.block].value) then p.layer(c.block, c.inputs).used else 0
  }

  /** The weights taken by some calls. */
  function Spent(p: Source, calls: seq<Call>): nat
    requires CallsKnown(p, calls)
  {
    if calls == [] then 0 else Spent(p, calls[..|calls| - 1]) + Taken(p, calls[|calls| - 1])
  }

  lemma {:induction false} SpentOneMore(p: Source, calls: seq<Call>, c: Call)
    requires CallsKnown(p, calls) && c.block < |p.code| && p.code[c.block].Ok?
    ensures CallsKnown(p, calls + [c]) && Spent(p, calls + [c]) == Spent(p, calls) + Taken(p, c)
  {
    assert (calls + [c])[..|calls|] == calls;
  }

  /** The blocks below n that call a layer function, in order. */
  function Layers(code: Code, n: nat): (r: seq<nat>)
    requires n <= |code|
    ensures forall k :: 0 <= k < |r| ==> r[k] < n
  {
    if n == 0 then []
    else Layers(code, n - 1) + if CallsLayer(code[n - 1]) then [n - 1] else []
  }

  predicate CallsLayer(b: Result<Instr>) {
    !Silent(b) && !IsDetector(b)
  }

  lemma {:induction false} StepCallsNothing(p: Source, n: nat)
    requires p.Accepts(n + 1) && p.Accepts(n) && !CallsLayer(p.code[n])
    ensures p.Run(n + 1).value.network == p.Run(n).value.network
    ensures p.Run(n + 1).value.weightPtr == p.Run(n).value.weightPtr
  {
  }

  lemma {:induction false} StepCalls(p: Source, n: nat) returns (c: Call)
    requires p.Accepts(n + 1) && p.Accepts(n) && CallsLayer(p.code[n])
    ensures p.code[n].Ok? && c.block == n
    ensures Returned(p.layer, n, p.code[n].value, c.inputs).output == Some(c.output)
    ensures p.Run(n + 1).value.network == p.Run(n).value.network + [c]
    ensures p.Run(n + 1).value.weightPtr == p.Run(n).value.weightPtr + Taken(p, c)
  {
    var s := p.Run(n).value;
    c := AddLayer(p.layer, n, p.code[n].value, s.previous, s.outs).value.call;
  }

  /** The calls are those of the blocks bs, in order. */
  predicate CallsOf(calls: seq<Call>, bs: seq<nat>) {
    |calls| == |bs| && forall c :: 0 <= c < |calls| ==> calls[c].block == bs[c]
  }

  /** Every layer block below n has called its layer function once, in order, and the weight cursor is
      the sum of what the weighted ones took. */
  lemma {:induction false} WeightsSpent(p: Source, n: nat)
    requires p.Accepts(n)
    ensures CallsOf(p.Run(n).value.network, Layers(p.code, n))
    ensures CallsKnown(p, p.Run(n).value.network)
    ensures p.Run(n).value.weightPtr == Spent(p, p.Run(n).value.network)
  {
    if n > 0 {
      AcceptsLess(p, n - 1, n);
      WeightsSpent(p, n - 1);
      if CallsLayer(p.code[n - 1]) {
        var c := StepCalls(p, n - 1);
        SpentOneMore(p, p.Run(n - 1).value.network, c);
      } else {
        StepCallsNothing(p, n - 1);
      }
    }
  }
}
