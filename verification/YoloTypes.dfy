/** The data of yolo.h, and the layer kinds that yolo.cpp tells apart. */
module YoloTypes {
  import opened Wrappers
  import opened CfgParser

  /** struct TensorInfo; floats are their bit patterns. */
  datatype TensorInfo = TensorInfo(
    blobName: string,
    gridSizeX: Word,
    gridSizeY: Word,
    numBBoxes: Word,
    scaleXY: Word,
    anchors: seq<Word>,
    mask: seq<Int32>)

  /** The bit pattern of 1.0f. */
  const ONE_AS_FLOAT: Word := 0x3F80_0000

  datatype Kind =
    | Net | Conv | Deconv | BatchNorm | Implicit | Channels | Shortcut | Sam | Route | Upsample | Pool | Reorg
    | Head | Dropout | Unsupported

  /** The type names of the cfg format. */
  const KINDS: map<string, Kind> := map[
    "net" := Net,
    "conv" := Conv, "convolutional" := Conv,
    "deconv" := Deconv, "deconvolutional" := Deconv,
    "batchnorm" := BatchNorm,
    "implicit" := Implicit, "implicit_add" := Implicit, "implicit_mul" := Implicit,
    "shift_channels" := Channels, "control_channels" := Channels,
    "shortcut" := Shortcut,
    "sam" := Sam,
    "route" := Route,
    "upsample" := Upsample,
    "max" := Pool, "maxpool" := Pool, "avg" := Pool, "avgpool" := Pool,
    "reorg" := Reorg, "reorg3d" := Reorg,
    "yolo" := Head, "region" := Head,
    "dropout" := Dropout
  ]

  function KindOf(name: string): Kind {
    if name in KINDS then KINDS[name] else Unsupported
  }

  predicate HasKind(b: Block, kind: Kind) {
    "type" in b && KindOf(b["type"]) == kind
  }

  /** The indices below n of the blocks that are detection heads, in order. */
  function HeadIndices(blocks: seq<Block>, n: nat): (r: seq<nat>)
    requires n <= |blocks|
    ensures forall k :: 0 <= k < |r| ==> r[k] < n && HasKind(blocks[r[k]], Head)
    ensures forall j, k :: 0 <= j < k < |r| ==> r[j] < r[k]
    ensures forall i :: 0 <= i < n && HasKind(blocks[i], Head) ==> i in r
    ensures |r| <= n
  {
    if n == 0 then [] else HeadIndices(blocks, n - 1) + if HasKind(blocks[n - 1], Head) then [n - 1] else []
  }
}
