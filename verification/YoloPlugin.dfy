/** The detection plugin, and how it is stored in an engine file (yoloPlugins.cpp). */
module YoloPlugin {
  import opened Wrappers
  import opened Bytes
  import opened YoloTypes

  /** The fields of YoloLayer. */
  datatype Layer = Layer(
    netWidth: Word, netHeight: Word, numClasses: Word, newCoords: Word, outputSize: Word64, tensors: seq<TensorInfo>)

  // ---------------------------------------------------------------- the stored words

  function MaskWords(mask: seq<Int32>): (ws: seq<Word>)
    ensures |ws| == |mask|
    ensures forall i :: 0 <= i < |ws| ==> ws[i] == ToWord(mask[i])
  {
    seq(|mask|, i requires 0 <= i < |mask| => ToWord(mask[i]))
  }

  function TensorWords(t: TensorInfo): seq<Word> {
    [t.gridSizeX, t.gridSizeY, t.numBBoxes, t.scaleXY, ToWord(|t.anchors|)]
      + (t.anchors + ([ToWord(|t.mask|)] + MaskWords(t.mask)))
  }

  function TensorsWords(ts: seq<TensorInfo>): seq<Word> {
    if ts == [] then [] else TensorWords(ts[0]) + TensorsWords(ts[1..])
  }

  function HeaderWords(l: Layer): seq<Word> {
    [l.netWidth, l.netHeight, l.numClasses, l.newCoords,
     Low64(l.outputSize), High64(l.outputSize), ToWord(|l.tensors|)]
  }

  /** The two words of a 64-bit number. */
  function Low64(x: Word64): Word { x % TWO_TO_THE_32 }
  function High64(x: Word64): Word { x / TWO_TO_THE_32 }

  function Join64(low: Word, high: Word): Word64 {
    Shifted(low, high)
  }

  function Shifted(low: int, high: int): int {
    low + TWO_TO_THE_32 * high
  }

  lemma {:induction false} Join64Splits(x: Word64)
    ensures Join64(Low64(x), High64(x)) == x
  {
  }

  lemma {:induction false} HeaderAhead(l: Layer)
    ensures LayerWords(l) == [l.netWidth] + ([l.netHeight] + ([l.numClasses] + ([l.newCoords] + ([Low64(l.outputSize)]
      + ([High64(l.outputSize)] + ([ToWord(|l.tensors|)] + TensorsWords(l.tensors)))))))
  {
  }

  function LayerWords(l: Layer): seq<Word> {
    HeaderWords(l) + TensorsWords(l.tensors)
  }

  /** The order of the stored words. */
  lemma {:induction false} HeaderStored(l: Layer)
    ensures var ws := LayerWords(l);
      && |ws| == 7 + |TensorsWords(l.tensors)| && ws[7..] == TensorsWords(l.tensors)
      && ws[0] == l.netWidth && ws[1] == l.netHeight && ws[2] == l.numClasses && ws[3] == l.newCoords
      && ws[4] + TWO_TO_THE_32 * ws[5] == l.outputSize && ws[6] == ToWord(|l.tensors|)
  {
  }

  lemma {:induction false} TensorStored(t: TensorInfo)
    ensures var ws, n := TensorWords(t), |t.anchors|;
      && |ws| == 6 + n + |t.mask|
      && ws[0] == t.gridSizeX && ws[1] == t.gridSizeY && ws[2] == t.numBBoxes && ws[3] == t.scaleXY
      && ws[4] == ToWord(n) && ws[5..5 + n] == t.anchors
      && ws[5 + n] == ToWord(|t.mask|) && forall j :: 0 <= j < |t.mask| ==> ws[6 + n + j] == ToWord(t.mask[j])
  {
  }

  /** All counts fit in the 32 bits that they are stored in. */
  predicate Storable(l: Layer) {
    && |l.tensors| < TWO_TO_THE_32
    && forall i :: 0 <= i < |l.tensors| ==>
         |l.tensors[i].anchors| < TWO_TO_THE_32 && |l.tensors[i].mask| < TWO_TO_THE_32
  }

  /** A tensor as it is read back: blobName is not stored. */
  function Unnamed(t: TensorInfo): TensorInfo {
    t.(blobName := "")
  }

  function AllUnnamed(ts: seq<TensorInfo>): (r: seq<TensorInfo>)
    ensures |r| == |ts| && forall i :: 0 <= i < |ts| ==> r[i] == Unnamed(ts[i])
  {
    seq(|ts|, i requires 0 <= i < |ts| => Unnamed(ts[i]))
  }

  lemma {:induction false} TensorsWordsConcat(a: seq<TensorInfo>, b: seq<TensorInfo>)
    ensures TensorsWords(a + b) == TensorsWords(a) + TensorsWords(b)
  {
    if a == [] {
      assert a + b == b;
    } else {
      assert (a + b)[1..] == a[1..] + b;
      TensorsWordsConcat(a[1..], b);
    }
  }

  // ---------------------------------------------------------------- writing

  /** The bytes before d are the words ws. */
  predicate Holds(buffer: array<Byte>, d: nat, ws: seq<Word>)
    reads buffer
  {
    d == 4 * |ws| && d <= buffer.Length && buffer[..d] == WordsBytes(ws)
  }

  /** write(d, val): the bytes at d, and the moved pointer. */
  method WriteWord(buffer: array<Byte>, d: nat, w: Word, ghost ws: seq<Word>) returns (d': nat)
    requires Holds(buffer, d, ws) && d + 4 <= buffer.Length
    modifies buffer
    ensures Holds(buffer, d', ws + [w])
  {
    ghost var before := buffer[..d];
    var b := WordBytes(w);
    buffer[d], buffer[d + 1], buffer[d + 2], buffer[d + 3] := b[0], b[1], b[2], b[3];
    assert buffer[..d] == before;
    assert buffer[d..d + 4] == b;
    assert buffer[..d + 4] == buffer[..d] + buffer[d..d + 4];
    assert (ws + [w])[..|ws|] == ws;
    d' := d + 4;
  }

  /** The loops over anchors and mask. */
  method WriteWords(buffer: array<Byte>, d: nat, words: seq<Word>, ghost ws: seq<Word>) returns (d': nat)
    requires Holds(buffer, d, ws) && d + 4 * |words| <= buffer.Length
    modifies buffer
    ensures Holds(buffer, d', ws + words)
  {
    d' := d;
    assert ws + words[..0] == ws;
    for j := 0 to |words|
      invariant Holds(buffer, d', ws + words[..j])
    {
      d' := WriteWord(buffer, d', words[j], ws + words[..j]);
      assert ws + words[..j] + [words[j]] == ws + words[..j + 1];
    }
    assert words[..|words|] == words;
  }

  method WriteTensor(buffer: array<Byte>, d: nat, t: TensorInfo, ghost ws: seq<Word>) returns (d': nat)
    requires Holds(buffer, d, ws) && d + 4 * |TensorWords(t)| <= buffer.Length
    modifies buffer
    ensures Holds(buffer, d', ws + TensorWords(t))
  {
    ghost var n, m := ToWord(|t.anchors|), ToWord(|t.mask|);
    d' := WriteWord(buffer, d, t.gridSizeX, ws);
    d' := WriteWord(buffer, d', t.gridSizeY, ws + [t.gridSizeX]);
    d' := WriteWord(buffer, d', t.numBBoxes, ws + [t.gridSizeX] + [t.gridSizeY]);
    d' := WriteWord(buffer, d', t.scaleXY, ws + [t.gridSizeX] + [t.gridSizeY] + [t.numBBoxes]);
    ghost var done := ws + [t.gridSizeX] + [t.gridSizeY] + [t.numBBoxes] + [t.scaleXY];
    d' := WriteWord(buffer, d', ToWord(|t.anchors|), done);
    d' := WriteWords(buffer, d', t.anchors, done + [n]);
    d' := WriteWord(buffer, d', ToWord(|t.mask|), done + [n] + t.anchors);
    d' := WriteWords(buffer, d', MaskWords(t.mask), done + [n] + t.anchors + [m]);
    TensorAppended(ws, t);
  }

  lemma {:induction false} TensorAppended(ws: seq<Word>, t: TensorInfo)
    ensures ws + TensorWords(t)
         == ws + [t.gridSizeX] + [t.gridSizeY] + [t.numBBoxes] + [t.scaleXY] + [ToWord(|t.anchors|)]
              + t.anchors + [ToWord(|t.mask|)] + MaskWords(t.mask)
  {
  }

  lemma {:induction false} TensorsWordsLast(ts: seq<TensorInfo>, t: TensorInfo)
    ensures TensorsWords(ts + [t]) == TensorsWords(ts) + TensorWords(t)
  {
    TensorsWordsConcat(ts, [t]);
    assert [t][1..] == [];
    assert TensorsWords([t]) == TensorWords(t) + [];
  }

  lemma {:induction false} OneMoreTensor(ts: seq<TensorInfo>, i: nat)
    requires i < |ts|
    ensures TensorsWords(ts[..i + 1]) == TensorsWords(ts[..i]) + TensorWords(ts[i])
    ensures |TensorsWords(ts[..i + 1])| <= |TensorsWords(ts)|
  {
    assert ts[..i + 1] == ts[..i] + [ts[i]];
    TensorsWordsLast(ts[..i], ts[i]);
    assert ts == ts[..i + 1] + ts[i + 1..];
    TensorsWordsConcat(ts[..i + 1], ts[i + 1..]);
  }

  lemma {:induction false} Regroup(a: seq<Word>, b: seq<Word>, c: seq<Word>)
    ensures a + b + c == a + (b + c) && |a + b| + |c| == |a| + |b + c|
  {
  }

  lemma {:induction false} TensorFits(header: seq<Word>, ts: seq<TensorInfo>, i: nat)
    requires i < |ts|
    ensures header + TensorsWords(ts[..i]) + TensorWords(ts[i]) == header + TensorsWords(ts[..i + 1])
    ensures |header + TensorsWords(ts[..i])| + |TensorWords(ts[i])| <= |header| + |TensorsWords(ts)|
  {
    OneMoreTensor(ts, i);
    Regroup(header, TensorsWords(ts[..i]), TensorWords(ts[i]));
  }

  method WriteTensors(buffer: array<Byte>, start: nat, ts: seq<TensorInfo>, ghost header: seq<Word>)
    requires Holds(buffer, start, header) && 4 * (|header| + |TensorsWords(ts)|) <= buffer.Length
    modifies buffer
    ensures Holds(buffer, 4 * (|header| + |TensorsWords(ts)|), header + TensorsWords(ts))
  {
    var d := start;
    assert ts[..0] == [] && header + [] == header;
    for i := 0 to |ts|
      invariant Holds(buffer, d, header + TensorsWords(ts[..i]))
    {
      TensorFits(header, ts, i);
      d := WriteTensor(buffer, d, ts[i], header + TensorsWords(ts[..i]));
    }
    assert ts[..|ts|] == ts;
  }

  // ---------------------------------------------------------------- reading

  /** The bytes from d on are the words ws. */
  predicate Ahead(data: array<Byte>, d: nat, ws: seq<Word>)
    reads data
  {
    d + 4 * |ws| == data.Length && data[d..] == WordsBytes(ws)
  }

  /** read(d, val), where the next word is w. */
  method ReadWord(data: array<Byte>, d: nat, ghost w: Word, ghost rest: seq<Word>) returns (r: Word, d': nat)
    requires Ahead(data, d, [w] + rest)
    ensures r == w && d' == d + 4 && Ahead(data, d', rest)
  {
    FirstWord(w, rest);
    assert data[d..d + 4] == data[d..][..4] == WordBytes(w);
    assert data[d + 4..] == data[d..][4..] == WordsBytes(rest);
    r, d' := WordOf(data[d..d + 4]), d + 4;
    WordRoundTrip(w);
  }

  /** The loop over n words. */
  method ReadWords(data: array<Byte>, d: nat, n: nat, ghost words: seq<Word>, ghost rest: seq<Word>)
    returns (r: seq<Word>, d': nat)
    requires n == |words| && Ahead(data, d, words + rest)
    ensures r == words && d' == d + 4 * n && Ahead(data, d', rest)
  {
    r, d' := [], d;
    assert words[0..] == words;
    for j := 0 to n
      invariant r == words[..j] && d' == d + 4 * j && Ahead(data, d', words[j..] + rest)
    {
      var w;
      assert words[j..] + rest == [words[j]] + (words[j + 1..] + rest);
      w, d' := ReadWord(data, d', words[j], words[j + 1..] + rest);
      r := r + [w];
    }
    assert words[n..] + rest == rest;
  }

  /** The loop over the mask, whose words are converted to int. */
  method ReadMask(data: array<Byte>, d: nat, n: nat, ghost mask: seq<Int32>, ghost rest: seq<Word>)
    returns (r: seq<Int32>, d': nat)
    requires n == |mask| && Ahead(data, d, MaskWords(mask) + rest)
    ensures r == mask && d' == d + 4 * n && Ahead(data, d', rest)
  {
    var words;
    words, d' := ReadWords(data, d, n, MaskWords(mask), rest);
    r := [];
    for j := 0 to n
      invariant r == mask[..j]
    {
      ConversionsAgree(mask[j]);
      r := r + [ToInt32(words[j])];
    }
  }

  method ReadTensor(data: array<Byte>, d: nat, ghost t: TensorInfo, ghost rest: seq<Word>)
    returns (r: TensorInfo, d': nat)
    requires Ahead(data, d, TensorWords(t) + rest)
    requires |t.anchors| < TWO_TO_THE_32 && |t.mask| < TWO_TO_THE_32
    ensures r == Unnamed(t) && Ahead(data, d', rest)
  {
    ghost var n, m := ToWord(|t.anchors|), ToWord(|t.mask|);
    ghost var afterMask := MaskWords(t.mask) + rest;
    ghost var afterAnchors := [m] + afterMask;
    ghost var afterScale := [n] + (t.anchors + afterAnchors);
    TensorAhead(t, rest);
    WrapOnce(|t.anchors|);
    WrapOnce(|t.mask|);
    var x, y, boxes, scale, anchorsSize, maskSize, anchors, mask;
    x, d' := ReadWord(data, d, t.gridSizeX, [t.gridSizeY] + ([t.numBBoxes] + ([t.scaleXY] + afterScale)));
    y, d' := ReadWord(data, d', t.gridSizeY, [t.numBBoxes] + ([t.scaleXY] + afterScale));
    boxes, d' := ReadWord(data, d', t.numBBoxes, [t.scaleXY] + afterScale);
    scale, d' := ReadWord(data, d', t.scaleXY, afterScale);
    anchorsSize, d' := ReadWord(data, d', n, t.anchors + afterAnchors);
    anchors, d' := ReadWords(data, d', anchorsSize, t.anchors, afterAnchors);
    maskSize, d' := ReadWord(data, d', m, afterMask);
    mask, d' := ReadMask(data, d', maskSize, t.mask, rest);
    r := TensorInfo("", x, y, boxes, scale, anchors, mask);
  }

  lemma {:induction false} TensorAhead(t: TensorInfo, rest: seq<Word>)
    ensures TensorWords(t) + rest
         == [t.gridSizeX] + ([t.gridSizeY] + ([t.numBBoxes] + ([t.scaleXY] + ([ToWord(|t.anchors|)]
              + (t.anchors + ([ToWord(|t.mask|)] + (MaskWords(t.mask) + rest)))))))
  {
  }

  method ReadHeader(data: array<Byte>, ghost l: Layer)
    returns (netWidth: Word, netHeight: Word, numClasses: Word, newCoords: Word, outputSize: Word64, size: Word, d: nat)
    requires Ahead(data, 0, LayerWords(l)) && |l.tensors| < TWO_TO_THE_32
    ensures netWidth == l.netWidth && netHeight == l.netHeight && numClasses == l.numClasses
    ensures newCoords == l.newCoords && outputSize == l.outputSize && size == |l.tensors|
    ensures Ahead(data, d, TensorsWords(l.tensors))
  {
    ghost var rest := TensorsWords(l.tensors);
    ghost var afterSize := [ToWord(|l.tensors|)] + rest;
    ghost var sizes := [Low64(l.outputSize)] + ([High64(l.outputSize)] + afterSize);
    HeaderAhead(l);
    netWidth, d := ReadWord(data, 0, l.netWidth, [l.netHeight] + ([l.numClasses] + ([l.newCoords] + sizes)));
    netHeight, d := ReadWord(data, d, l.netHeight, [l.numClasses] + ([l.newCoords] + sizes));
    numClasses, d := ReadWord(data, d, l.numClasses, [l.newCoords] + sizes);
    newCoords, d := ReadWord(data, d, l.newCoords, sizes);
    outputSize, d := ReadWord64(data, d, l.outputSize, afterSize);
    size, d := ReadWord(data, d, ToWord(|l.tensors|), rest);
    WrapOnce(|l.tensors|);
  }

  /** read(d, val) for a 64-bit number. */
  method ReadWord64(data: array<Byte>, d: nat, ghost x: Word64, ghost rest: seq<Word>) returns (r: Word64, d': nat)
    requires Ahead(data, d, [Low64(x)] + ([High64(x)] + rest))
    ensures r == x && Ahead(data, d', rest)
  {
    var low, high;
    low, d' := ReadWord(data, d, Low64(x), [High64(x)] + rest);
    high, d' := ReadWord(data, d', High64(x), rest);
    r := Join64(low, high);
    Join64Splits(x);
  }

  /** The loop over the tensors. */
  method ReadTensors(data: array<Byte>, start: nat, n: nat, ghost ts: seq<TensorInfo>)
      returns (tensors: seq<TensorInfo>)
    requires n == |ts| && Ahead(data, start, TensorsWords(ts))
    requires forall i :: 0 <= i < |ts| ==> |ts[i].anchors| < TWO_TO_THE_32 && |ts[i].mask| < TWO_TO_THE_32
    ensures tensors == AllUnnamed(ts)
  {
    var d := start;
    tensors := [];
    assert ts[0..] == ts;
    for i := 0 to n
      invariant tensors == AllUnnamed(ts[..i]) && Ahead(data, d, TensorsWords(ts[i..]))
    {
      var t;
      assert ts[i..][1..] == ts[i + 1..];
      t, d := ReadTensor(data, d, ts[i], TensorsWords(ts[i + 1..]));
      tensors := tensors + [t];
    }
    assert ts[..n] == ts;
  }

  // ---------------------------------------------------------------- the plugin

  class YoloLayer {
    var netWidth: Word
    var netHeight: Word
    var numClasses: Word
    var newCoords: Word
    var tensors: seq<TensorInfo>
    var outputSize: Word64

    function Value(): Layer
      reads this
    {
      Layer(netWidth, netHeight, numClasses, newCoords, outputSize, tensors)
    }

    constructor (l: Layer)
      ensures Value() == l
    {
      netWidth, netHeight, numClasses, newCoords := l.netWidth, l.netHeight, l.numClasses, l.newCoords;
      tensors, outputSize := l.tensors, l.outputSize;
    }

    /** Reading the stored words of a layer gives the layer back, save for the blob names. */
    constructor FromBytes(data: array<Byte>, ghost l: Layer)
      requires Storable(l) && data[..] == WordsBytes(LayerWords(l))
      ensures Value() == l.(tensors := AllUnnamed(l.tensors))
    {
      netWidth, netHeight, numClasses, newCoords, tensors, outputSize := 0, 0, 0, 0, [], 0;
      new;
      var d, size;
      assert data[0..] == data[..];
      netWidth, netHeight, numClasses, newCoords, outputSize, size, d := ReadHeader(data, l);
      tensors := ReadTensors(data, d, size, l.tensors);
    }

    /** serialize fills the first bytes of the buffer with the stored words. */
    method Serialize(buffer: array<Byte>)
      requires Storable(Value()) && 4 * |LayerWords(Value())| <= buffer.Length
      modifies buffer
      ensures Holds(buffer, 4 * |LayerWords(Value())|, LayerWords(Value()))
    {
      ghost var l := Value();
      ghost var ws: seq<Word> := [];
      var d := WriteWord(buffer, 0, netWidth, []);
      d := WriteWord(buffer, d, netHeight, [] + [netWidth]);
      d := WriteWord(buffer, d, numClasses, [] + [netWidth] + [netHeight]);
      d := WriteWord(buffer, d, newCoords, [] + [netWidth] + [netHeight] + [numClasses]);
      ws := [] + [netWidth] + [netHeight] + [numClasses] + [newCoords];
      d := WriteWord(buffer, d, Low64(outputSize), ws);
      d := WriteWord(buffer, d, High64(outputSize), ws + [Low64(outputSize)]);
      d := WriteWord(buffer, d, ToWord(|tensors|), ws + [Low64(outputSize)] + [High64(outputSize)]);
      assert ws + [Low64(outputSize)] + [High64(outputSize)] + [ToWord(|tensors|)] == HeaderWords(l);
      WriteTensors(buffer, d, tensors, HeaderWords(l));
    }

    /** getSerializationSize is the number of bytes that serialize writes. */
    method GetSerializationSize() returns (size: nat)
      ensures size == 4 * |LayerWords(Value())|
    {
      size := 4 + 4 + 4 + 4 + 8;
      size := size + 4;
      for i := 0 to |tensors|
        invariant size == 28 + 4 * |TensorsWords(tensors[..i])|
      {
        OneMoreTensor(tensors, i);
        size := size + 4 + 4 + 4 + 4;
        size := size + 4 + 4 * |tensors[i].anchors|;
        size := size + 4 + 4 * |tensors[i].mask|;
      }
      assert tensors[..|tensors|] == tensors;
    }
  }

  /** A plugin that is stored in a buffer of the announced size and read back is the same plugin, save
      for the blob names. */
  method StoreAndLoad(plugin: YoloLayer) returns (copy: YoloLayer)
    requires Storable(plugin.Value())
    ensures copy.Value() == plugin.Value().(tensors := AllUnnamed(plugin.Value().tensors))
  {
    var size := plugin.GetSerializationSize();
    var buffer := new Byte[size];
    ghost var l := plugin.Value();
    plugin.Serialize(buffer);
    assert buffer[..] == buffer[..size];
    copy := new YoloLayer.FromBytes(buffer, l);
  }
}
