/** The first pass over the blocks: Yolo::parseConfigBlocks (yolo.cpp), block by block. */
module HeadScan {
  import opened Wrappers
  import opened Text
  import opened Numbers
  import opened CfgParser
  import opened YoloTypes

  // ---------------------------------------------------------------- comma lists

  /** All pieces read, or None when one of them is rejected. */
  function ReadAll<T>(ps: seq<string>, read: string -> Option<T>): Option<seq<T>> {
    if ps == [] then Some([])
    else match read(Trim(ps[0]))
      case None => None
      case Some(x) =>
        match ReadAll(ps[1..], read)
        case None => None
        case Some(xs) => Some([x] + xs)
  }

  /** A list is read exactly when each of its pieces is, and then value i is what piece i gives. */
  lemma {:induction false} ReadAllExactly<T>(ps: seq<string>, read: string -> Option<T>)
    ensures ReadAll(ps, read).Some? <==> forall i :: 0 <= i < |ps| ==> read(Trim(ps[i])).Some?
    ensures ReadAll(ps, read).Some? ==>
      && |ReadAll(ps, read).value| == |ps|
      && forall i :: 0 <= i < |ps| ==> read(Trim(ps[i])) == Some(ReadAll(ps, read).value[i])
  {
    if ps != [] {
      ReadAllExactly(ps[1..], read);
      assert read(Trim(ps[0])).None? ==> exists i :: 0 <= i < |ps| && read(Trim(ps[i])).None?;
      forall i | 0 <= i < |ps| ensures i > 0 ==> ps[i] == ps[1..][i - 1] {
      }
    }
  }

  ghost function Prepend<T>(xs: seq<T>, ys: Option<seq<T>>): Option<seq<T>> {
    match ys case None => None case Some(zs) => Some(xs + zs)
  }

  lemma {:induction false} PrependNothing<T>(ys: Option<seq<T>>)
    ensures Prepend([], ys) == ys
  {
    assert ys.Some? ==> [] + ys.value == ys.value;
  }

  lemma {:induction false} PrependEnd<T>(xs: seq<T>)
    ensures Prepend(xs, Some([])) == Some(xs)
  {
    assert xs + [] == xs;
  }

  lemma {:induction false} PrependOne<T>(xs: seq<T>, x: T, ys: Option<seq<T>>)
    ensures Prepend(xs, Prepend([x], ys)) == Prepend(xs + [x], ys)
  {
    assert ys.Some? ==> xs + ([x] + ys.value) == (xs + [x]) + ys.value;
  }

  /** The loop that reads anchors, and the one that reads the mask. */
  method ReadList<T>(text: string, read: string -> Option<T>) returns (r: Option<seq<T>>)
    ensures r == ReadAll(Pieces(text, ','), read)
  {
    var list := text;
    var xs: seq<T> := [];
    PrependNothing(ReadAll(Pieces(text, ','), read));
    while list != ""
      invariant ReadAll(Pieces(text, ','), read)
             == Prepend(xs, ReadAll(Pieces(list, ','), read))
      decreases |list|
    {
      ghost var ps := Pieces(list, ',');
      var npos := Find(list, ',');
      assert npos == |list| ==> list[..npos] == list && ps[1..] == [];
      if npos < |list| {
        assert ps[1..] == Pieces(list[npos + 1..], ',');
        var x := read(Trim(list[..npos]));
        if x.None? { return None; }
        PrependOne(xs, x.value, ReadAll(ps[1..], read));
        xs := xs + [x.value];
        list := list[npos + 1..];
      } else {
        var x := read(Trim(list));
        if x.None? { return None; }
        assert ReadAll(ps[1..], read) == Some([]);
        PrependOne(xs, x.value, Some([]));
        PrependEnd(xs + [x.value]);
        xs := xs + [x.value];
        return Some(xs);
      }
    }
    PrependEnd(xs);
    r := Some(xs);
  }

  /** int mask = std::stoul(...) */
  function ReadMask(s: string): Option<Int32> {
    match Stoul(s) case None => None case Some(v) => Some(ToInt32(v))
  }

  function ShowAll(ns: seq<nat>): (ps: seq<string>)
    ensures |ps| == |ns|
    ensures forall i :: 0 <= i < |ps| ==> ps[i] == ShowNat(ns[i])
  {
    if ns == [] then [] else [ShowNat(ns[0])] + ShowAll(ns[1..])
  }

  /** 64-bit numbers written with commas are read back as that list, each converted to an int. */
  lemma {:induction false} MaskRoundTrip(ns: seq<nat>)
    requires forall i :: 0 <= i < |ns| ==> ns[i] < TWO_TO_THE_64
    ensures var r := ReadAll(Pieces(Join(ShowAll(ns), ','), ','), ReadMask);
      r.Some? && |r.value| == |ns| && forall i :: 0 <= i < |ns| ==> r.value[i] == ToInt32(ns[i])
  {
    PiecesOfJoin(ShowAll(ns), ',');
    ReadAllExactly(ShowAll(ns), ReadMask);
    forall i | 0 <= i < |ns| ensures ReadMask(Trim(ShowAll(ns)[i])) == Some(ToInt32(ns[i])) {
      StoulShow(ns[i]);
    }
  }

  // ---------------------------------------------------------------- one block

  /** std::stoul(block.at(key)), stored in a 32-bit unsigned int. */
  function Field(b: Block, key: string): Option<Word> {
    if key !in b then None
    else match Stoul(b[key]) case None => None case Some(v) => Some(ToWord(v))
  }

  /** The same for a key that may be absent: the inner None says that it is. */
  function FieldIfAny(b: Block, key: string): Option<Option<Word>> {
    if key !in b then Some(None)
    else match Field(b, key) case None => None case Some(v) => Some(Some(v))
  }

  function MaskOf(b: Block): Option<seq<Int32>> {
    if "mask" in b then ReadAll(Pieces(b["mask"], ','), ReadMask) else Some([])
  }

  function ScaleOf(b: Block, stof: string -> Option<Word>): Option<Word> {
    if "scale_x_y" in b then stof(b["scale_x_y"]) else Some(ONE_AS_FLOAT)
  }

  /** mask.size() when there is a mask, and otherwise "num". */
  function BoxCount(b: Block, mask: seq<Int32>): Option<Word>
    requires "num" in b
  {
    if |mask| > 0 then Some(ToWord(|mask|))
    else match Stoul(Trim(b["num"])) case None => None case Some(v) => Some(ToWord(v))
  }

  /** The tensor a head block describes; None when the block is rejected. */
  function HeadOf(b: Block, stof: string -> Option<Word>): Option<TensorInfo> {
    if "num" !in b || "classes" !in b || "anchors" !in b then None
    else
      var anchors := ReadAll(Pieces(b["anchors"], ','), stof);
      var mask := MaskOf(b);
      var scale := ScaleOf(b, stof);
      if anchors.None? || mask.None? || scale.None? then None
      else match BoxCount(b, mask.value)
        case None => None
        case Some(boxes) => Some(TensorInfo("", 0, 0, boxes, scale.value, anchors.value, mask.value))
  }

  method ReadHead(b: Block, stof: string -> Option<Word>) returns (r: Option<TensorInfo>)
    requires "num" in b && "classes" in b && "anchors" in b
    ensures r == HeadOf(b, stof)
  {
    var anchors := ReadList(b["anchors"], stof);
    if anchors.None? { return None; }
    var mask := Some([]);
    if "mask" in b {
      mask := ReadList(b["mask"], ReadMask);
      if mask.None? { return None; }
    }
    var scale := ScaleOf(b, stof);
    if scale.None? { return None; }
    var boxes := BoxCount(b, mask.value);
    if boxes.None? { return None; }
    r := Some(TensorInfo("", 0, 0, boxes.value, scale.value, anchors.value, mask.value));
  }

  lemma {:induction false} HeadFields(b: Block, stof: string -> Option<Word>)
    requires HeadOf(b, stof).Some?
    ensures "num" in b && MaskOf(b) == Some(HeadOf(b, stof).value.mask)
    ensures BoxCount(b, HeadOf(b, stof).value.mask) == Some(HeadOf(b, stof).value.numBBoxes)
  {
  }

  lemma {:induction false} BoxesOfMask(b: Block, mask: seq<Int32>)
    requires "num" in b && 0 < |mask| < TWO_TO_THE_32
    ensures BoxCount(b, mask) == Some(|mask|)
  {
  }

  /** With a mask that was written as a list, the number of boxes is its length, whatever "num" says. */
  lemma {:induction false} MaskLength(b: Block, ns: seq<nat>, stof: string -> Option<Word>)
    requires forall i :: 0 <= i < |ns| ==> ns[i] < 0x8000_0000
    requires 0 < |ns| < TWO_TO_THE_32
    requires "mask" in b && b["mask"] == Join(ShowAll(ns), ',')
    requires HeadOf(b, stof).Some?
    ensures HeadOf(b, stof).value.mask == ns && HeadOf(b, stof).value.numBBoxes == |ns|
  {
    HeadFields(b, stof);
    MaskRoundTrip(ns);
    forall i | 0 <= i < |ns| ensures ToInt32(ns[i]) == ns[i] {
      WrapOnce(ns[i]);
    }
    BoxesOfMask(b, HeadOf(b, stof).value.mask);
  }

  /** The list stands under the key: a value for each piece between commas. */
  predicate IsListOf<T(==)>(b: Block, key: string, xs: seq<T>, read: string -> Option<T>)
    requires key in b
  {
    var ps := Pieces(b[key], ',');
    |xs| == |ps| && forall i :: 0 <= i < |ps| ==> read(Trim(ps[i])) == Some(xs[i])
  }

  /** What the keys of a head block mean: "anchors" and "mask" are lists, the mask may be absent,
      "scale_x_y" is 1.0 by default, and "num" counts when there is no mask. */
  predicate MeansHead(b: Block, stof: string -> Option<Word>, t: TensorInfo) {
    && "num" in b && "classes" in b && "anchors" in b
    && IsListOf(b, "anchors", t.anchors, stof)
    && (if "mask" in b then IsListOf(b, "mask", t.mask, ReadMask) else t.mask == [])
    && (if "scale_x_y" in b then stof(b["scale_x_y"]) == Some(t.scaleXY) else t.scaleXY == 0x3F80_0000)
    && (if t.mask == [] then Stoul(Trim(b["num"])).Some? && t.numBBoxes == ToWord(Stoul(Trim(b["num"])).value)
        else t.numBBoxes == ToWord(|t.mask|))
    && t.blobName == "" && t.gridSizeX == 0 && t.gridSizeY == 0
  }

  /** A head block is accepted exactly when its keys mean a head, and then gives that head. */
  lemma {:induction false} HeadExactly(b: Block, stof: string -> Option<Word>, t: TensorInfo)
    ensures HeadOf(b, stof) == Some(t) <==> MeansHead(b, stof, t)
  {
    if "anchors" in b { ListExactly(b, "anchors", t.anchors, stof); }
    if "mask" in b { ListExactly(b, "mask", t.mask, ReadMask); }
  }

  lemma {:induction false} ListExactly<T>(b: Block, key: string, xs: seq<T>, read: string -> Option<T>)
    requires key in b
    ensures ReadAll(Pieces(b[key], ','), read) == Some(xs) <==> IsListOf(b, key, xs, read)
  {
    var ps := Pieces(b[key], ',');
    var r := ReadAll(ps, read);
    ReadAllExactly(ps, read);
    if IsListOf(b, key, xs, read) {
      forall i | 0 <= i < |ps| ensures r.Some? ==> r.value[i] == xs[i] {
        assert read(Trim(ps[i])) == Some(xs[i]);
      }
      assert r.Some? && r.value == xs;
    }
  }

  // ---------------------------------------------------------------- all blocks

  /** The fields of Yolo that the pass writes. */
  datatype Scanned = Scanned(
    inputC: Word, inputH: Word, inputW: Word, inputSize: Word,
    numClasses: Word, letterBox: Word, newCoords: Word, yoloCount: Word,
    yoloTensors: seq<TensorInfo>)

  /** The fields as the constructor leaves them. */
  const FRESH: Scanned := Scanned(0, 0, 0, 0, 0, 0, 0, 0, [])

  /** What one block says: nothing, the input of the network, or a detection head. */
  datatype Update =
    | Nothing
    | Input(c: Word, h: Word, w: Word, letterBox: Option<Word>)
    | Detect(classes: Word, newCoords: Option<Word>, head: TensorInfo)

  function ReadNet(b: Block): Option<Update> {
    match (Field(b, "channels"), Field(b, "height"), Field(b, "width"), FieldIfAny(b, "letter_box"))
    case (Some(c), Some(h), Some(w), Some(l)) => Some(Input(c, h, w, l))
    case _ => None
  }

  function ReadDetect(b: Block, stof: string -> Option<Word>): Option<Update> {
    match (Field(b, "classes"), FieldIfAny(b, "new_coords"), HeadOf(b, stof))
    case (Some(classes), Some(coords), Some(head)) => Some(Detect(classes, coords, head))
    case _ => None
  }

  /** None: the block is rejected, by an assert or an exception. */
  function ReadBlock(b: Block, stof: string -> Option<Word>): Option<Update> {
    if "type" !in b then None
    else match KindOf(b["type"])
      case Net => ReadNet(b)
      case Head => ReadDetect(b, stof)
      case _ => Some(Nothing)
  }

  function ReadBlocks(blocks: seq<Block>, stof: string -> Option<Word>): (r: Option<seq<Update>>)
    ensures r.Some? ==> |r.value| == |blocks|
  {
    if blocks == [] then Some([])
    else match (ReadBlocks(blocks[..|blocks| - 1], stof), ReadBlock(blocks[|blocks| - 1], stof))
      case (Some(us), Some(u)) => Some(us + [u])
      case _ => None
  }

  /** m_InputC * m_InputH * m_InputW, a 32-bit product. */
  function Volume(c: int, h: int, w: int): Word {
    ToWord(c * h * w)
  }

  function OrElse(x: Option<Word>, default: Word): Word {
    if x.Some? then x.value else default
  }

  function Apply(s: Scanned, u: Update): Scanned {
    match u
    case Nothing => s
    case Input(c, h, w, l) =>
      s.(inputC := c, inputH := h, inputW := w, inputSize := Volume(c, h, w), letterBox := OrElse(l, s.letterBox))
    case Detect(classes, coords, head) =>
      s.(numClasses := classes, newCoords := OrElse(coords, s.newCoords), yoloCount := ToWord(s.yoloCount + 1),
         yoloTensors := s.yoloTensors + [head])
  }

  function ApplyAll(s: Scanned, us: seq<Update>): Scanned {
    if us == [] then s else Apply(ApplyAll(s, us[..|us| - 1]), us[|us| - 1])
  }

  lemma {:induction false} ReadStops(blocks: seq<Block>, k: nat, stof: string -> Option<Word>)
    requires k <= |blocks| && ReadBlocks(blocks[..k], stof).None?
    ensures ReadBlocks(blocks, stof).None?
  {
    if k < |blocks| {
      var init := blocks[..|blocks| - 1];
      assert init[..k] == blocks[..k];
      ReadStops(init, k, stof);
    } else {
      assert blocks[..k] == blocks;
    }
  }

  /** The tensors of the detection heads, in order. */
  function Detected(us: seq<Update>): seq<TensorInfo> {
    if us == [] then []
    else Detected(us[..|us| - 1]) + if us[|us| - 1].Detect? then [us[|us| - 1].head] else []
  }

  /** The pass appends one tensor for each head, in order, and counts them. */
  lemma {:induction false} HeadTable(s: Scanned, us: seq<Update>)
    ensures ApplyAll(s, us).yoloTensors == s.yoloTensors + Detected(us)
    ensures ApplyAll(s, us).yoloCount == ToWord(s.yoloCount + |Detected(us)|)
  {
    if us == [] {
      WrapOnce(s.yoloCount);
    } else {
      HeadTable(s, us[..|us| - 1]);
      WrapTwice(s.yoloCount + |Detected(us[..|us| - 1])|, 1);
    }
  }

  lemma {:induction false} DetectsHeads(b: Block, stof: string -> Option<Word>)
    requires ReadBlock(b, stof).Some?
    ensures ReadBlock(b, stof).value.Detect? <==> HasKind(b, Head)
    ensures HasKind(b, Head) ==> HeadOf(b, stof) == Some(ReadBlock(b, stof).value.head)
  {
  }

  /** The k-th tensor describes the k-th head block. */
  lemma {:induction false} DetectedAre(blocks: seq<Block>, us: seq<Update>, n: nat, stof: string -> Option<Word>)
    requires n <= |blocks| && ReadBlocks(blocks[..n], stof) == Some(us)
    ensures |Detected(us)| == |HeadIndices(blocks, n)|
    ensures forall k :: 0 <= k < |Detected(us)| ==>
      Some(Detected(us)[k]) == HeadOf(blocks[HeadIndices(blocks, n)[k]], stof)
  {
    if n > 0 {
      assert blocks[..n][..n - 1] == blocks[..n - 1];
      DetectedAre(blocks, us[..n - 1], n - 1, stof);
      DetectsHeads(blocks[n - 1], stof);
    }
  }

  // ---------------------------------------------------------------- the fields, by the keys of the cfg

  /** The block is of that kind and has the key. */
  predicate Saying(b: Block, kind: Kind, key: string) {
    HasKind(b, kind) && key in b
  }

  /** The last block below n that is of that kind and has the key. */
  function LastSaying(blocks: seq<Block>, n: nat, kind: Kind, key: string): (i: Option<nat>)
    requires n <= |blocks|
    ensures i.Some? ==> i.value < n && Saying(blocks[i.value], kind, key)
    ensures i.Some? ==> forall j :: i.value < j < n ==> !Saying(blocks[j], kind, key)
    ensures i.None? ==> forall j :: 0 <= j < n ==> !Saying(blocks[j], kind, key)
  {
    if n == 0 then None
    else if Saying(blocks[n - 1], kind, key) then Some(n - 1)
    else LastSaying(blocks, n - 1, kind, key)
  }

  /** A field holds the number under the key in the last block below n that has it, or what it held before
      when there is none. */
  predicate FieldFrom(blocks: seq<Block>, n: nat, kind: Kind, key: string, before: Word, after: Word)
    requires n <= |blocks|
  {
    match LastSaying(blocks, n, kind, key)
    case None => after == before
    case Some(i) => Stoul(blocks[i][key]).Some? && after == ToWord(Stoul(blocks[i][key]).value)
  }

  /** The fields of an object, by the keys of the blocks below n. */
  predicate FieldsFrom(blocks: seq<Block>, n: nat, s: Scanned, f: Scanned)
    requires n <= |blocks|
  {
    && FieldFrom(blocks, n, Net, "channels", s.inputC, f.inputC)
    && FieldFrom(blocks, n, Net, "height", s.inputH, f.inputH)
    && FieldFrom(blocks, n, Net, "width", s.inputW, f.inputW)
    && FieldFrom(blocks, n, Net, "letter_box", s.letterBox, f.letterBox)
    && FieldFrom(blocks, n, Head, "classes", s.numClasses, f.numClasses)
    && FieldFrom(blocks, n, Head, "new_coords", s.newCoords, f.newCoords)
    && (f.inputSize == ToWord(f.inputC * f.inputH * f.inputW)
        || (f.inputSize == s.inputSize && LastSaying(blocks, n, Net, "type").None?))
  }

  /** One block sets a field, or leaves it. */
  predicate Sets(b: Block, kind: Kind, key: string, before: Word, after: Word) {
    if Saying(b, kind, key) then Stoul(b[key]).Some? && after == ToWord(Stoul(b[key]).value) else after == before
  }

  lemma {:induction false} FieldStep(blocks: seq<Block>, n: nat, kind: Kind, key: string, first: Word, before: Word,
      after: Word)
    requires n < |blocks| && FieldFrom(blocks, n, kind, key, first, before) && Sets(blocks[n], kind, key, before, after)
    ensures FieldFrom(blocks, n + 1, kind, key, first, after)
  {
  }

  lemma {:induction false} NetSets(b: Block, stof: string -> Option<Word>, s: Scanned)
    requires HasKind(b, Net) && ReadBlock(b, stof).Some?
    ensures var f := Apply(s, ReadBlock(b, stof).value);
      && "channels" in b && "height" in b && "width" in b
      && Sets(b, Net, "channels", s.inputC, f.inputC) && Sets(b, Net, "height", s.inputH, f.inputH)
      && Sets(b, Net, "width", s.inputW, f.inputW) && Sets(b, Net, "letter_box", s.letterBox, f.letterBox)
      && f.inputSize == ToWord(f.inputC * f.inputH * f.inputW)
      && f.numClasses == s.numClasses && f.newCoords == s.newCoords
  {
  }

  lemma {:induction false} HeadSets(b: Block, stof: string -> Option<Word>, s: Scanned)
    requires HasKind(b, Head) && ReadBlock(b, stof).Some?
    ensures var f := Apply(s, ReadBlock(b, stof).value);
      && "classes" in b
      && Sets(b, Head, "classes", s.numClasses, f.numClasses) && Sets(b, Head, "new_coords", s.newCoords, f.newCoords)
      && f.inputC == s.inputC && f.inputH == s.inputH && f.inputW == s.inputW && f.inputSize == s.inputSize
      && f.letterBox == s.letterBox
  {
  }

  lemma {:induction false} OtherSetsNothing(b: Block, stof: string -> Option<Word>, s: Scanned)
    requires !HasKind(b, Net) && !HasKind(b, Head) && ReadBlock(b, stof).Some?
    ensures Apply(s, ReadBlock(b, stof).value) == s
  {
  }

  /** After the first pass, from any state, the fields are the numbers that the cfg gives them. */
  lemma {:induction false} FieldsExact(s: Scanned, blocks: seq<Block>, us: seq<Update>, n: nat,
      stof: string -> Option<Word>)
    requires n <= |blocks| && ReadBlocks(blocks[..n], stof) == Some(us)
    ensures FieldsFrom(blocks, n, s, ApplyAll(s, us))
  {
    if n > 0 {
      var b, m := blocks[n - 1], n - 1;
      assert blocks[..n][..m] == blocks[..m];
      FieldsExact(s, blocks, us[..m], m, stof);
      var g, f := ApplyAll(s, us[..m]), ApplyAll(s, us);
      BlockSets(b, stof, g);
      assert HasKind(b, Net) <==> Saying(b, Net, "type");
      FieldStep(blocks, m, Net, "channels", s.inputC, g.inputC, f.inputC);
      FieldStep(blocks, m, Net, "height", s.inputH, g.inputH, f.inputH);
      FieldStep(blocks, m, Net, "width", s.inputW, g.inputW, f.inputW);
      FieldStep(blocks, m, Net, "letter_box", s.letterBox, g.letterBox, f.letterBox);
      FieldStep(blocks, m, Head, "classes", s.numClasses, g.numClasses, f.numClasses);
      FieldStep(blocks, m, Head, "new_coords", s.newCoords, g.newCoords, f.newCoords);
    }
  }

  lemma {:induction false} BlockSets(b: Block, stof: string -> Option<Word>, s: Scanned)
    requires ReadBlock(b, stof).Some?
    ensures var f := Apply(s, ReadBlock(b, stof).value);
      && Sets(b, Net, "channels", s.inputC, f.inputC) && Sets(b, Net, "height", s.inputH, f.inputH)
      && Sets(b, Net, "width", s.inputW, f.inputW) && Sets(b, Net, "letter_box", s.letterBox, f.letterBox)
      && Sets(b, Head, "classes", s.numClasses, f.numClasses) && Sets(b, Head, "new_coords", s.newCoords, f.newCoords)
      && (if HasKind(b, Net) then f.inputSize == ToWord(f.inputC * f.inputH * f.inputW)
          else f.inputSize == s.inputSize && f.inputC == s.inputC && f.inputH == s.inputH && f.inputW == s.inputW)
  {
    if HasKind(b, Net) {
      NetSets(b, stof, s);
    } else if HasKind(b, Head) {
      HeadSets(b, stof, s);
    } else {
      OtherSetsNothing(b, stof, s);
    }
  }

  /** A 64-bit number stands under the key. */
  predicate HasNumber(b: Block, key: string) {
    key in b && Stoul(b[key]).Some?
  }

  /** A block is accepted exactly when it has a type, a net block the numbers of its input, and a head block
      its numbers and its lists. */
  lemma {:induction false} AcceptedExactly(b: Block, stof: string -> Option<Word>)
    ensures ReadBlock(b, stof).Some? <==>
      && "type" in b
      && (HasKind(b, Net) ==>
            && HasNumber(b, "channels") && HasNumber(b, "height") && HasNumber(b, "width")
            && ("letter_box" in b ==> HasNumber(b, "letter_box")))
      && (HasKind(b, Head) ==>
            && HasNumber(b, "classes") && ("new_coords" in b ==> HasNumber(b, "new_coords"))
            && exists t :: MeansHead(b, stof, t))
  {
    if HeadOf(b, stof).Some? {
      HeadExactly(b, stof, HeadOf(b, stof).value);
    } else if t :| MeansHead(b, stof, t) {
      HeadExactly(b, stof, t);
    }
  }
}
