/** Turning the detection output into boxes (nvdsparsebbox_Yolo.cpp and its CUDA version), over reals. */
module BBoxDecode {
  import opened Wrappers

  /** NvDsInferParseObjectInfo. */
  datatype Box = Box(left: real, top: real, width: real, height: real, confidence: real, classId: int)

  function Min(a: real, b: real): real { if b < a then b else a }
  function Max(a: real, b: real): real { if a < b then b else a }

  function Clamp(val: real, minVal: real, maxVal: real): (r: real)
    requires minVal <= maxVal
    ensures minVal <= r <= maxVal && (minVal <= val <= maxVal ==> r == val)
    ensures (val < minVal ==> r == minVal) && (val > maxVal ==> r == maxVal)
  {
    Min(maxVal, Max(minVal, val))
  }

  /** (int) of a float: truncation toward zero. */
  function Truncate(x: real): (n: int)
    ensures x >= 0.0 ==> n as real <= x < n as real + 1.0
    ensures x < 0.0 ==> n as real - 1.0 < x <= n as real
  {
    if x >= 0.0 then x.Floor else -(-x).Floor
  }

  // ---------------------------------------------------------------- the code

  function ConvertBBox(bx1: real, by1: real, bx2: real, by2: real, netW: Word, netH: Word): Box {
    var w, h := netW as real, netH as real;
    var x1, y1, x2, y2 := Clamp(bx1, 0.0, w), Clamp(by1, 0.0, h), Clamp(bx2, 0.0, w), Clamp(by2, 0.0, h);
    Box(x1, y1, Clamp(x2 - x1, 0.0, w), Clamp(y2 - y1, 0.0, h), 0.0, 0)
  }

  /** One record of the output: two corners, a confidence and a class. */
  datatype Record = Record(x1: real, y1: real, x2: real, y2: real, prob: real, cls: int)

  /** output[b * 6 + k], the index being a 32-bit unsigned int. */
  function Index(b: Word, k: nat): Word {
    ToWord(b * 6 + k)
  }

  /** The buffer holds outputSize records of six values. */
  predicate Holds(output: seq<real>, outputSize: Word) {
    6 * outputSize <= |output|
  }

  lemma {:induction false} IndexInside(b: Word, k: nat)
    ensures Index(b, k) <= b * 6 + k
  {
  }

  const LARGEST_SIZE: int := 715827882

  /** The 32-bit indices are exact for every record exactly up to this size. */
  lemma {:induction false} IndicesExact(outputSize: Word)
    ensures outputSize <= LARGEST_SIZE <==>
      forall b: Word, k: nat :: b < outputSize && k < 6 ==> Index(b, k) == b * 6 + k
  {
    if outputSize <= LARGEST_SIZE {
      forall b: Word, k: nat | b < outputSize && k < 6 ensures Index(b, k) == b * 6 + k {
        WrapOnce(b * 6 + k);
      }
    } else {
      var b: Word := LARGEST_SIZE;
      assert Index(b, 4) == 0;
    }
  }

  /** The record at a place of the output. */
  function RecordAt(output: seq<real>, outputSize: Word, b: nat): Record
    requires Holds(output, outputSize) && b < outputSize
  {
    IndexInside(b, 0); IndexInside(b, 1); IndexInside(b, 2);
    IndexInside(b, 3); IndexInside(b, 4); IndexInside(b, 5);
    Record(output[Index(b, 0)], output[Index(b, 1)], output[Index(b, 2)], output[Index(b, 3)],
           output[Index(b, 4)], Truncate(output[Index(b, 5)]))
  }

  /** Record b is in the six values from 6 * b on: two corners, the confidence, and the class as a float. */
  predicate StandsAt(output: seq<real>, b: nat, r: Record) {
    && 6 * b + 6 <= |output|
    && r.x1 == output[6 * b] && r.y1 == output[6 * b + 1] && r.x2 == output[6 * b + 2] && r.y2 == output[6 * b + 3]
    && r.prob == output[6 * b + 4] && r.cls == Truncate(output[6 * b + 5])
  }

  lemma {:induction false} RecordStands(output: seq<real>, outputSize: Word, b: Word)
    requires Holds(output, outputSize) && b < outputSize
    ensures outputSize <= LARGEST_SIZE ==> StandsAt(output, b, RecordAt(output, outputSize, b))
  {
    IndicesExact(outputSize);
  }

  function Records(output: seq<real>, outputSize: Word, n: nat): (rs: seq<Record>)
    requires Holds(output, outputSize) && n <= outputSize
    ensures |rs| == n && forall b :: 0 <= b < n ==> rs[b] == RecordAt(output, outputSize, b)
    ensures outputSize <= LARGEST_SIZE ==> forall b :: 0 <= b < n ==> StandsAt(output, b, rs[b])
  {
    if n == 0 then []
    else
      RecordStands(output, outputSize, n - 1);
      Records(output, outputSize, n - 1) + [RecordAt(output, outputSize, n - 1)]
  }

  /** Every class index has a threshold; indexing the vector beyond its end is undefined. */
  predicate Classified(rs: seq<Record>, thresholds: seq<real>) {
    forall b :: 0 <= b < |rs| ==> 0 <= rs[b].cls < |thresholds|
  }

  method AddBBoxProposal(r: Record, netW: Word, netH: Word, binfo: seq<Box>) returns (binfo': seq<Box>)
    ensures binfo' == binfo + if Visible(r, netW, netH) then [Intersection(r, netW, netH)] else []
  {
    var bbi := ConvertBBox(r.x1, r.y1, r.x2, r.y2, netW, netH);
    ConvertExact(r, netW, netH);
    if bbi.width < 1.0 || bbi.height < 1.0 { return binfo; }
    bbi := bbi.(confidence := r.prob, classId := r.cls);
    binfo' := binfo + [bbi];
  }

  /** The result is the filter-and-map specification. */
  method DecodeTensorYolo(output: seq<real>, outputSize: Word, netW: Word, netH: Word, thresholds: seq<real>)
    returns (binfo: seq<Box>)
    requires Holds(output, outputSize) && Classified(Records(output, outputSize, outputSize), thresholds)
    ensures binfo == Detections(Records(output, outputSize, outputSize), netW, netH, thresholds)
    ensures exists idx ::
      AreDetected(binfo, idx, Records(output, outputSize, outputSize), netW, netH, thresholds)
  {
    binfo := [];
    ghost var all := Records(output, outputSize, outputSize);
    for b := 0 to outputSize
      invariant binfo == Detections(all[..b], netW, netH, thresholds)
    {
      var r := RecordAt(output, outputSize, b);
      assert r == all[b] && all[..b + 1][..b] == all[..b];
      if r.prob < thresholds[r.cls] {
        continue;
      }
      binfo := AddBBoxProposal(r, netW, netH, binfo);
    }
    assert all[..outputSize] == all;
    ghost var idx := DetectedExactly(all, netW, netH, thresholds);
  }

  // ---------------------------------------------------------------- the specification

  /** The length of the part of [a, b] within [0, n]; negative when they are apart. */
  function Overlap(a: real, b: real, n: Word): real {
    Min(b, n as real) - Max(a, 0.0)
  }

  /** The proposal meets the frame in a rectangle at least one pixel wide and high. */
  predicate Visible(r: Record, netW: Word, netH: Word) {
    Overlap(r.x1, r.x2, netW) >= 1.0 && Overlap(r.y1, r.y2, netH) >= 1.0
  }

  function Intersection(r: Record, netW: Word, netH: Word): Box {
    Box(Max(r.x1, 0.0), Max(r.y1, 0.0), Overlap(r.x1, r.x2, netW), Overlap(r.y1, r.y2, netH), r.prob, r.cls)
  }

  /** The records that pass their class threshold and are visible, in order, each cut to the frame. */
  function Detections(rs: seq<Record>, netW: Word, netH: Word, thresholds: seq<real>): seq<Box>
    requires Classified(rs, thresholds)
  {
    if rs == [] then []
    else
      var r := rs[|rs| - 1];
      Detections(rs[..|rs| - 1], netW, netH, thresholds)
        + if r.prob >= thresholds[r.cls] && Visible(r, netW, netH) then [Intersection(r, netW, netH)] else []
  }

  /** What the boxes are: idx are the records that pass, in order, and box m is that of record idx[m]. */
  ghost predicate AreDetected(boxes: seq<Box>, idx: seq<nat>, rs: seq<Record>, netW: Word, netH: Word,
                              thresholds: seq<real>)
    requires Classified(rs, thresholds)
  {
    && |boxes| == |idx|
    && (forall m, m' :: 0 <= m < m' < |idx| ==> idx[m] < idx[m'])
    && (forall m :: 0 <= m < |idx| ==> idx[m] < |rs| && IsBoxOf(boxes[m], rs[idx[m]], netW, netH))
    && (forall b :: 0 <= b < |rs| ==> (b in idx <==> Passes(rs[b], netW, netH, thresholds)))
  }

  /** The record reaches the threshold of its class and meets the frame in at least one pixel each way. */
  ghost predicate Passes(r: Record, netW: Word, netH: Word, thresholds: seq<real>)
    requires 0 <= r.cls < |thresholds|
  {
    thresholds[r.cls] <= r.prob && Meets(r, netW, netH)
  }

  /** The part of the proposal within the frame, with the confidence and the class of the record. */
  ghost predicate IsBoxOf(b: Box, r: Record, netW: Word, netH: Word) {
    b.confidence == r.prob && b.classId == r.cls && IsShared(b, r, netW, netH)
  }

  /** Some unit square lies in both the proposal and the frame. */
  ghost predicate Meets(r: Record, netW: Word, netH: Word) {
    exists x: real, y: real :: SquareIn(r, netW, netH, x, y)
  }

  predicate SquareIn(r: Record, netW: Word, netH: Word, x: real, y: real) {
    && r.x1 <= x && x + 1.0 <= r.x2 && r.y1 <= y && y + 1.0 <= r.y2
    && 0.0 <= x && x + 1.0 <= netW as real && 0.0 <= y && y + 1.0 <= netH as real
  }

  /** The points of the box are those that the proposal and the frame share. */
  ghost predicate IsShared(b: Box, r: Record, netW: Word, netH: Word) {
    forall x: real, y: real :: InBox(b, x, y) <==>
      (r.x1 <= x <= r.x2 && r.y1 <= y <= r.y2) && (0.0 <= x <= netW as real && 0.0 <= y <= netH as real)
  }

  predicate InBox(b: Box, x: real, y: real) {
    b.left <= x <= b.left + b.width && b.top <= y <= b.top + b.height
  }

  lemma {:induction false} VisibleMeets(r: Record, netW: Word, netH: Word)
    ensures Visible(r, netW, netH) <==> Meets(r, netW, netH)
  {
    if Visible(r, netW, netH) {
      assert SquareIn(r, netW, netH, Max(r.x1, 0.0), Max(r.y1, 0.0));
    }
  }

  lemma {:induction false} IntersectionShared(r: Record, netW: Word, netH: Word)
    requires Visible(r, netW, netH)
    ensures IsShared(Intersection(r, netW, netH), r, netW, netH)
  {
    var b := Intersection(r, netW, netH);
    forall x: real, y: real
      ensures InBox(b, x, y) <==>
        (r.x1 <= x <= r.x2 && r.y1 <= y <= r.y2) && (0.0 <= x <= netW as real && 0.0 <= y <= netH as real)
    {
      IntersectionExact(r, netW, netH, x, y);
    }
  }

  /** The filter-and-map specification gives these boxes. */
  lemma {:induction false} DetectedExactly(rs: seq<Record>, netW: Word, netH: Word, thresholds: seq<real>)
      returns (idx: seq<nat>)
    requires Classified(rs, thresholds)
    ensures AreDetected(Detections(rs, netW, netH, thresholds), idx, rs, netW, netH, thresholds)
  {
    if rs == [] {
      idx := [];
    } else {
      var n := |rs| - 1;
      var r, boxes := rs[n], Detections(rs[..n], netW, netH, thresholds);
      idx := DetectedExactly(rs[..n], netW, netH, thresholds);
      VisibleMeets(r, netW, netH);
      if Passes(r, netW, netH, thresholds) {
        IntersectionShared(r, netW, netH);
        OneMoreDetected(boxes, idx, rs, Intersection(r, netW, netH), netW, netH, thresholds);
        idx := idx + [n];
      } else {
        OneMoreDropped(boxes, idx, rs, netW, netH, thresholds);
      }
    }
  }

  lemma {:induction false} OneMoreDetected(boxes: seq<Box>, idx: seq<nat>, rs: seq<Record>, box: Box, netW: Word,
      netH: Word, thresholds: seq<real>)
    requires Classified(rs, thresholds) && rs != []
    requires AreDetected(boxes, idx, rs[..|rs| - 1], netW, netH, thresholds)
    requires Passes(rs[|rs| - 1], netW, netH, thresholds) && IsBoxOf(box, rs[|rs| - 1], netW, netH)
    ensures AreDetected(boxes + [box], idx + [|rs| - 1], rs, netW, netH, thresholds)
  {
    var n := |rs| - 1;
    forall b | 0 <= b < |rs| ensures b in idx + [n] <==> Passes(rs[b], netW, netH, thresholds) {
      if b < n { assert rs[..n][b] == rs[b]; }
    }
  }

  lemma {:induction false} OneMoreDropped(boxes: seq<Box>, idx: seq<nat>, rs: seq<Record>, netW: Word, netH: Word,
      thresholds: seq<real>)
    requires Classified(rs, thresholds) && rs != []
    requires AreDetected(boxes, idx, rs[..|rs| - 1], netW, netH, thresholds)
    requires !Passes(rs[|rs| - 1], netW, netH, thresholds)
    ensures AreDetected(boxes, idx, rs, netW, netH, thresholds)
  {
    var n := |rs| - 1;
    forall b | 0 <= b < |rs| ensures b in idx <==> Passes(rs[b], netW, netH, thresholds) {
      if b < n { assert rs[..n][b] == rs[b]; }
    }
  }

  lemma {:induction false} ClampedOverlap(a: real, b: real, n: Word)
    ensures var lo, hi := Clamp(a, 0.0, n as real), Clamp(b, 0.0, n as real);
            var len := Clamp(hi - lo, 0.0, n as real);
      && (len >= 1.0 <==> Overlap(a, b, n) >= 1.0)
      && (len >= 1.0 ==> len == Overlap(a, b, n) && lo == Max(a, 0.0))
  {
  }

  /** Clamping corners and sizes keeps exactly the visible proposals, and cuts them to the frame. */
  lemma {:induction false} ConvertExact(r: Record, netW: Word, netH: Word)
    ensures var bbi := ConvertBBox(r.x1, r.y1, r.x2, r.y2, netW, netH);
      && (bbi.width >= 1.0 && bbi.height >= 1.0 <==> Visible(r, netW, netH))
      && (Visible(r, netW, netH) ==> bbi.(confidence := r.prob, classId := r.cls) == Intersection(r, netW, netH))
  {
    ClampedOverlap(r.x1, r.x2, netW);
    ClampedOverlap(r.y1, r.y2, netH);
  }

  /** A kept box is the set of points that the proposal and the frame share; so it lies in both. */
  lemma {:induction false} IntersectionExact(r: Record, netW: Word, netH: Word, x: real, y: real)
    requires Visible(r, netW, netH)
    ensures var b := Intersection(r, netW, netH);
      && (b.left <= x <= b.left + b.width && b.top <= y <= b.top + b.height
          <==> (r.x1 <= x <= r.x2 && r.y1 <= y <= r.y2) && (0.0 <= x <= netW as real && 0.0 <= y <= netH as real))
      && 0.0 <= b.left && b.left + b.width <= netW as real && 0.0 <= b.top && b.top + b.height <= netH as real
  {
  }

  // ---------------------------------------------------------------- the CUDA version

  /** output[x_id * 6 + k], the index being a signed int. */
  function CudaIndex(b: nat, k: nat): Int32 {
    ToInt32(b * 6 + k)
  }

  const LARGEST_CUDA_SIZE: int := 357913941

  /** The signed indices do not overflow exactly up to this size. */
  lemma {:induction false} CudaIndicesExact(outputSize: Word)
    ensures outputSize <= LARGEST_CUDA_SIZE <==>
      forall b: Word, k: nat :: b < outputSize && k < 6 ==> CudaIndex(b, k) == b * 6 + k
  {
    if outputSize <= LARGEST_CUDA_SIZE {
      forall b: Word, k: nat | b < outputSize && k < 6 ensures CudaIndex(b, k) == b * 6 + k {
        WrapOnce(b * 6 + k);
      }
    } else {
      var b: Word := LARGEST_CUDA_SIZE;
      assert CudaIndex(b, 2) < 0;
    }
  }

  /** The record of thread b. */
  function CudaRecord(output: seq<real>, outputSize: Word, b: nat): (r: Record)
    requires Holds(output, outputSize) && b < outputSize <= LARGEST_CUDA_SIZE
    ensures r == RecordAt(output, outputSize, b)
  {
    CudaIndicesExact(outputSize);
    IndicesExact(outputSize);
    Record(output[CudaIndex(b, 0)], output[CudaIndex(b, 1)], output[CudaIndex(b, 2)], output[CudaIndex(b, 3)],
           output[CudaIndex(b, 4)], Truncate(output[CudaIndex(b, 5)]))
  }

  /** What thread x_id leaves in binfo[x_id], which starts as zeros. */
  function CudaBox(r: Record, netW: Word, netH: Word, thresholds: seq<real>): Box
    requires 0 <= r.cls < |thresholds|
  {
    if r.prob < thresholds[r.cls] then Box(0.0, 0.0, 0.0, 0.0, 0.0, 0)
    else ConvertBBox(r.x1, r.y1, r.x2, r.y2, netW, netH).(confidence := r.prob, classId := r.cls)
  }

  /** The first n elements of binfo. */
  function CudaBoxes(output: seq<real>, outputSize: Word, n: nat, netW: Word, netH: Word,
                     thresholds: seq<real>): (bs: seq<Box>)
    requires Holds(output, outputSize) && n <= outputSize <= LARGEST_CUDA_SIZE
    requires Classified(Records(output, outputSize, n), thresholds)
    ensures |bs| == n
  {
    if n == 0 then []
    else
      FewerRecords(output, outputSize, n, thresholds);
      CudaBoxes(output, outputSize, n - 1, netW, netH, thresholds)
        + [CudaBox(CudaRecord(output, outputSize, n - 1), netW, netH, thresholds)]
  }

  lemma {:induction false} FewerRecords(output: seq<real>, outputSize: Word, n: nat, thresholds: seq<real>)
    requires Holds(output, outputSize) && 0 < n <= outputSize
    requires Classified(Records(output, outputSize, n), thresholds)
    ensures Records(output, outputSize, n)[..n - 1] == Records(output, outputSize, n - 1)
    ensures Classified(Records(output, outputSize, n - 1), thresholds)
    ensures 0 <= RecordAt(output, outputSize, n - 1).cls < |thresholds|
  {
    var rs, fewer := Records(output, outputSize, n), Records(output, outputSize, n - 1);
    assert rs[..n - 1] == fewer;
    assert 0 <= rs[n - 1].cls < |thresholds|;
    forall b | 0 <= b < n - 1 ensures 0 <= fewer[b].cls < |thresholds| {
      assert fewer[b] == rs[b];
    }
  }

  /** The boxes at least one pixel wide and high, in order. */
  function Sizeable(bs: seq<Box>): seq<Box> {
    if bs == [] then []
    else
      var b := bs[|bs| - 1];
      Sizeable(bs[..|bs| - 1]) + if b.width >= 1.0 && b.height >= 1.0 then [b] else []
  }

  lemma {:induction false} CudaBoxExact(r: Record, netW: Word, netH: Word, thresholds: seq<real>)
    requires 0 <= r.cls < |thresholds|
    ensures var b := CudaBox(r, netW, netH, thresholds);
      && (b.width >= 1.0 && b.height >= 1.0 <==> r.prob >= thresholds[r.cls] && Visible(r, netW, netH))
      && (b.width >= 1.0 && b.height >= 1.0 ==> b == Intersection(r, netW, netH))
  {
    ConvertExact(r, netW, netH);
  }

  lemma {:induction false} DetectionsMore(rs: seq<Record>, netW: Word, netH: Word, thresholds: seq<real>)
    requires rs != [] && Classified(rs, thresholds)
    ensures var r := rs[|rs| - 1];
      Detections(rs, netW, netH, thresholds) == Detections(rs[..|rs| - 1], netW, netH, thresholds)
        + if r.prob >= thresholds[r.cls] && Visible(r, netW, netH) then [Intersection(r, netW, netH)] else []
  {
  }

  lemma {:induction false} SizeableMore(bs: seq<Box>, b: Box)
    ensures Sizeable(bs + [b]) == Sizeable(bs) + if b.width >= 1.0 && b.height >= 1.0 then [b] else []
  {
    assert (bs + [b])[..|bs|] == bs;
  }

  /** Without its boxes below one pixel, the CUDA result is the CPU result. */
  lemma {:induction false} CudaAgrees(output: seq<real>, outputSize: Word, n: nat, netW: Word, netH: Word,
      thresholds: seq<real>)
    requires Holds(output, outputSize) && n <= outputSize <= LARGEST_CUDA_SIZE
    requires Classified(Records(output, outputSize, n), thresholds)
    ensures Sizeable(CudaBoxes(output, outputSize, n, netW, netH, thresholds))
         == Detections(Records(output, outputSize, n), netW, netH, thresholds)
  {
    if n > 0 {
      FewerRecords(output, outputSize, n, thresholds);
      CudaAgrees(output, outputSize, n - 1, netW, netH, thresholds);
      CudaBoxExact(RecordAt(output, outputSize, n - 1), netW, netH, thresholds);
      DetectionsMore(Records(output, outputSize, n), netW, netH, thresholds);
      SizeableMore(CudaBoxes(output, outputSize, n - 1, netW, netH, thresholds),
                   CudaBox(CudaRecord(output, outputSize, n - 1), netW, netH, thresholds));
    }
  }
}
