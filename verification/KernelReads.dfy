/** What the threads of the yolo kernels read (yoloForward.cu): the input tensor of a head, its mask and its
    anchors. */
module KernelReads {
  import opened Wrappers
  import opened CfgParser
  import opened YoloTypes
  import opened HeadScan
  import opened Digits
  import opened OutputLayout

  // ---------------------------------------------------------------- the input tensor

  /** Value c of box z of grid cell (x, y): four coordinates, the objectness, and the classes. */
  datatype Read = Read(z: nat, y: nat, x: nat, c: nat)

  predicate IsRead(t: TensorInfo, classes: Word, r: Read) {
    InHead(t, r.z, r.y, r.x) && r.c < 5 + classes
  }

  /** The planes of the input tensor: the values of one box after another. */
  function Plane(classes: Word, r: Read): nat {
    (5 + classes) * r.z + r.c
  }

  /** Where the value is in the planes of the input tensor. */
  function Place(t: TensorInfo, classes: Word, r: Read): nat {
    Offset(t, Plane(classes, r), r.y, r.x)
  }

  /** The number of values of the input tensor. */
  function InputVolume(t: TensorInfo, classes: Word): nat {
    Area(t) * ((5 + classes) * t.numBBoxes)
  }

  /** bbindex + numGridCells * (z_id * (5 + numOutputClasses) + c): ints converted to unsigned. */
  function ReadIndex(t: TensorInfo, classes: Word, r: Read): Word {
    var plane := ToWord(ToWord(Product(r.z, ToWord(5 + classes))) + r.c);
    ToWord(GridIndex(t, r.y, r.x) + ToWord(Product(GridCells(t), plane)))
  }

  /** The layout of the input tensor: box after box, value after value, row after row. */
  lemma {:induction false} PlaceIs(t: TensorInfo, classes: Word, r: Read)
    ensures Place(t, classes, r) == ((r.z * (5 + classes) + r.c) * t.gridSizeY + r.y) * t.gridSizeX + r.x
  {
    OffsetIs(t, Plane(classes, r), r.y, r.x);
  }

  lemma {:induction false} PlaneWraps(classes: Word, r: Read)
    ensures ToWord(ToWord(Product(r.z, ToWord(5 + classes))) + r.c) == ToWord(Plane(classes, r))
  {
    WrapOfFactor(r.z, 5 + classes);
    WrapTwice(Product(r.z, 5 + classes), r.c);
  }

  /** The wrapped arithmetic loses a multiple of 2^32 only. */
  lemma {:induction false} ReadWraps(t: TensorInfo, classes: Word, r: Read)
    ensures ReadIndex(t, classes, r) == ToWord(Place(t, classes, r))
  {
    var plane := Plane(classes, r);
    PlaneWraps(classes, r);
    GridWraps(t, r.y, r.x);
    SignedFactor(Area(t), plane);
    WrapOfFactor(ToInt32(Area(t)), plane);
    WrapOfSum(GridCell(t, r.y, r.x), Product(Area(t), plane));
    OffsetParts(t, plane, r.y, r.x);
  }

  lemma {:induction false} PlaceBound(t: TensorInfo, classes: Word, r: Read)
    requires IsRead(t, classes, r)
    ensures Place(t, classes, r) < InputVolume(t, classes)
  {
    GridCellBound(t, r.y, r.x);
    DigitsBound(5 + classes, t.numBBoxes, r.z, r.c);
    DigitsBound(Area(t), (5 + classes) * t.numBBoxes, Plane(classes, r), GridCell(t, r.y, r.x));
  }

  /** Every value of the input tensor is read. */
  lemma {:induction false} PlaceRead(t: TensorInfo, classes: Word, n: nat) returns (r: Read)
    requires n < InputVolume(t, classes)
    ensures IsRead(t, classes, r) && Place(t, classes, r) == n
  {
    var plane, cell := DigitsExist(Area(t), (5 + classes) * t.numBBoxes, n);
    var z, c := DigitsExist(5 + classes, t.numBBoxes, plane);
    var y, x := DigitsExist(t.gridSizeX, t.gridSizeY, cell);
    Commute(y, t.gridSizeX);
    r := Read(z, y, x, c);
  }

  /** No two reads are of the same value. */
  lemma {:induction false} PlaceUnique(t: TensorInfo, classes: Word, r: Read, r': Read)
    requires IsRead(t, classes, r) && IsRead(t, classes, r') && Place(t, classes, r) == Place(t, classes, r')
    ensures r == r'
  {
    GridCellBound(t, r.y, r.x);
    GridCellBound(t, r'.y, r'.x);
    DigitsUnique(Area(t), Plane(classes, r), GridCell(t, r.y, r.x), Plane(classes, r'), GridCell(t, r'.y, r'.x));
    SameGridCell(t, r.y, r.x, r'.y, r'.x);
    DigitsUnique(5 + classes, r.z, r.c, r'.z, r'.c);
  }

  /** The threads read each its own value exactly when the tensor has at most 2^32 values. */
  lemma {:induction false} ReadsExact(t: TensorInfo, classes: Word)
    ensures InputVolume(t, classes) <= TWO_TO_THE_32 <==>
      forall r :: IsRead(t, classes, r) ==> ReadIndex(t, classes, r) == Place(t, classes, r)
  {
    if InputVolume(t, classes) <= TWO_TO_THE_32 {
      forall r | IsRead(t, classes, r) ensures ReadIndex(t, classes, r) == Place(t, classes, r) {
        ReadWraps(t, classes, r);
        PlaceBound(t, classes, r);
        WrapOnce(Place(t, classes, r));
      }
    } else {
      var r := PlaceRead(t, classes, TWO_TO_THE_32);
      assert ReadIndex(t, classes, r) < TWO_TO_THE_32;
    }
  }

  /** They stay within a tensor of size values exactly when it has one for each value of each box (or one
      for each word). Nothing in the importer compares the two. */
  lemma {:induction false} ReadsFit(t: TensorInfo, classes: Word, size: nat)
    ensures InputVolume(t, classes) <= size || TWO_TO_THE_32 <= size
      <==> forall r :: IsRead(t, classes, r) ==> ReadIndex(t, classes, r) < size
  {
    if InputVolume(t, classes) <= size || TWO_TO_THE_32 <= size {
      forall r | IsRead(t, classes, r) ensures ReadIndex(t, classes, r) < size {
        ReadWraps(t, classes, r);
        PlaceBound(t, classes, r);
        NatWraps(Place(t, classes, r));
      }
    } else {
      var r := PlaceRead(t, classes, size);
      ReadWraps(t, classes, r);
      NatWraps(size);
      assert ReadIndex(t, classes, r) == size;
    }
  }

  /** inputSize: (numBBoxes * (4 + 1 + numClasses)) * gridSizeY * gridSizeX in 32-bit unsigned arithmetic. */
  function InputSize(t: TensorInfo, classes: Word): Word {
    var values := ToWord(Product(t.numBBoxes, ToWord(5 + classes)));
    ToWord(Product(ToWord(Product(values, t.gridSizeY)), t.gridSizeX))
  }

  /** The distance between the images of a batch is the size of one, when that is below 2^32. */
  lemma {:induction false} InputSizeExact(t: TensorInfo, classes: Word)
    ensures InputSize(t, classes) == ToWord(InputVolume(t, classes))
    ensures InputSize(t, classes) == InputVolume(t, classes) <==> InputVolume(t, classes) < TWO_TO_THE_32
  {
    WrapOfFactor(t.numBBoxes, 5 + classes);
    WrapOfThree(Product(t.numBBoxes, 5 + classes), t.gridSizeY, t.gridSizeX);
    Reorder(t.numBBoxes, 5 + classes, t.gridSizeY, t.gridSizeX);
    NatWraps(InputVolume(t, classes));
  }

  lemma {:induction false} WrapOfThree(a: int, y: int, x: int)
    ensures ToWord(Product(ToWord(Product(ToWord(a), y)), x)) == ToWord(Product(Product(a, y), x))
  {
    WrapOfLeft(a, y);
    WrapOfLeft(Product(a, y), x);
  }

  lemma {:induction false} WrapOfLeft(a: int, b: int)
    ensures ToWord(Product(ToWord(a), b)) == ToWord(Product(a, b))
  {
    WrapOfProduct(a, b);
  }

  lemma {:induction false} Reorder(n: int, v: int, y: int, x: int)
    ensures Product(Product(Product(n, v), y), x) == x * y * (v * n)
  {
    assert Product(n, v) == v * n;
    assert v * n * y * x == x * y * (v * n);
  }

  // ---------------------------------------------------------------- mask and anchors

  /** anchors[mask[z] * 2] and anchors[mask[z] * 2 + 1] are anchors of the head. */
  predicate AnchorsInside(t: TensorInfo, z: nat) {
    z < |t.mask| && PairInside(t.mask[z], |t.anchors|)
  }

  /** m * 2 and m * 2 + 1 are ints and indices. */
  predicate PairInside(m: int, size: nat) {
    0 <= m * 2 && m * 2 + 1 < size && m * 2 + 1 < 0x8000_0000
  }

  /** For a head with a mask all these reads are inside exactly when every index in its mask is one of a
      pair of anchors that was given. The first pass accepts any mask. */
  lemma {:induction false} MaskReadsFit(b: Block, stof: string -> Option<Word>, t: TensorInfo)
    requires HeadOf(b, stof) == Some(t) && 0 < |t.mask| < TWO_TO_THE_32
    ensures (forall z :: 0 <= z < t.numBBoxes ==> AnchorsInside(t, z))
      <==> forall m :: m in t.mask ==> 0 <= m < |t.anchors| / 2 && m < 0x4000_0000
  {
    HeadFields(b, stof);
    BoxesOfMask(b, t.mask);
    if forall z :: 0 <= z < t.numBBoxes ==> AnchorsInside(t, z) {
      forall m | m in t.mask ensures 0 <= m < |t.anchors| / 2 && m < 0x4000_0000 {
        var z :| 0 <= z < |t.mask| && t.mask[z] == m;
        assert AnchorsInside(t, z);
      }
    } else {
      var z :| 0 <= z < t.numBBoxes && !AnchorsInside(t, z);
      assert t.mask[z] in t.mask;
    }
  }
}
