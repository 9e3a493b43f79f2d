/** The detection output: its size (yolo.cpp), the part of it each head owns (yoloPlugins.cpp), and the
    cells that the threads of the decoding kernels write (yoloForward.cu). */
module OutputLayout {
  import opened Wrappers
  import opened YoloTypes
  import opened Digits

  // ---------------------------------------------------------------- sizes

  function Area(t: TensorInfo): nat {
    t.gridSizeX * t.gridSizeY
  }

  /** The number of boxes a head decodes. */
  function Cells(t: TensorInfo): nat {
    Area(t) * t.numBBoxes
  }

  /** numBBoxes * gridSizeY * gridSizeX in 32-bit unsigned arithmetic. */
  function Cells32(t: TensorInfo): Word {
    ToWord(ToWord(Product(t.numBBoxes, t.gridSizeY)) * t.gridSizeX)
  }

  function Product(a: int, b: int): int {
    a * b
  }

  /** The first box of head k. */
  function First(heads: seq<TensorInfo>, k: nat): nat
    requires k <= |heads|
  {
    if k == 0 then 0 else First(heads, k - 1) + Cells(heads[k - 1])
  }

  /** The sum that the code computes over the first k heads. */
  function Sum32(heads: seq<TensorInfo>, k: nat): (r: nat)
    requires k <= |heads|
    ensures r <= k * (TWO_TO_THE_32 - 1)
  {
    if k == 0 then 0 else Sum32(heads, k - 1) + Cells32(heads[k - 1])
  }

  lemma {:induction false} WrapOfProduct(a: int, b: int)
    ensures ToWord(ToWord(a) * b) == ToWord(a * b)
  {
    var q := a / TWO_TO_THE_32;
    assert a == q * TWO_TO_THE_32 + ToWord(a);
    assert a * b == ToWord(a) * b + (q * b) * TWO_TO_THE_32;
    Periodic(ToWord(a) * b, q * b);
  }

  lemma {:induction false} CellsWrap(t: TensorInfo)
    ensures Cells32(t) == ToWord(Cells(t)) <= Cells(t)
    ensures Cells32(t) == Cells(t) <==> Cells(t) < TWO_TO_THE_32
  {
    WrapOfProduct(t.numBBoxes * t.gridSizeY, t.gridSizeX);
    assert t.numBBoxes * t.gridSizeY * t.gridSizeX == Cells(t);
  }

  /** The computed sum never exceeds the true number of boxes, and equals it exactly when every head's
      product fits in 32 bits. */
  lemma {:induction false} SizeExact(heads: seq<TensorInfo>, k: nat)
    requires k <= |heads|
    ensures Sum32(heads, k) <= First(heads, k)
    ensures Sum32(heads, k) == First(heads, k) <==> forall j :: 0 <= j < k ==> Cells(heads[j]) < TWO_TO_THE_32
  {
    if k > 0 {
      SizeExact(heads, k - 1);
      CellsWrap(heads[k - 1]);
    }
  }

  /** A head of 2^16 by 2^16 cells counts as empty. */
  lemma {:induction false} SizeWraps(t: TensorInfo)
    requires t.gridSizeX == 65536 && t.gridSizeY == 65536 && t.numBBoxes == 1
    ensures Cells32(t) == 0 && Cells(t) == TWO_TO_THE_32
  {
  }

  function Add64(a: Word64, b: Word64): Word64 {
    if a + b < TWO_TO_THE_64 then a + b else a + b - TWO_TO_THE_64
  }

  /** Fewer than 2^32 words never overflow a 64-bit sum. */
  lemma {:induction false} NoCarry(sum: nat, w: Word, k: nat)
    requires k < TWO_TO_THE_32 && sum <= k * (TWO_TO_THE_32 - 1)
    ensures sum + w < TWO_TO_THE_64
  {
  }

  /** outputSize, and lastInputSize before each head: a 64-bit accumulator. */
  method OutputSize(heads: seq<TensorInfo>, n: nat) returns (outputSize: Word64)
    requires n <= |heads| && n < TWO_TO_THE_32
    ensures outputSize == Sum32(heads, n)
  {
    outputSize := 0;
    for j := 0 to n
      invariant outputSize == Sum32(heads, j)
    {
      NoCarry(Sum32(heads, j), Cells32(heads[j]), j);
      outputSize := Add64(outputSize, Cells32(heads[j]));
    }
  }

  // ---------------------------------------------------------------- who owns a box

  /** A cell of a head: box z of grid cell (x, y). */
  datatype Cell = Cell(head: nat, z: nat, y: nat, x: nat)

  predicate InHead(t: TensorInfo, z: nat, y: nat, x: nat) {
    z < t.numBBoxes && y < t.gridSizeY && x < t.gridSizeX
  }

  predicate IsCell(heads: seq<TensorInfo>, c: Cell) {
    c.head < |heads| && InHead(heads[c.head], c.z, c.y, c.x)
  }

  /** The grid cell within its plane, row by row. */
  function GridCell(t: TensorInfo, y: nat, x: nat): nat {
    y * t.gridSizeX + x
  }

  /** The box within its head: the planes z follow one another. */
  function Offset(t: TensorInfo, z: nat, y: nat, x: nat): nat {
    Area(t) * z + GridCell(t, y, x)
  }

  /** The index of a cell's box in the output. */
  function BoxIndex(heads: seq<TensorInfo>, c: Cell): nat
    requires IsCell(heads, c)
  {
    First(heads, c.head) + Offset(heads[c.head], c.z, c.y, c.x)
  }

  lemma {:induction false} GridCellBound(t: TensorInfo, y: nat, x: nat)
    requires y < t.gridSizeY && x < t.gridSizeX
    ensures GridCell(t, y, x) < Area(t)
  {
    DigitsBound(t.gridSizeX, t.gridSizeY, y, x);
    Commute(y, t.gridSizeX);
  }

  lemma {:induction false} OffsetBound(t: TensorInfo, z: nat, y: nat, x: nat)
    requires InHead(t, z, y, x)
    ensures GridCell(t, y, x) < Area(t) && Offset(t, z, y, x) < Cells(t)
  {
    GridCellBound(t, y, x);
    DigitsBound(Area(t), t.numBBoxes, z, GridCell(t, y, x));
  }

  lemma {:induction false} SamePlane(t: TensorInfo, z: nat, y: nat, x: nat, z': nat, y': nat, x': nat)
    requires InHead(t, z, y, x) && InHead(t, z', y', x') && Offset(t, z, y, x) == Offset(t, z', y', x')
    ensures z == z' && GridCell(t, y, x) == GridCell(t, y', x')
  {
    GridCellBound(t, y, x);
    GridCellBound(t, y', x');
    DigitsUnique(Area(t), z, GridCell(t, y, x), z', GridCell(t, y', x'));
  }

  lemma {:induction false} SameGridCell(t: TensorInfo, y: nat, x: nat, y': nat, x': nat)
    requires x < t.gridSizeX && x' < t.gridSizeX && GridCell(t, y, x) == GridCell(t, y', x')
    ensures y == y' && x == x'
  {
    Commute(y, t.gridSizeX);
    Commute(y', t.gridSizeX);
    DigitsUnique(t.gridSizeX, y, x, y', x');
  }

  lemma {:induction false} OffsetUnique(t: TensorInfo, z: nat, y: nat, x: nat, z': nat, y': nat, x': nat)
    requires InHead(t, z, y, x) && InHead(t, z', y', x') && Offset(t, z, y, x) == Offset(t, z', y', x')
    ensures z == z' && y == y' && x == x'
  {
    SamePlane(t, z, y, x, z', y', x');
    SameGridCell(t, y, x, y', x');
  }

  lemma {:induction false} OffsetExists(t: TensorInfo, n: nat) returns (z: nat, y: nat, x: nat)
    requires n < Cells(t)
    ensures InHead(t, z, y, x) && Offset(t, z, y, x) == n
  {
    var r;
    z, r := DigitsExist(Area(t), t.numBBoxes, n);
    y, x := DigitsExist(t.gridSizeX, t.gridSizeY, r);
    Commute(y, t.gridSizeX);
  }

  lemma {:induction false} FirstGrows(heads: seq<TensorInfo>, j: nat, k: nat)
    requires j <= k <= |heads|
    ensures First(heads, j) <= First(heads, k)
  {
    if j < k {
      FirstGrows(heads, j, k - 1);
    }
  }

  /** Two cells never share a box, and every box is within the output. */
  lemma {:induction false} BoxUnique(heads: seq<TensorInfo>, c: Cell, c': Cell)
    requires IsCell(heads, c) && IsCell(heads, c')
    ensures BoxIndex(heads, c) < First(heads, |heads|)
    ensures BoxIndex(heads, c) == BoxIndex(heads, c') ==> c == c'
  {
    OffsetBound(heads[c.head], c.z, c.y, c.x);
    OffsetBound(heads[c'.head], c'.z, c'.y, c'.x);
    FirstGrows(heads, c.head + 1, |heads|);
    if c.head < c'.head {
      FirstGrows(heads, c.head + 1, c'.head);
    } else if c'.head < c.head {
      FirstGrows(heads, c'.head + 1, c.head);
    } else if BoxIndex(heads, c) == BoxIndex(heads, c') {
      OffsetUnique(heads[c.head], c.z, c.y, c.x, c'.z, c'.y, c'.x);
    }
  }

  /** Every box of the output belongs to a cell. */
  lemma {:induction false} BoxOwned(heads: seq<TensorInfo>, k: nat, n: nat) returns (c: Cell)
    requires k <= |heads| && n < First(heads, k)
    ensures IsCell(heads, c) && c.head < k && BoxIndex(heads, c) == n
  {
    if n < First(heads, k - 1) {
      c := BoxOwned(heads, k - 1, n);
    } else {
      var z, y, x := OffsetExists(heads[k - 1], n - First(heads, k - 1));
      c := Cell(k - 1, z, y, x);
    }
  }

  // ---------------------------------------------------------------- the threads of a kernel

  /** A thread in a launch with blocks of 16 * 16 * 4 threads. */
  datatype Thread = Thread(blockX: nat, blockY: nat, blockZ: nat, threadX: nat, threadY: nat, threadZ: nat)

  /** A block of a launch dimension of size / threads + 1 blocks (LaunchedBlocks). */
  predicate InLaunch(block: nat, size: nat, threads: nat) {
    block * threads <= size
  }

  predicate Launched(t: TensorInfo, th: Thread) {
    && InLaunch(th.blockX, t.gridSizeX, 16) && th.threadX < 16
    && InLaunch(th.blockY, t.gridSizeY, 16) && th.threadY < 16
    && InLaunch(th.blockZ, t.numBBoxes, 4) && th.threadZ < 4
  }

  /** The launch has size / threads + 1 blocks in each dimension, of 16, 16 and 4 threads. */
  lemma {:induction false} LaunchedBlocks(t: TensorInfo, th: Thread)
    ensures Launched(t, th) <==>
      && th.blockX < t.gridSizeX / 16 + 1 && th.blockY < t.gridSizeY / 16 + 1 && th.blockZ < t.numBBoxes / 4 + 1
      && th.threadX < 16 && th.threadY < 16 && th.threadZ < 4
    ensures Xid(th) == 16 * th.blockX + th.threadX && Yid(th) == 16 * th.blockY + th.threadY
    ensures Zid(th) == 4 * th.blockZ + th.threadZ
  {
    QuotientBound(t.gridSizeX, 16, th.blockX);
    QuotientBound(t.gridSizeY, 16, th.blockY);
    QuotientBound(t.numBBoxes, 4, th.blockZ);
  }

  function Xid(th: Thread): nat { th.blockX * 16 + th.threadX }
  function Yid(th: Thread): nat { th.blockY * 16 + th.threadY }
  function Zid(th: Thread): nat { th.blockZ * 4 + th.threadZ }

  /** The thread does not return at the top of the kernel. */
  predicate Works(t: TensorInfo, th: Thread) {
    Launched(t, th) && InHead(t, Zid(th), Yid(th), Xid(th))
  }

  /** "numGridCells", "bbindex" and "count": unsigned arithmetic converted to int. */
  function GridCells(t: TensorInfo): Int32 {
    ToInt32(ToWord(Product(t.gridSizeX, t.gridSizeY)))
  }

  function GridIndex(t: TensorInfo, y: nat, x: nat): Int32 {
    ToInt32(ToWord(Product(y, t.gridSizeX)) + x)
  }

  function CountOf(numGridCells: Int32, z: nat, bbindex: Int32, last: nat): Int32 {
    ToInt32(ToWord(ToWord(Product(numGridCells, z)) + bbindex) + last)
  }

  function Count(t: TensorInfo, last: nat, z: nat, y: nat, x: nat): Int32 {
    CountOf(GridCells(t), z, GridIndex(t, y, x), last)
  }

  /** For every cell of a head exactly one thread works on it. */
  lemma {:induction false} OneThreadPerCell(t: TensorInfo, z: nat, y: nat, x: nat) returns (th: Thread)
    requires InHead(t, z, y, x)
    ensures Works(t, th) && Zid(th) == z && Yid(th) == y && Xid(th) == x
    ensures forall other :: Launched(t, other) && Zid(other) == z && Yid(other) == y && Xid(other) == x ==> other == th
  {
    th := Thread(x / 16, y / 16, z / 4, x % 16, y % 16, z % 4);
  }

  lemma {:induction false} WrapOfFactor(a: int, b: int)
    ensures ToWord(Product(a, ToWord(b))) == ToWord(Product(a, b))
  {
    WrapOfProduct(b, a);
    Swap(a, b);
    Swap(a, ToWord(b));
  }

  lemma {:induction false} SignedFactor(a: int, b: int)
    ensures ToWord(Product(ToInt32(a), b)) == ToWord(Product(a, b))
  {
    WrapOfProduct(ToInt32(a), b);
    WrapOfProduct(a, b);
    ConversionsAgree(a);
  }

  lemma {:induction false} Swap(a: int, b: int)
    ensures Product(a, b) == b * a
  {
  }

  lemma {:induction false} WrapOfSum(a: int, b: int)
    ensures ToWord(ToWord(a) + ToWord(b)) == ToWord(a + b)
    ensures ToWord(ToInt32(a) + ToWord(b)) == ToWord(a + b)
  {
    WrapTwice(a, ToWord(b));
    WrapTwice(b, a);
  }

  lemma {:induction false} GridWraps(t: TensorInfo, y: nat, x: nat)
    ensures GridIndex(t, y, x) == ToInt32(GridCell(t, y, x))
    ensures GridCells(t) == ToInt32(Area(t))
  {
    WrapTwice(Product(y, t.gridSizeX), x);
  }

  lemma {:induction false} NatWraps(n: nat)
    ensures ToWord(n) == n <==> n < TWO_TO_THE_32
    ensures ToWord(n) <= n
  {
  }

  /** The wrapped arithmetic loses a multiple of 2^32 only. */
  lemma {:induction false} CountWraps(t: TensorInfo, last: nat, z: nat, y: nat, x: nat)
    ensures Count(t, last, z, y, x) == ToInt32(last + Offset(t, z, y, x))
  {
    GridWraps(t, y, x);
    OffsetParts(t, z, y, x);
    CountOfWraps(Area(t), z, GridCell(t, y, x), last);
  }

  lemma {:induction false} CountOfWraps(area: int, z: nat, cell: int, last: nat)
    ensures CountOf(ToInt32(area), z, ToInt32(cell), last) == ToInt32(last + (Product(area, z) + cell))
  {
    SignedFactor(area, z);
    SumWraps(Product(area, z), cell, last);
  }

  lemma {:induction false} SumWraps(plane: int, cell: int, last: int)
    ensures ToInt32(ToWord(ToWord(plane) + ToInt32(cell)) + last) == ToInt32(last + (plane + cell))
  {
    WrapTwice(plane, ToInt32(cell));
    WrapTwice(cell, plane);
    WrapTwice(ToWord(plane) + ToInt32(cell), last);
    WrapTwice(plane + cell, last);
  }

  lemma {:induction false} SmallUnwrapped(x: nat)
    ensures ToInt32(x) == x <==> x < 0x8000_0000
  {
    NatWraps(x);
  }

  /** The layout of the boxes: plane after plane, row after row. */
  lemma {:induction false} OffsetIs(t: TensorInfo, z: nat, y: nat, x: nat)
    ensures Offset(t, z, y, x) == (z * t.gridSizeY + y) * t.gridSizeX + x
    ensures Cells(t) == t.numBBoxes * t.gridSizeY * t.gridSizeX
  {
    assert (z * t.gridSizeY + y) * t.gridSizeX == z * t.gridSizeY * t.gridSizeX + y * t.gridSizeX;
  }

  /** Every count of a head is the box of its thread's cell, exactly when the head ends by box 2^31. */
  lemma {:induction false} CountsExact(t: TensorInfo, last: nat)
    ensures Cells(t) == 0 || last + Cells(t) <= 0x8000_0000 <==>
      forall z, y, x :: InHead(t, z, y, x) ==> Count(t, last, z, y, x) == last + Offset(t, z, y, x)
  {
    if Cells(t) == 0 || last + Cells(t) <= 0x8000_0000 {
      forall z, y, x | InHead(t, z, y, x) ensures Count(t, last, z, y, x) == last + Offset(t, z, y, x) {
        OffsetBound(t, z, y, x);
        CountWraps(t, last, z, y, x);
        SmallUnwrapped(last + Offset(t, z, y, x));
      }
    } else {
      var z, y, x := OffsetExists(t, Cells(t) - 1);
      CountWraps(t, last, z, y, x);
      SmallUnwrapped(last + Offset(t, z, y, x));
    }
  }

  lemma {:induction false} OffsetParts(t: TensorInfo, z: nat, y: nat, x: nat)
    ensures Offset(t, z, y, x) == Product(Area(t), z) + GridCell(t, y, x) && 0 <= Product(Area(t), z)
  {
  }

  // ---------------------------------------------------------------- the whole output

  /** A thread of one of the launches, and the value it writes, k = 0 to 5, for one image of the batch. */
  datatype Write = Write(head: nat, thread: Thread, k: nat)

  predicate IsWrite(heads: seq<TensorInfo>, w: Write) {
    w.head < |heads| && Works(heads[w.head], w.thread) && w.k < 6
  }

  /** count * 6 + k, an int, with lastInputSize as enqueue accumulates it. */
  function Address(heads: seq<TensorInfo>, w: Write): Int32
    requires IsWrite(heads, w)
  {
    ToInt32(CountAt(heads, w) * 6 + w.k)
  }

  function CountAt(heads: seq<TensorInfo>, w: Write): Int32
    requires IsWrite(heads, w)
  {
    Count(heads[w.head], Sum32(heads, w.head), Zid(w.thread), Yid(w.thread), Xid(w.thread))
  }

  function CellOf(w: Write): Cell {
    Cell(w.head, Zid(w.thread), Yid(w.thread), Xid(w.thread))
  }

  /** All indices of the output are ints. */
  predicate Addressable(heads: seq<TensorInfo>) {
    6 * First(heads, |heads|) <= 0x8000_0000
  }

  lemma {:induction false} SizesFit(heads: seq<TensorInfo>, k: nat)
    requires k <= |heads| && Addressable(heads)
    ensures Sum32(heads, k) == First(heads, k) <= First(heads, |heads|)
  {
    forall j | 0 <= j < k ensures Cells(heads[j]) < TWO_TO_THE_32 {
      FirstGrows(heads, j + 1, |heads|);
    }
    SizeExact(heads, k);
    FirstGrows(heads, k, |heads|);
  }

  lemma {:induction false} CountAtExact(heads: seq<TensorInfo>, w: Write)
    requires IsWrite(heads, w) && Addressable(heads)
    ensures IsCell(heads, CellOf(w)) && CountAt(heads, w) == BoxIndex(heads, CellOf(w)) < First(heads, |heads|)
  {
    SizesFit(heads, w.head);
    BoxUnique(heads, CellOf(w), CellOf(w));
    CountWraps(heads[w.head], First(heads, w.head), Zid(w.thread), Yid(w.thread), Xid(w.thread));
    SmallUnwrapped(BoxIndex(heads, CellOf(w)));
  }

  lemma {:induction false} AddressExact(heads: seq<TensorInfo>, w: Write)
    requires IsWrite(heads, w) && Addressable(heads)
    ensures IsCell(heads, CellOf(w)) && Address(heads, w) == BoxIndex(heads, CellOf(w)) * 6 + w.k
  {
    CountAtExact(heads, w);
    SmallUnwrapped(BoxIndex(heads, CellOf(w)) * 6 + w.k);
  }

  predicate WritesItsBox(heads: seq<TensorInfo>, w: Write) {
    IsWrite(heads, w) && Address(heads, w) == BoxIndex(heads, CellOf(w)) * 6 + w.k
  }

  /** Every thread writes the values of its own box exactly when all indices of the output are ints. */
  lemma {:induction false} AddressesExact(heads: seq<TensorInfo>)
    ensures Addressable(heads) <==> forall w :: IsWrite(heads, w) ==> WritesItsBox(heads, w)
  {
    if Addressable(heads) {
      forall w | IsWrite(heads, w) ensures WritesItsBox(heads, w) {
        AddressExact(heads, w);
      }
    } else {
      var w := WriterOf(heads, 0x8000_0000);
      assert BoxIndex(heads, CellOf(w)) * 6 + w.k == 0x8000_0000;
    }
  }

  /** The thread whose box holds value a of the output. */
  lemma {:induction false} WriterOf(heads: seq<TensorInfo>, a: nat) returns (w: Write)
    requires a < 6 * First(heads, |heads|)
    ensures IsWrite(heads, w) && BoxIndex(heads, CellOf(w)) * 6 + w.k == a
  {
    var c := BoxOwned(heads, |heads|, a / 6);
    var th := OneThreadPerCell(heads[c.head], c.z, c.y, c.x);
    w := Write(c.head, th, a % 6);
  }

  /** A thread is known by its cell. */
  lemma {:induction false} ThreadUnique(t: TensorInfo, th: Thread, th': Thread)
    requires Launched(t, th) && Launched(t, th')
    requires Zid(th) == Zid(th') && Yid(th) == Yid(th') && Xid(th) == Xid(th')
    ensures th == th'
  {
  }

  /** No two writes of the threads of all launches go to the same address, and none leaves the output,
      which holds outputSize * 6 values: the launches need no order and no synchronisation. */
  lemma {:induction false} WritesDisjoint(heads: seq<TensorInfo>, w: Write, w': Write)
    requires IsWrite(heads, w) && IsWrite(heads, w') && Addressable(heads)
    ensures 0 <= Address(heads, w) < 6 * Sum32(heads, |heads|)
    ensures Address(heads, w) == Address(heads, w') ==> w == w'
  {
    SizesFit(heads, |heads|);
    AddressExact(heads, w);
    AddressExact(heads, w');
    BoxUnique(heads, CellOf(w), CellOf(w'));
    var a, a' := Address(heads, w), Address(heads, w');
    if a == a' {
      DigitsUnique(6, BoxIndex(heads, CellOf(w)), w.k, BoxIndex(heads, CellOf(w')), w'.k);
      ThreadUnique(heads[w.head], w.thread, w'.thread);
    }
  }

  /** Every address of the output is written. */
  lemma {:induction false} OutputCovered(heads: seq<TensorInfo>, a: nat) returns (w: Write)
    requires Addressable(heads) && a < 6 * Sum32(heads, |heads|)
    ensures IsWrite(heads, w) && Address(heads, w) == a
  {
    SizesFit(heads, |heads|);
    w := WriterOf(heads, a);
    AddressExact(heads, w);
  }
}
