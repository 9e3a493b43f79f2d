/** prepareImage (calibrator.cpp): the resize that covers the input, the centre crop, and the planar
    layout of the result. Scale factors are exact. */
module PrepareImage {
  import opened Wrappers
  import opened Digits
  import opened Calibrator

  // ---------------------------------------------------------------- resize and crop

  /** The nearest integer; halves go to the even one (cvRound). */
  function Round(x: real): (n: int)
    ensures x - 0.5 <= n as real <= x + 0.5
    ensures n as real == x - 0.5 || n as real == x + 0.5 ==> n % 2 == 0
  {
    var f := x.Floor;
    var d := x - f as real;
    if d < 0.5 || (d == 0.5 && f % 2 == 0) then f else f + 1
  }

  /** std::max(inputW / imageW, inputH / imageH) */
  function ResizeFactor(imageW: nat, imageH: nat, inputW: nat, inputH: nat): real
    requires imageW > 0 && imageH > 0
  {
    var x, y := inputW as real / imageW as real, inputH as real / imageH as real;
    if x < y then y else x
  }

  function Scale(side: nat, f: real): real {
    side as real * f
  }

  /** The sides after cv::resize and the corner of the crop. */
  datatype Crop = Crop(cols: int, rows: int, x: int, y: int)

  /** int of 0.5 * d: truncation toward zero. */
  function HalfOf(d: int): int {
    if d >= 0 then d / 2 else -(-d / 2)
  }

  function CropOf(imageW: nat, imageH: nat, inputW: nat, inputH: nat): Crop
    requires imageW > 0 && imageH > 0
  {
    if imageW == inputW && imageH == inputH then Crop(imageW, imageH, 0, 0)
    else
      var f := ResizeFactor(imageW, imageH, inputW, inputH);
      var cols, rows := Round(Scale(imageW, f)), Round(Scale(imageH, f));
      Crop(cols, rows, HalfOf(cols - inputW), HalfOf(rows - inputH))
  }

  /** A side scaled by at least its own factor covers the input, and by exactly that factor equals it. */
  lemma {:induction false} ScaledSide(side: nat, input: nat, f: real)
    requires side > 0 && f >= input as real / side as real
    ensures Round(Scale(side, f)) >= input
    ensures f == input as real / side as real ==> Round(Scale(side, f)) == input
  {
    var b, q := side as real, input as real / side as real;
    assert b * q == input as real;
    assert b * (f - q) >= 0.0;
    assert b * f == b * q + b * (f - q);
    RoundKeeps(Scale(side, f), input);
  }

  lemma {:induction false} RoundKeeps(x: real, n: int)
    ensures x >= n as real ==> Round(x) >= n
    ensures x == n as real ==> Round(x) == n
  {
  }

  lemma {:induction false} SidesCover(imageW: nat, imageH: nat, inputW: nat, inputH: nat)
    requires imageW > 0 && imageH > 0
    ensures var c := CropOf(imageW, imageH, inputW, inputH);
      c.cols >= inputW && c.rows >= inputH && (c.cols == inputW || c.rows == inputH)
  {
    var f := ResizeFactor(imageW, imageH, inputW, inputH);
    ScaledSide(imageW, inputW, f);
    ScaledSide(imageH, inputH, f);
  }

  /** The resized image covers the network input, and exactly so in one direction; the crop lies inside
      it, and opposite margins differ by at most one pixel. */
  lemma {:induction false} CropCovers(imageW: nat, imageH: nat, inputW: nat, inputH: nat, c: Crop)
    requires imageW > 0 && imageH > 0 && c == CropOf(imageW, imageH, inputW, inputH)
    ensures c.cols >= inputW && c.rows >= inputH && (c.cols == inputW || c.rows == inputH)
    ensures 0 <= c.x && c.x + inputW <= c.cols && 0 <= c.y && c.y + inputH <= c.rows
    ensures 0 <= (c.cols - c.x - inputW) - c.x <= 1 && 0 <= (c.rows - c.y - inputH) - c.y <= 1
  {
    SidesCover(imageW, imageH, inputW, inputH);
    HalfExact(c.cols - inputW);
    HalfExact(c.rows - inputH);
    CornerIsHalf(imageW, imageH, inputW, inputH);
  }

  /** One factor f scales both sides, each rounded: the larger of the two that make a side fit. An image of
      the input's size is left alone. */
  lemma {:induction false} CropScales(imageW: nat, imageH: nat, inputW: nat, inputH: nat, c: Crop) returns (f: real)
    requires imageW > 0 && imageH > 0 && c == CropOf(imageW, imageH, inputW, inputH)
    ensures imageW == inputW && imageH == inputH ==> c == Crop(imageW, imageH, 0, 0)
    ensures imageW != inputW || imageH != inputH ==>
      && c.cols == Round(f * imageW as real) && c.rows == Round(f * imageH as real)
      && f * imageW as real >= inputW as real && f * imageH as real >= inputH as real
      && (f * imageW as real == inputW as real || f * imageH as real == inputH as real)
  {
    f := ResizeFactor(imageW, imageH, inputW, inputH);
    FactorFits(imageW, inputW, f);
    FactorFits(imageH, inputH, f);
  }

  lemma {:induction false} FactorFits(side: nat, input: nat, f: real)
    requires side > 0
    ensures f >= input as real / side as real <==> f * side as real >= input as real
    ensures f == input as real / side as real <==> f * side as real == input as real
    ensures Scale(side, f) == f * side as real
  {
    var b, q := side as real, input as real / side as real;
    assert b * q == input as real;
    assert b * (f - q) == b * f - b * q;
    if f >= q { assert b * (f - q) >= 0.0; } else { assert b * (q - f) > 0.0; }
  }

  /** A picture of 1920 by 1080 for an input of 608 by 608. */
  lemma {:induction false} CropExample()
    ensures CropOf(1920, 1080, 608, 608) == Crop(1081, 608, 236, 0)
  {
    var f := ResizeFactor(1920, 1080, 608, 608);
    assert f == 608.0 / 1080.0;
    FactorFits(1080, 608, f);
    RoundKeeps(Scale(1080, f), 608);
    assert 1080.5 < Scale(1920, f) < 1081.0;
  }

  lemma {:induction false} CornerIsHalf(imageW: nat, imageH: nat, inputW: nat, inputH: nat)
    requires imageW > 0 && imageH > 0
    ensures var c := CropOf(imageW, imageH, inputW, inputH);
      c.x == HalfOf(c.cols - inputW) && c.y == HalfOf(c.rows - inputH)
  {
  }

  lemma {:induction false} HalfExact(d: int)
    ensures d >= 0 ==> 0 <= d - 2 * HalfOf(d) <= 1 && HalfOf(d) >= 0
  {
  }

  // ---------------------------------------------------------------- planar layout

  /** cv::split: channel c of an interleaved picture of n pixels. */
  function Channel(pixels: seq<real>, channels: nat, n: nat, c: nat): (r: seq<real>)
    requires c < channels && |pixels| == n * channels
    ensures |r| == n && forall i :: 0 <= i < n ==> i * channels + c < |pixels| && r[i] == pixels[i * channels + c]
  {
    assert forall i :: 0 <= i < n ==> i * channels + c < |pixels| by {
      forall i | 0 <= i < n ensures i * channels + c < n * channels {
        TileFits(i, n, channels);
      }
    }
    seq(n, i requires 0 <= i < n && i * channels + c < |pixels| => pixels[i * channels + c])
  }

  /** The loop that copies the channels one after another. */
  method CopyPlanes(pixels: seq<real>, inputC: nat, inputH: nat, inputW: nat) returns (result: array<real>)
    requires |pixels| == inputH * inputW * inputC
    ensures fresh(result) && result.Length == inputC * (inputH * inputW)
    ensures forall c, i :: 0 <= c < inputC && 0 <= i < inputH * inputW ==>
      Planar(result[..], pixels, inputC, inputH * inputW, c, i)
  {
    var channelLength := inputH * inputW;
    result := new real[inputC * channelLength];
    var data := 0;
    for c := 0 to inputC
      invariant data == c * channelLength <= result.Length
      invariant forall b, i :: 0 <= b < c && 0 <= i < channelLength ==>
        Planar(result[..], pixels, inputC, channelLength, b, i)
    {
      TileFits(c, inputC, channelLength);
      ghost var before := result[..];
      var plane := Channel(pixels, inputC, channelLength, c);
      MemCopy(result, data, plane);
      forall b, i | 0 <= b < c + 1 && 0 <= i < channelLength
        ensures Planar(result[..], pixels, inputC, channelLength, b, i)
      {
        PlaneKept(before, result[..], plane, pixels, inputC, channelLength, c, b, i);
      }
      data := data + channelLength;
    }
  }

  /** Pixel i of plane c holds channel c of pixel i. */
  predicate Planar(result: seq<real>, pixels: seq<real>, channels: nat, n: nat, c: nat, i: nat) {
    && c * n + i < |result| && i * channels + c < |pixels|
    && result[c * n + i] == pixels[i * channels + c]
  }

  lemma {:induction false} PlaneKept(before: seq<real>, after: seq<real>, plane: seq<real>, pixels: seq<real>,
      channels: nat, n: nat, c: nat, b: nat, i: nat)
    requires b <= c < channels && i < n && |pixels| == n * channels && plane == Channel(pixels, channels, n, c)
    requires |before| == |after| && c * n + n <= |after|
    requires after[..c * n + n] == before[..c * n] + plane
    requires b < c ==> Planar(before, pixels, channels, n, b, i)
    ensures Planar(after, pixels, channels, n, b, i)
  {
    if b < c {
      TileFits(b, c, n);
      PlanarKept(before, after, plane, pixels, channels, n, c * n, b, i);
    } else {
      Appended(before, after, plane, c * n, c * n + i);
    }
  }

  lemma {:induction false} PlanarKept(before: seq<real>, after: seq<real>, plane: seq<real>, pixels: seq<real>,
      channels: nat, n: nat, base: nat, b: nat, i: nat)
    requires |before| == |after| && base + |plane| <= |after| && b * n + i < base
    requires after[..base + |plane|] == before[..base] + plane
    requires Planar(before, pixels, channels, n, b, i)
    ensures Planar(after, pixels, channels, n, b, i)
  {
    Appended(before, after, plane, base, b * n + i);
  }

  lemma {:induction false} Appended(before: seq<real>, after: seq<real>, plane: seq<real>, base: nat, j: nat)
    requires base <= |before| == |after| && j < base + |plane| <= |after|
    requires after[..base + |plane|] == before[..base] + plane
    ensures after[j] == if j < base then before[j] else plane[j - base]
  {
    assert after[j] == after[..base + |plane|][j];
  }

  // ---------------------------------------------------------------- where a value lands

  /** A value of a batch: image k, channel c, row y, column x. */
  datatype Place = Place(k: nat, c: nat, y: nat, x: nat)

  predicate IsPlace(p: Place, batch: nat, channels: nat, height: nat, width: nat) {
    p.k < batch && p.c < channels && p.y < height && p.x < width
  }

  function RowIndex(p: Place, width: nat): nat {
    p.y * width + p.x
  }

  function PlaneIndex(p: Place, height: nat, width: nat): nat {
    p.c * (height * width) + RowIndex(p, width)
  }

  /** k * C*H*W + c * H*W + y * W + x */
  function Position(p: Place, channels: nat, height: nat, width: nat): nat {
    p.k * (channels * (height * width)) + PlaneIndex(p, height, width)
  }

  /** The formula of the layout. */
  lemma {:induction false} PositionIs(p: Place, channels: nat, height: nat, width: nat)
    ensures Position(p, channels, height, width) == ((p.k * channels + p.c) * height + p.y) * width + p.x
    ensures RowIndex(p, width) == p.y * width + p.x
  {
    assert p.k * (channels * (height * width)) == p.k * channels * height * width;
    assert p.c * (height * width) == p.c * height * width;
    assert ((p.k * channels + p.c) * height + p.y) * width
        == p.k * channels * height * width + p.c * height * width + p.y * width;
  }

  /** The three digits of a position, each below its base. */
  lemma {:induction false} PositionParts(p: Place, batch: nat, channels: nat, height: nat, width: nat)
    requires IsPlace(p, batch, channels, height, width)
    ensures RowIndex(p, width) < height * width
    ensures PlaneIndex(p, height, width) < channels * (height * width)
    ensures Position(p, channels, height, width) < batch * (channels * (height * width))
  {
    Below(p.y, p.x, height, width);
    Below(p.c, RowIndex(p, width), channels, height * width);
    Below(p.k, PlaneIndex(p, height, width), batch, channels * (height * width));
  }

  lemma {:induction false} Below(q: nat, r: nat, n: nat, base: nat)
    requires q < n && r < base
    ensures q * base + r < n * base
  {
    DigitsBound(base, n, q, r);
    Commute(base, n);
    Commute(base, q);
  }

  lemma {:induction false} Unique(base: nat, q: nat, r: nat, q': nat, r': nat)
    requires r < base && r' < base && q * base + r == q' * base + r'
    ensures q == q' && r == r'
  {
    Commute(base, q);
    Commute(base, q');
    DigitsUnique(base, q, r, q', r');
  }

  lemma {:induction false} Exists(base: nat, n: nat, v: nat) returns (q: nat, r: nat)
    requires v < n * base
    ensures q < n && r < base && v == q * base + r
  {
    Commute(base, n);
    q, r := DigitsExist(base, n, v);
    Commute(base, q);
  }

  lemma {:induction false} SameImage(p: Place, q: Place, batch: nat, channels: nat, height: nat, width: nat)
    requires IsPlace(p, batch, channels, height, width) && IsPlace(q, batch, channels, height, width)
    requires Position(p, channels, height, width) == Position(q, channels, height, width)
    ensures p.k == q.k && PlaneIndex(p, height, width) == PlaneIndex(q, height, width)
  {
    PositionParts(p, batch, channels, height, width);
    PositionParts(q, batch, channels, height, width);
    Unique(channels * (height * width), p.k, PlaneIndex(p, height, width), q.k, PlaneIndex(q, height, width));
  }

  lemma {:induction false} SameChannel(p: Place, q: Place, height: nat, width: nat)
    requires p.y < height && p.x < width && q.y < height && q.x < width
    requires PlaneIndex(p, height, width) == PlaneIndex(q, height, width)
    ensures p.c == q.c && RowIndex(p, width) == RowIndex(q, width)
  {
    Below(p.y, p.x, height, width);
    Below(q.y, q.x, height, width);
    Unique(height * width, p.c, RowIndex(p, width), q.c, RowIndex(q, width));
  }

  /** Two values never land at the same position. */
  lemma {:induction false} PositionUnique(p: Place, q: Place, batch: nat, channels: nat, height: nat, width: nat)
    requires IsPlace(p, batch, channels, height, width) && IsPlace(q, batch, channels, height, width)
    requires Position(p, channels, height, width) == Position(q, channels, height, width)
    ensures p == q
  {
    SameImage(p, q, batch, channels, height, width);
    SameChannel(p, q, height, width);
    Unique(width, p.y, p.x, q.y, q.x);
  }

  /** Every position of the buffer is the place of a value. */
  lemma {:induction false} PositionCovered(n: nat, batch: nat, channels: nat, height: nat, width: nat)
      returns (p: Place)
    requires n < batch * (channels * (height * width))
    ensures IsPlace(p, batch, channels, height, width) && Position(p, channels, height, width) == n
  {
    var k, r := Exists(channels * (height * width), batch, n);
    var c, r' := Exists(height * width, channels, r);
    var y, x := Exists(width, height, r');
    p := Place(k, c, y, x);
  }

  /** In a batch of prepared images, channel c of pixel (x, y) of image k is at its position. */
  lemma {:induction false} BatchValue(images: seq<Option<seq<real>>>, pixels: seq<seq<real>>, p: Place,
      channels: nat, height: nat, width: nat)
    requires IsPlace(p, |images|, channels, height, width) && |pixels| == |images|
    requires AllRead(images)
    requires Sized(images, channels * (height * width))
    requires Planar(images[p.k].value, pixels[p.k], channels, height * width, p.c, RowIndex(p, width))
    ensures Position(p, channels, height, width) < |Flatten(images)|
    ensures RowIndex(p, width) * channels + p.c < |pixels[p.k]|
    ensures Flatten(images)[Position(p, channels, height, width)] == pixels[p.k][RowIndex(p, width) * channels + p.c]
  {
    PositionParts(p, |images|, channels, height, width);
    FlattenAt(images, channels * (height * width), p.k, PlaneIndex(p, height, width));
    PlanarValue(images[p.k].value, pixels[p.k], p, channels, height, width);
  }

  lemma {:induction false} PlanarValue(image: seq<real>, pixels: seq<real>, p: Place, channels: nat, height: nat,
      width: nat)
    requires Planar(image, pixels, channels, height * width, p.c, RowIndex(p, width))
    ensures PlaneIndex(p, height, width) < |image| && RowIndex(p, width) * channels + p.c < |pixels|
    ensures image[PlaneIndex(p, height, width)] == pixels[RowIndex(p, width) * channels + p.c]
  {
  }
}
