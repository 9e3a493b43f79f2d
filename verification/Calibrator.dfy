/** The INT8 calibrators: Int8EntropyCalibrator2 (calibrator.cpp) and ReIDEntropyCalibrator
    (calibrate.py). Images are what reading and preparing a file gives at the time of the call. */
module Calibrator {
  import opened Wrappers
  import opened Digits
  import opened BatchCursor

  /** Which of the images can be read. */
  function ReadableOf<T>(images: seq<Option<T>>): (r: seq<bool>)
    ensures |r| == |images| && forall i :: 0 <= i < |r| ==> r[i] == images[i].Some?
  {
    seq(|images|, i requires 0 <= i < |images| => images[i].Some?)
  }

  /** Images one after another. */
  function Flatten<T>(images: seq<Option<seq<T>>>): seq<T>
    requires AllRead(images)
  {
    if images == [] then [] else Flatten(images[..|images| - 1]) + images[|images| - 1].value
  }

  predicate Sized<T>(images: seq<Option<seq<T>>>, size: nat) {
    forall i :: 0 <= i < |images| ==> images[i].Some? ==> |images[i].value| == size
  }

  /** Value j of image k lands at k * size + j. */
  lemma {:induction false} FlattenAt<T>(images: seq<Option<seq<T>>>, size: nat, k: nat, j: nat)
    requires AllRead(images)
    requires Sized(images, size) && k < |images| && j < size
    ensures |Flatten(images)| == |images| * size
    ensures k * size + j < |images| * size && Flatten(images)[k * size + j] == images[k].value[j]
  {
    var n := |images| - 1;
    FlattenSize(images, size);
    FlattenSize(images[..n], size);
    DigitsBound(size, |images|, k, j);
    assert size * k == k * size && size * |images| == |images| * size;
    if k < n {
      FlattenAt(images[..n], size, k, j);
    }
  }

  lemma {:induction false} FlattenSize<T>(images: seq<Option<seq<T>>>, size: nat)
    requires AllRead(images)
    requires Sized(images, size)
    ensures |Flatten(images)| == |images| * size
  {
    if images != [] {
      FlattenSize(images[..|images| - 1], size);
      OneMore(|images| - 1, size);
    }
  }

  lemma {:induction false} OneMoreImage<T>(before: seq<Option<seq<T>>>, image: Option<seq<T>>, all: seq<Option<seq<T>>>)
    requires AllRead(before) && image.Some? && all == before + [image]
    ensures Flatten(all) == Flatten(before) + image.value
  {
    assert all[..|all| - 1] == before;
  }

  class Int8EntropyCalibrator2 {
    const batchSize: nat
    const imageSize: nat
    const imgPaths: seq<string>
    const batchData: array<real>
    var imageIndex: nat
    var deviceInput: seq<real>

    predicate Valid()
      reads this
    {
      && batchSize > 0 && batchData.Length == batchSize * imageSize
      && imageIndex <= |imgPaths| < TWO_TO_THE_32
    }

    constructor (batchSize: nat, channels: nat, height: nat, width: nat, imgPaths: seq<string>)
      requires batchSize > 0 && |imgPaths| < TWO_TO_THE_32
      ensures Valid() && imageIndex == 0 && fresh(batchData)
      ensures this.batchSize == batchSize && this.imageSize == channels * height * width && this.imgPaths == imgPaths
    {
      this.batchSize, this.imageSize, this.imgPaths := batchSize, channels * height * width, imgPaths;
      batchData := new real[batchSize * (channels * height * width)];
      imageIndex, deviceInput := 0, [];
    }

    /** A call delivers the next batch to the device, or changes neither the cursor nor the device. */
    method GetBatch(images: seq<Option<seq<real>>>) returns (ok: bool)
      requires Valid() && |images| == |imgPaths| && Sized(images, imageSize)
      modifies this, batchData
      ensures Valid()
      ensures ok <==> Delivers(ReadableOf(images), old(imageIndex), batchSize)
      ensures ok ==> imageIndex == old(imageIndex) + batchSize
      ensures ok ==> deviceInput == batchData[..] == Flatten(images[old(imageIndex)..imageIndex])
      ensures !ok ==> imageIndex == old(imageIndex) && deviceInput == old(deviceInput)
    {
      if imageIndex + batchSize > |imgPaths| { return false; }
      ghost var batch := images[imageIndex..imageIndex + batchSize];
      assert forall j :: 0 <= j < batchSize ==> batch[j] == images[imageIndex + j];
      assert forall j :: imageIndex <= j < imageIndex + batchSize ==> images[j] == batch[j - imageIndex];
      var read := ReadBatch(images[imageIndex..imageIndex + batchSize]);
      if !read { return false; }
      imageIndex := imageIndex + batchSize;
      deviceInput := batchData[..];
      ok := true;
    }

    /** The loop over the images of a batch, which ends at the first one that cannot be read. */
    method ReadBatch(images: seq<Option<seq<real>>>) returns (ok: bool)
      requires batchData.Length == |images| * imageSize && Sized(images, imageSize)
      modifies batchData
      ensures ok <==> AllRead(images)
      ensures ok ==> batchData[..] == Flatten(images)
    {
      var ptr := 0;
      for k := 0 to |images|
        invariant AllRead(images[..k])
        invariant ptr == k * imageSize <= batchData.Length && batchData[..ptr] == Flatten(images[..k])
      {
        if images[k].None? { return false; }
        TileFits(k, |images|, imageSize);
        OneMoreImage(images[..k], images[k], images[..k + 1]);
        MemCopy(batchData, ptr, images[k].value);
        ptr := ptr + imageSize;
      }
      assert images[..|images|] == images && batchData[..ptr] == batchData[..];
      ok := true;
    }
  }

  predicate AllRead<T>(images: seq<Option<T>>) {
    forall i :: 0 <= i < |images| ==> images[i].Some?
  }

  /** memcpy(ptr, data, len) into the buffer. */
  method MemCopy(buffer: array<real>, ptr: nat, data: seq<real>)
    requires ptr + |data| <= buffer.Length
    modifies buffer
    ensures buffer[..ptr + |data|] == old(buffer[..ptr]) + data
    ensures buffer[ptr + |data|..] == old(buffer[ptr + |data|..])
  {
    forall j | 0 <= j < |data| {
      buffer[ptr + j] := data[j];
    }
  }

  class ReIDEntropyCalibrator<T> {
    const data: seq<T>
    const batchSize: nat := 4
    var currentIndex: nat

    constructor (data: seq<T>)
      ensures this.data == data && currentIndex == 0
    {
      this.data, currentIndex := data, 0;
    }

    /** The next four images, or None without moving. */
    method GetBatch() returns (batch: Option<seq<T>>)
      requires currentIndex <= |data|
      modifies this
      ensures currentIndex <= |data|
      ensures batch.Some? <==> old(currentIndex) + 4 <= |data|
      ensures batch.Some? <==> Delivers(Repeat(true, |data|), old(currentIndex), 4)
      ensures batch.Some? ==> currentIndex == old(currentIndex) + 4
                              && batch.value == data[old(currentIndex)..currentIndex]
      ensures batch.None? ==> currentIndex == old(currentIndex)
    {
      if currentIndex + batchSize > |data| { return None; }
      batch := Some(data[currentIndex..currentIndex + batchSize]);
      currentIndex := currentIndex + batchSize;
    }
  }
}
