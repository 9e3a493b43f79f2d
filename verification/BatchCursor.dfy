/** A cursor that takes batches of a fixed size from a list: the state of both calibrators
    (calibrator.cpp, calibrate.py), over whole runs. */
module BatchCursor {
  import opened Digits

  /** A batch is delivered: it lies within the list, and every image in it can be read. */
  predicate Delivers(readable: seq<bool>, cursor: nat, size: nat) {
    cursor + size <= |readable| && forall i :: cursor <= i < cursor + size ==> readable[i]
  }

  /** The cursor after some calls. Each call sees its own state of the files. */
  function Cursor(calls: seq<seq<bool>>, size: nat): nat {
    if calls == [] then 0
    else
      var c := Cursor(calls[..|calls| - 1], size);
      if Delivers(calls[|calls| - 1], c, size) then c + size else c
  }

  /** How many of the calls deliver a batch. */
  function Successes(calls: seq<seq<bool>>, size: nat): nat {
    if calls == [] then 0
    else
      Successes(calls[..|calls| - 1], size)
        + if Delivers(calls[|calls| - 1], Cursor(calls[..|calls| - 1], size), size) then 1 else 0
  }

  /** In any run, whatever can be read when, the cursor stands after the batches delivered so far: the
      s-th batch delivered is images s * size to (s + 1) * size - 1, so batches are consecutive,
      disjoint and in order, and a call that fails moves nothing. */
  lemma {:induction false} CursorCounts(calls: seq<seq<bool>>, size: nat)
    ensures Cursor(calls, size) == Successes(calls, size) * size
  {
    if calls != [] {
      var before := calls[..|calls| - 1];
      CursorCounts(before, size);
      OneMore(Successes(before, size), size);
    }
  }

  /** What a run delivers from a list of n items, batch after batch. */
  function Delivered<T>(items: seq<T>, calls: seq<seq<bool>>, size: nat): seq<T>
    requires forall k :: 0 <= k < |calls| ==> |calls[k]| == |items|
  {
    if calls == [] then []
    else
      var before, c := calls[..|calls| - 1], Cursor(calls[..|calls| - 1], size);
      Delivered(items, before, size)
        + if Delivers(calls[|calls| - 1], c, size) then items[c..c + size] else []
  }

  /** In any run, what has been delivered is a prefix of the list: nothing twice, nothing left out. */
  lemma {:induction false} DeliveredPrefix<T>(items: seq<T>, calls: seq<seq<bool>>, size: nat)
    requires forall k :: 0 <= k < |calls| ==> |calls[k]| == |items|
    ensures Cursor(calls, size) <= |items|
    ensures Delivered(items, calls, size) == items[..Cursor(calls, size)]
  {
    if calls != [] {
      var before, c := calls[..|calls| - 1], Cursor(calls[..|calls| - 1], size);
      DeliveredPrefix(items, before, size);
      if Delivers(calls[|calls| - 1], c, size) {
        assert items[..c] + items[c..c + size] == items[..c + size];
      }
    }
  }

  /** The number of images before the first one that cannot be read. */
  function Good(readable: seq<bool>): (m: nat)
    ensures m <= |readable| && (forall i :: 0 <= i < m ==> readable[i]) && (m < |readable| ==> !readable[m])
  {
    if readable == [] || !readable[0] then 0 else 1 + Good(readable[1..])
  }

  function Repeat<T>(x: T, k: nat): (s: seq<T>)
    ensures |s| == k && forall i :: 0 <= i < k ==> s[i] == x
  {
    if k == 0 then [] else Repeat(x, k - 1) + [x]
  }

  function Min(a: nat, b: nat): nat {
    if a < b then a else b
  }

  lemma {:induction false} BatchesFit(m: nat, size: nat, s: nat)
    requires size > 0
    ensures (s + 1) * size <= m <==> s + 1 <= m / size
  {
    var q, r := m / size, m % size;
    assert m == q * size + r;
    if s + 1 <= q {
      assert (s + 1) * size <= q * size by { assert (q - s - 1) * size >= 0; }
    } else {
      assert (s + 1) * size >= (q + 1) * size by { assert (s - q) * size >= 0; }
    }
  }

  lemma {:induction false} OneMoreCall(calls: seq<seq<bool>>, call: seq<bool>, size: nat)
    ensures Successes(calls + [call], size)
         == Successes(calls, size) + if Delivers(call, Cursor(calls, size), size) then 1 else 0
  {
    assert (calls + [call])[..|calls|] == calls;
  }

  /** When the files do not change, the calls deliver the whole batches before the first image that
      cannot be read, one each, and every later call fails. */
  lemma {:induction false} SteadyRun(readable: seq<bool>, size: nat, k: nat)
    requires size > 0
    ensures Successes(Repeat(readable, k), size) == Min(k, Good(readable) / size)
  {
    if k > 0 {
      var before := Repeat(readable, k - 1);
      SteadyRun(readable, size, k - 1);
      CursorCounts(before, size);
      OneMoreCall(before, readable, size);
      SteadyCall(readable, size, Successes(before, size));
    }
  }

  lemma {:induction false} SteadyCall(readable: seq<bool>, size: nat, s: nat)
    requires size > 0 && s <= Good(readable) / size
    ensures Delivers(readable, s * size, size) <==> s < Good(readable) / size
  {
    var m := Good(readable);
    BatchesFit(m, size, s);
    if s > 0 { BatchesFit(m, size, s - 1); }
    assert s * size <= m;
    OneMore(s, size);
    if m < s * size + size <= |readable| {
      assert !readable[m];
    }
  }

  /** With every image readable, exactly floor(n / size) calls deliver. */
  lemma {:induction false} AllReadable(n: nat, size: nat, k: nat)
    requires size > 0
    ensures Successes(Repeat(Repeat(true, n), k), size) == Min(k, n / size)
  {
    SteadyRun(Repeat(true, n), size, k);
  }
}
