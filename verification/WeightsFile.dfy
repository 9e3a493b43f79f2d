/** loadWeights (utils.cpp): a header and 4-byte floats. */
module WeightsFile {
  import opened Wrappers
  import opened Bytes

  /** std::string::find(...) != npos */
  predicate Contains(s: string, part: string) {
    exists i :: 0 <= i <= |s| - |part| && StandsAt(s, part, i)
  }

  predicate StandsAt(s: string, part: string, i: nat) {
    i + |part| <= |s| && s[i..i + |part|] == part
  }

  /** Four header words for a yolov2 file that is not yolov2-tiny, and five otherwise. */
  function HeaderLength(path: string): nat {
    if Contains(path, "yolov2") && !Contains(path, "yolov2-tiny") then 16 else 20
  }

  /** The floats of a file longer than its header: read exactly when the payload is made of whole
      floats, and then the floats' bytes are the payload. */
  method LoadWeights(path: string, bytes: seq<Byte>) returns (r: Option<seq<Word>>)
    requires |bytes| > HeaderLength(path)
    ensures r.Some? <==> Contains(path, ".weights") && (|bytes| - HeaderLength(path)) % 4 == 0
    ensures r.Some? ==> WordsBytes(r.value) == bytes[HeaderLength(path)..]
  {
    var supported := Contains(path, ".weights");
    if supported {
      r := ReadFloats(bytes[HeaderLength(path)..]);
    } else {
      r := None;
    }
  }

  /** The loop over the rest of the stream. */
  method ReadFloats(payload: seq<Byte>) returns (r: Option<seq<Word>>)
    requires payload != []
    ensures r.Some? <==> |payload| % 4 == 0
    ensures r.Some? ==> WordsBytes(r.value) == payload
  {
    var file := payload;
    var weights: seq<Word> := [];
    while true
      invariant file != [] && |payload| == 4 * |weights| + |file|
      invariant WordsBytes(weights) + file == payload
      decreases |file|
    {
      if |file| < 4 { return None; }
      var w := WordOf(file[..4]);
      BytesRoundTrip(file[..4]);
      OneMoreFloat(weights, w, file, file[4..]);
      weights := weights + [w];
      file := file[4..];
      if file == [] {
        assert WordsBytes(weights) + file == WordsBytes(weights);
        return Some(weights);
      }
    }
  }

  lemma {:induction false} OneMoreFloat(weights: seq<Word>, w: Word, file: seq<Byte>, rest: seq<Byte>)
    requires file == WordBytes(w) + rest
    ensures WordsBytes(weights) + file == WordsBytes(weights + [w]) + rest
  {
    assert (weights + [w])[..|weights|] == weights;
    assert WordsBytes(weights) + (WordBytes(w) + rest) == WordsBytes(weights) + WordBytes(w) + rest;
  }

  lemma {:induction false} SplitEqual(p: seq<Byte>, q: seq<Byte>, p': seq<Byte>, q': seq<Byte>)
    requires |q| == |q'| && p + q == p' + q'
    ensures p == p' && q == q'
  {
    assert |p| == |p'|;
    assert p == (p + q)[..|p|] && p' == (p' + q')[..|p|];
    assert q == (p + q)[|p|..] && q' == (p' + q')[|p|..];
  }

  /** The floats are determined by the payload. */
  lemma {:induction false} PayloadDetermines(a: seq<Word>, b: seq<Word>)
    requires WordsBytes(a) == WordsBytes(b)
    ensures a == b
  {
    if a != [] && b != [] {
      var x, y := a[|a| - 1], b[|b| - 1];
      SplitEqual(WordsBytes(a[..|a| - 1]), WordBytes(x), WordsBytes(b[..|b| - 1]), WordBytes(y));
      WordRoundTrip(x);
      WordRoundTrip(y);
      PayloadDetermines(a[..|a| - 1], b[..|b| - 1]);
      assert a == a[..|a| - 1] + [x] && b == b[..|b| - 1] + [y];
    }
  }

  /** The path is some text, the part, and some text. */
  ghost predicate Mentions(path: string, part: string) {
    exists a: string, b: string :: path == a + part + b
  }

  lemma {:induction false} ContainsMentions(path: string, part: string)
    ensures Contains(path, part) <==> Mentions(path, part)
  {
    if i :| 0 <= i <= |path| - |part| && StandsAt(path, part, i) {
      assert path == path[..i] + part + path[i + |part|..];
    }
    if a: string, b: string :| path == a + part + b {
      assert StandsAt(path, part, |a|);
    }
  }

  /** A header has 16 bytes for yolov2, save for yolov2-tiny, and 20 for any other network. */
  lemma {:induction false} HeaderBytes(path: string)
    ensures Mentions(path, "yolov2") && !Mentions(path, "yolov2-tiny") ==> HeaderLength(path) == 16
    ensures !Mentions(path, "yolov2") || Mentions(path, "yolov2-tiny") ==> HeaderLength(path) == 20
  {
    ContainsMentions(path, "yolov2");
    ContainsMentions(path, "yolov2-tiny");
  }
}
