/** Words as little-endian bytes. */
module Bytes {
  import opened Wrappers

  type Byte = x: int | 0 <= x < 256

  /** The four bytes of a word, lowest first. */
  function WordBytes(w: Word): (b: seq<Byte>)
    ensures |b| == 4
  {
    var q, q' := w / 256, w / 256 / 256;
    [w % 256, q % 256, q' % 256, q' / 256]
  }

  function WordOf(b: seq<Byte>): Word
    requires |b| == 4
  {
    Weigh(b[0], Weigh(b[1], Weigh(b[2], b[3])))
  }

  /** The low byte and the rest. */
  function Weigh(low: int, rest: int): int {
    low + 256 * rest
  }

  lemma {:induction false} Unweigh(low: Byte, rest: nat)
    ensures Weigh(low, rest) % 256 == low && Weigh(low, rest) / 256 == rest
  {
  }

  lemma {:induction false} Reweigh(x: nat)
    ensures Weigh(x % 256, x / 256) == x
  {
  }

  lemma {:induction false} WordRoundTrip(w: Word)
    ensures WordOf(WordBytes(w)) == w
  {
    Reweigh(w);
    Reweigh(w / 256);
    Reweigh(w / 256 / 256);
  }

  lemma {:induction false} BytesRoundTrip(b: seq<Byte>)
    requires |b| == 4
    ensures WordBytes(WordOf(b)) == b
  {
    Unweigh(b[0], Weigh(b[1], Weigh(b[2], b[3])));
    Unweigh(b[1], Weigh(b[2], b[3]));
    Unweigh(b[2], b[3]);
  }

  /** Words one after another. */
  function WordsBytes(ws: seq<Word>): (b: seq<Byte>)
    ensures |b| == 4 * |ws|
  {
    if ws == [] then [] else WordsBytes(ws[..|ws| - 1]) + WordBytes(ws[|ws| - 1])
  }

  lemma {:induction false} WordsBytesConcat(a: seq<Word>, b: seq<Word>)
    ensures WordsBytes(a + b) == WordsBytes(a) + WordsBytes(b)
  {
    if b == [] {
      assert a + b == a;
    } else {
      var c := a + b;
      assert c[..|c| - 1] == a + b[..|b| - 1];
      WordsBytesConcat(a, b[..|b| - 1]);
    }
  }

  lemma {:induction false} FirstWord(w: Word, ws: seq<Word>)
    ensures WordsBytes([w] + ws) == WordBytes(w) + WordsBytes(ws)
  {
    WordsBytesConcat([w], ws);
    assert WordsBytes([w]) == WordsBytes([w][..0]) + WordBytes(w);
  }

  /** The first byte is the lowest. */
  lemma {:induction false} WordValue(b: seq<Byte>)
    requires |b| == 4
    ensures WordOf(b) == b[0] as int + 0x100 * b[1] as int + 0x1_0000 * b[2] as int + 0x100_0000 * b[3] as int
  {
  }
}
