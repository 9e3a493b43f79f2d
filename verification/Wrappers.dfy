/** Results that may be absent, and the machine integers of the original program. */
module Wrappers {

  datatype Option<+T> = None | Some(value: T)

  const TWO_TO_THE_32: int := 0x1_0000_0000
  const TWO_TO_THE_64: int := 0x1_0000_0000_0000_0000

  /** A 32-bit word: an unsigned int, or the bit pattern of a float. */
  type Word = x: int | 0 <= x < TWO_TO_THE_32

  /** A 32-bit signed int. */
  type Int32 = x: int | -0x8000_0000 <= x < 0x8000_0000

  /** A 64-bit unsigned int. */
  type Word64 = x: int | 0 <= x < TWO_TO_THE_64

  /** Conversion to a 32-bit unsigned int. */
  function ToWord(x: int): Word {
    x % TWO_TO_THE_32
  }

  /** Conversion to a 32-bit signed int (two's complement). */
  function ToInt32(x: int): Int32 {
    var w := x % TWO_TO_THE_32;
    if w < 0x8000_0000 then w else w - TWO_TO_THE_32
  }

  /** Both conversions forget the same multiple of 2^32, so one undoes the other. */
  lemma {:induction false} ConversionsAgree(x: int)
    ensures ToWord(ToInt32(x)) == ToWord(x)
    ensures -0x8000_0000 <= x < 0x8000_0000 ==> ToInt32(ToWord(x)) == x
  {
  }

  /** Wrapping early or late makes no difference. */
  lemma {:induction false} WrapTwice(x: int, k: int)
    ensures ToWord(ToWord(x) + k) == ToWord(x + k)
    ensures ToWord(ToInt32(x) + k) == ToWord(x + k)
  {
    assert ToWord(x) == x - x / TWO_TO_THE_32 * TWO_TO_THE_32;
    Periodic(x + k, -(x / TWO_TO_THE_32));
    Periodic(x + k, -(x / TWO_TO_THE_32) - 1);
  }

  lemma {:induction false} Periodic(x: int, n: int)
    ensures ToWord(x + n * TWO_TO_THE_32) == ToWord(x)
  {
  }

  /** The wrapped value, for an integer less than one turn away. */
  lemma {:induction false} WrapOnce(x: int)
    ensures 0 <= x < TWO_TO_THE_32 ==> ToWord(x) == x
    ensures -TWO_TO_THE_32 <= x < 0 ==> ToWord(x) == x + TWO_TO_THE_32
  {
  }
}
