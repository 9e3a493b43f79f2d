/** Numbers written with two digits, as array layouts do: n == a * q + r with r < a. */
module Digits {

  lemma {:induction false} NextMultiple(a: nat, q: nat, q': nat)
    requires q < q'
    ensures a * q + a <= a * q'
  {
    var d: nat := q' - q - 1;
    assert a * d >= 0;
    calc {
      a * q';
      a * (q + 1 + d);
      a * q + a + a * d;
    }
  }

  /** a * q + r determines q and r. */
  lemma {:induction false} DigitsUnique(a: nat, q: nat, r: nat, q': nat, r': nat)
    requires r < a && r' < a && a * q + r == a * q' + r'
    ensures q == q' && r == r'
  {
    if q < q' {
      NextMultiple(a, q, q');
    } else if q' < q {
      NextMultiple(a, q', q);
    }
  }

  lemma {:induction false} DigitsBound(a: nat, b: nat, q: nat, r: nat)
    requires r < a && q < b
    ensures a * q + r < a * b
  {
    NextMultiple(a, q, b);
  }

  lemma {:induction false} DigitsExist(a: nat, b: nat, n: nat) returns (q: nat, r: nat)
    requires n < a * b
    ensures r < a && q < b && n == a * q + r
  {
    assert a > 0;
    q, r := n / a, n % a;
    assert n == a * q + r;
    if q > b {
      NextMultiple(a, b, q);
    }
  }

  lemma {:induction false} QuotientBound(n: nat, a: nat, k: nat)
    requires a > 0
    ensures k <= n / a <==> k * a <= n
  {
    var q := n / a;
    assert n == a * q + n % a;
    Commute(a, k);
    if k < q {
      NextMultiple(a, k, q);
    } else if q < k {
      NextMultiple(a, q, k);
    }
  }

  lemma {:induction false} Commute(a: nat, b: nat)
    ensures a * b == b * a
  {
  }

  lemma {:induction false} OneMore(k: nat, size: nat)
    ensures (k + 1) * size == k * size + size
  {
  }

  /** Tile k of n lies within the buffer. */
  lemma {:induction false} TileFits(k: nat, n: nat, size: nat)
    requires k < n
    ensures k * size + size == (k + 1) * size <= n * size
  {
    NextMultiple(size, k, n);
    Commute(size, k);
    Commute(size, n);
    OneMore(k, size);
  }
}
