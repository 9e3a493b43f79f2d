/** std::stoi and std::stoul on decimal text, and the text they read back. */
module Numbers {
  import opened Wrappers
  import opened Text

  predicate IsDigit(c: char) {
    '0' <= c <= '9'
  }

  function Digit(d: nat): (c: char)
    requires d < 10
    ensures IsDigit(c)
  {
    '0' + d as char
  }

  /** The value of the longest run of digits that starts s, read after the digits of acc. */
  function ReadDigits(s: string, acc: nat): nat {
    if s != "" && IsDigit(s[0]) then ReadDigits(s[1..], acc * 10 + (s[0] as int - '0' as int)) else acc
  }

  /** Leading spaces, an optional sign and at least one digit; what follows the digits is ignored. */
  function Scan(s: string): Option<int> {
    var t := LeftTrim(s);
    var signed := t != "" && (t[0] == '-' || t[0] == '+');
    var u := if signed then t[1..] else t;
    if u == "" || !IsDigit(u[0]) then None
    else
      var magnitude: int := ReadDigits(u, 0);
      Some(if signed && t[0] == '-' then -magnitude else magnitude)
  }

  /** std::stoi: None stands for the exceptions invalid_argument and out_of_range. */
  function Stoi(s: string): Option<Int32> {
    match Scan(s)
    case None => None
    case Some(v) => if -0x8000_0000 <= v < 0x8000_0000 then Some(v) else None
  }

  /** std::stoul with a 64-bit unsigned long: a negative number wraps around, as in strtoul. */
  function Stoul(s: string): Option<Word64> {
    match Scan(s)
    case None => None
    case Some(v) =>
      if 0 <= v < TWO_TO_THE_64 then Some(v)
      else if -TWO_TO_THE_64 < v < 0 then Some(v + TWO_TO_THE_64)
      else None
  }

  /** Decimal text of a natural number. */
  function ShowNat(n: nat): (s: string)
    ensures s != "" && forall i :: 0 <= i < |s| ==> IsDigit(s[i])
  {
    if n < 10 then [Digit(n)] else ShowNat(n / 10) + [Digit(n % 10)]
  }

  function ShowInt(n: int): string {
    if n < 0 then "-" + ShowNat(-n) else ShowNat(n)
  }

  lemma {:induction false} ReadShow(n: nat, rest: string)
    ensures ReadDigits(ShowNat(n) + rest, 0) == ReadDigits(rest, n)
  {
    if n >= 10 {
      var last := [Digit(n % 10)];
      assert ShowNat(n) + rest == ShowNat(n / 10) + (last + rest);
      ReadShow(n / 10, last + rest);
      assert (last + rest)[1..] == rest;
    } else {
      assert (ShowNat(n) + rest)[1..] == rest;
    }
  }

  lemma {:induction false} ScanUnsigned(u: string)
    requires u != "" && IsDigit(u[0])
    ensures Scan(u) == Some(ReadDigits(u, 0) as int)
  {
  }

  lemma {:induction false} ScanNegative(u: string)
    requires u != "" && IsDigit(u[0])
    ensures Scan("-" + u) == Some(-(ReadDigits(u, 0) as int))
  {
    assert ("-" + u)[1..] == u;
  }

  lemma {:induction false} ReadNothing(rest: string, acc: nat)
    requires rest == "" || !IsDigit(rest[0])
    ensures ReadDigits(rest, acc) == acc
  {
  }

  /** A written number is read back, whatever text without a leading digit follows it. */
  lemma {:induction false} ScanShow(n: int, rest: string)
    requires rest == "" || !IsDigit(rest[0])
    ensures Scan(ShowInt(n) + rest) == Some(n)
  {
    var m := if n < 0 then -n else n;
    var digits := ShowNat(m);
    ReadShow(m, rest);
    ReadNothing(rest, m);
    assert (digits + rest)[0] == digits[0];
    if n < 0 {
      ScanNegative(digits + rest);
      assert "-" + digits + rest == "-" + (digits + rest);
    } else {
      ScanUnsigned(digits + rest);
    }
  }

  /** Digits hold no space, and reading them back gives the number. */
  lemma {:induction false} NatTextReads(n: nat)
    ensures Trim(ShowNat(n)) == ShowNat(n) && Scan(ShowNat(n)) == Some(n)
  {
    var s := ShowNat(n);
    TrimIdle(s);
    ScanShow(n, "");
    assert s + "" == s;
  }

  lemma {:induction false} StoulShow(n: Word64)
    ensures Stoul(Trim(ShowNat(n))) == Some(n)
  {
    NatTextReads(n);
  }

  lemma {:induction false} StoiShow(n: Int32)
    ensures Stoi(ShowInt(n)) == Some(n)
  {
    ScanShow(n, "");
    assert ShowInt(n) + "" == ShowInt(n);
  }

  /** Any padding, any sign, and any text behind the digits. */
  lemma {:induction false} ScanSigned(pad: string, sign: string, n: nat, rest: string)
    requires AllSpace(pad) && sign in {"", "+", "-"} && (rest == "" || !IsDigit(rest[0]))
    ensures Scan(pad + (sign + (ShowNat(n) + rest))) == Some(if sign == "-" then -(n as int) else n)
  {
    var digits := ShowNat(n) + rest;
    assert digits[0] == ShowNat(n)[0];
    ReadShow(n, rest);
    ReadNothing(rest, n);
    LeftTrimPadding(pad, sign + digits);
    assert sign == "" ==> sign + digits == digits;
    assert sign != "" ==> (sign + digits)[1..] == digits;
  }

  /** Without a digit behind padding and sign there is no number. */
  lemma {:induction false} ScanNothing(pad: string, sign: string, rest: string)
    requires AllSpace(pad) && sign in {"", "+", "-"} && (rest == "" || !IsDigit(rest[0]))
    requires sign == "" && rest != "" ==> rest[0] != '+' && rest[0] != '-' && !IsSpace(rest[0])
    ensures Scan(pad + (sign + rest)) == None
  {
    LeftTrimPadding(pad, sign + rest);
    assert sign == "" ==> sign + rest == rest;
    assert sign != "" ==> (sign + rest)[1..] == rest;
  }

  lemma {:induction false} IntTextReads(n: int)
    ensures Scan(ShowInt(n)) == Some(n)
  {
    ScanShow(n, "");
    assert ShowInt(n) + "" == ShowInt(n);
  }

  /** stoi reads exactly the ints. */
  lemma {:induction false} StoiExact(n: int)
    ensures Stoi(ShowInt(n)) == if -0x8000_0000 <= n < 0x8000_0000 then Some(n) else None
  {
    IntTextReads(n);
  }

  /** stoul reads the 64-bit numbers, and negative ones modulo 2^64. */
  lemma {:induction false} StoulExact(n: int)
    ensures Stoul(ShowInt(n)) ==
      if 0 <= n < TWO_TO_THE_64 then Some(n)
      else if -TWO_TO_THE_64 < n < 0 then Some(TWO_TO_THE_64 + n)
      else None
  {
    IntTextReads(n);
  }

  /** The digits are decimal, the last one last. */
  lemma {:induction false} ShowDigits(n: nat, d: nat)
    requires d < 10
    ensures n > 0 ==> ShowNat(10 * n + d) == ShowNat(n) + [Digit(d)]
    ensures ShowNat(d) == ["0123456789"[d]]
  {
  }
}
