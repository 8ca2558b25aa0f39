/** Decimal conversion of protocol/protocol.go, with its 64-bit wrap-around. */
module Decimal {
  import opened ByteSeqs

  const TWO_32: nat := 0x1_0000_0000
  const TWO_63: int := 0x8000_0000_0000_0000
  const TWO_64: int := 0x1_0000_0000_0000_0000

  type uint32 = x: int | 0 <= x < 0x1_0000_0000
  type uint64 = x: int | 0 <= x < 0x1_0000_0000_0000_0000

  /** Go's conversion int(n) of a uint64 on a 64-bit platform. */
  function ToInt(n: uint64): (i: int)
    ensures -TWO_63 <= i < TWO_63
    ensures 0 <= i <==> n < TWO_63
  {
    if n < TWO_63 then n else n - TWO_64
  }

  predicate IsDigit(b: byte) { 48 <= b <= 57 }

  predicate AllDigits(tok: Bytes) { forall i :: 0 <= i < |tok| ==> IsDigit(tok[i]) }

  /** The number a string of digits denotes, without any width. */
  function Value(tok: Bytes): nat
    requires AllDigits(tok)
  {
    if tok == [] then 0 else Value(tok[..|tok| - 1]) * 10 + (tok[|tok| - 1] - 48)
  }

  /** The decimal notation of `n`, without leading zeros. */
  function Digits(n: nat): (ds: Bytes)
    ensures |ds| >= 1
    ensures AllDigits(ds)
  {
    if n < 10 then [48 + n] else Digits(n / 10) + [48 + n % 10]
  }

  /** What asciiToUint returns: the denoted number modulo 2^64, or an error for a non-digit. */
  function ParseUint(tok: Bytes): Option<uint64>
  {
    if AllDigits(tok) then Some(Value(tok) % TWO_64) else None
  }

  lemma {:induction false} ValueOfDigits(n: nat)
    ensures Value(Digits(n)) == n
  {
    if n >= 10 {
      ValueOfDigits(n / 10);
      var ds := Digits(n);
      assert ds[..|ds| - 1] == Digits(n / 10);
    }
  }

  /** asciiToUint undoes uintToASCII for every uint64. */
  lemma ParseUintOfDigits(n: uint64)
    ensures ParseUint(Digits(n)) == Some(n)
  {
    ValueOfDigits(n);
  }

  /** Leading zeros aside, a digit string is the notation of its value. */
  lemma {:induction false} DigitsOfValue(tok: Bytes)
    requires AllDigits(tok) && |tok| >= 1
    requires |tok| == 1 || tok[0] != 48
    ensures Digits(Value(tok)) == tok
    ensures |tok| > 1 ==> Value(tok) >= 10
  {
    var init := tok[..|tok| - 1];
    assert tok == init + [tok[|tok| - 1]];
    if |tok| == 1 {
      assert Value(init) == 0;
    } else {
      DigitsOfValue(init);
      if |init| == 1 {
        assert Value(init[..0]) == 0;
      }
    }
  }

  function Pow10(e: nat): nat { if e == 0 then 1 else 10 * Pow10(e - 1) }

  lemma {:induction false} DigitsShort(n: nat, e: nat)
    requires n < Pow10(e) && e >= 1
    ensures |Digits(n)| <= e
  {
    if n >= 10 {
      assert e > 1;
      DigitsShort(n / 10, e - 1);
    }
  }

  /** Every uint64 has at most twenty digits. */
  lemma DigitsOfUint64(n: uint64)
    ensures |Digits(n)| <= 20
  {
    assert Pow10(4) == 10000;
    assert Pow10(8) == 10000 * Pow10(4);
    assert Pow10(12) == 10000 * Pow10(8);
    assert Pow10(16) == 10000 * Pow10(12);
    assert Pow10(20) == 10000 * Pow10(16);
    DigitsShort(n, 20);
  }

  /** A larger number never has a shorter notation. */
  lemma {:induction false} DigitsMonotone(a: nat, b: nat)
    requires a <= b
    ensures |Digits(a)| <= |Digits(b)|
    decreases b
  {
    if a >= 10 {
      DigitsMonotone(a / 10, b / 10);
    }
  }

  lemma MulAtLeast(k: int, m: int)
    requires k >= 1 && m >= 0
    ensures k * m >= m
  {}

  /** Quotient and remainder are unique. */
  lemma RemainderUnique(m: int, q: int, r: int, q1: int, r1: int)
    requires 0 <= r < m && 0 <= r1 < m
    requires q * m + r == q1 * m + r1
    ensures r == r1
  {
    assert (q1 - q) * m == r - r1;
    assert (q - q1) * m == r1 - r;
    if q1 > q {
      MulAtLeast(q1 - q, m);
    } else if q1 < q {
      MulAtLeast(q - q1, m);
    }
  }

  lemma ModStep(a: nat, d: nat, m: int)
    requires m > 0
    ensures ((a % m) * 10 + d) % m == (a * 10 + d) % m
  {
    var q, r := a / m, a % m;
    var x := r * 10 + d;
    var q1, r1 := x / m, x % m;
    calc {
      a * 10 + d;
      (q * m + r) * 10 + d;
      (q * m) * 10 + x;
      { assert (q * m) * 10 == (q * 10) * m; }
      (q * 10) * m + (q1 * m + r1);
      (q * 10 + q1) * m + r1;
    }
    var y := a * 10 + d;
    RemainderUnique(m, y / m, y % m, q * 10 + q1, r1);
  }

  /** asciiToUint: a left-to-right loop over 64-bit words. */
  method AsciiToUint(tok: Bytes) returns (r: Option<uint64>)
    ensures r == ParseUint(tok)
  {
    var n: uint64 := 0;
    for i := 0 to |tok|
      invariant AllDigits(tok[..i])
      invariant n == Value(tok[..i]) % TWO_64
    {
      var ch := tok[i];
      if ch < 48 || ch > 57 {
        return None;
      }
      ModStep(Value(tok[..i]), ch - 48, TWO_64);
      assert tok[..i + 1][..i] == tok[..i];
      n := (n * 10 + (ch - 48)) % TWO_64;
    }
    assert tok[..|tok|] == tok;
    return Some(n);
  }

  /** uintToASCII: fills a 32-byte buffer from the right and returns the first used index. */
  method UintToAscii(n: uint64, b: array<byte>) returns (l: nat)
    requires b.Length == 32
    modifies b
    ensures l <= 32 && b[l..] == Digits(n)
    ensures forall k :: 0 <= k < l ==> b[k] == old(b[k])
  {
    DigitsOfUint64(n);
    var i, m := 31, n;
    while m > 9
      invariant 0 <= m && |Digits(m)| - 1 <= i <= 31
      invariant Digits(m) + b[i + 1..] == Digits(n)
      invariant forall k :: 0 <= k <= i ==> b[k] == old(b[k])
      decreases m
    {
      ghost var tail := b[i + 1..];
      var digit := m % 10;
      b[i] := 48 + digit;
      assert b[i..] == [48 + digit] + tail;
      assert Digits(m) + tail == Digits(m / 10) + ([48 + digit] + tail);
      m := m / 10;
      i := i - 1;
    }
    ghost var tail := b[i + 1..];
    b[i] := 48 + m;
    assert b[i..] == [48 + m] + tail;
    l := i;
  }

  /** asciiSize; a negative argument counts as nothing. */
  method AsciiSize(n: int) returns (size: nat)
    ensures size == if n < 0 then 0 else |Digits(n)|
  {
    size := 1;
    if n < 0 {
      size := 0;
    }
    var x := n;
    while x > 9
      invariant n < 0 ==> x == n && size == 0
      invariant n >= 0 ==> x >= 0 && size + |Digits(x)| == |Digits(n)| + 1
      decreases x
    {
      size := size + 1;
      x := x / 10;
    }
  }
}
