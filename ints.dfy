/** Python integers, the two bit operators the adapter applies to them, and the
    fixed-width unsigned fields of ctypes and C that they are stored in. */
module Ints {

  /** A c_uint8 / uint8_t value. */
  type Byte = x: int | 0 <= x < 0x100

  /** A c_uint16 / uint16_t value. */
  type Word = x: int | 0 <= x < 0x1_0000

  /** The value a c_uint8 field holds after a Python int x is assigned to it:
      ctypes keeps the low eight bits, so the stored value is the one byte
      congruent to x modulo 256. */
  function U8(x: int): (r: Byte)
    ensures 0 <= x < 0x100 ==> r == x
    ensures (x - r) % 0x100 == 0
  {
    x % 0x100
  }

  /** The value a c_uint16 field holds after a Python int x is assigned to it. */
  function U16(x: int): (r: Word)
    ensures 0 <= x < 0x1_0000 ==> r == x
    ensures (x - r) % 0x1_0000 == 0
  {
    x % 0x1_0000
  }

  function Pow2(n: nat): (p: nat)
    ensures p >= 1
  {
    if n == 0 then 1 else 2 * Pow2(n - 1)
  }

  /** Python's `v >> n` on a non-negative int: drop the n lowest bits. */
  function Shr(v: nat, n: nat): nat
  {
    if n == 0 then v else Shr(v / 2, n - 1)
  }

  /** Python's `a & b` on non-negative ints, bit by bit from the lowest. */
  function And(a: nat, b: nat): nat
  {
    if a == 0 || b == 0 then 0
    else 2 * And(a / 2, b / 2) + (if a % 2 == 1 && b % 2 == 1 then 1 else 0)
  }

  lemma {:induction false} MulAtLeast(k: int, d: int)
    requires k >= 1 && d > 0
    ensures k * d >= d
  {
    if k > 1 {
      MulAtLeast(k - 1, d);
      assert k * d == (k - 1) * d + d;
    }
  }

  /** Division with remainder has one answer: the quotient and remainder of x by d. */
  lemma DivModUnique(x: int, d: int, q: int, r: int)
    requires d > 0 && 0 <= r < d && x == q * d + r
    ensures x / d == q && x % d == r
  {
    var q', r' := x / d, x % d;
    assert x == q' * d + r';
    assert (q - q') * d == r' - r by {
      assert q * d - q' * d == (q - q') * d;
    }
    if q > q' {
      MulAtLeast(q - q', d);
    } else if q < q' {
      MulAtLeast(q' - q, d);
    }
  }

  /** Halving first and then dividing by m is dividing by 2m; the remainder by 2m
      is rebuilt from the remainder of the half and the dropped bit. */
  lemma HalveThenDivide(v: nat, m: nat)
    requires m >= 1
    ensures (v / 2) / m == v / (2 * m)
    ensures v % (2 * m) == 2 * ((v / 2) % m) + v % 2
  {
    var h, b := v / 2, v % 2;
    var q, r := h / m, h % m;
    assert v == q * (2 * m) + (2 * r + b) by {
      assert v == 2 * h + b;
      assert h == q * m + r;
    }
    DivModUnique(v, 2 * m, q, 2 * r + b);
  }

  /** `v >> n` is the quotient of v by 2^n. */
  lemma {:induction false} ShrIsDiv(v: nat, n: nat)
    ensures Shr(v, n) == v / Pow2(n)
  {
    if n == 0 {
      assert Pow2(n) == 1;
    } else {
      ShrIsDiv(v / 2, n - 1);
      HalveThenDivide(v, Pow2(n - 1));
    }
  }

  /** `v & (2^n - 1)` is the remainder of v by 2^n. */
  lemma {:induction false} AndLowMask(v: nat, n: nat)
    ensures And(v, Pow2(n) - 1) == v % Pow2(n)
  {
    if n == 0 {
      assert Pow2(n) == 1;
    } else if v == 0 {
    } else {
      var m := Pow2(n - 1);
      assert Pow2(n) == 2 * m;
      AndOddMask(v, m);
      AndLowMask(v / 2, n - 1);
      HalveThenDivide(v, m);
    }
  }

  /** One step of `v & mask` when the mask's lowest bit is set. */
  lemma AndOddMask(v: nat, m: nat)
    requires m >= 1 && v > 0
    ensures And(v, 2 * m - 1) == 2 * And(v / 2, m - 1) + v % 2
  {
    DivModUnique(2 * m - 1, 2, m - 1, 1);
  }
}
