/**
  Fixed-width unsigned integers as the C code uses them: uint8_t, uint32_t and
  uint64_t values, arithmetic that wraps modulo 2^64, and bitwise AND.
 */
module U64 {

  const Modulus: int := 0x1_0000_0000_0000_0000

  type u8 = x: int | 0 <= x < 0x100
  type u32 = x: int | 0 <= x < 0x1_0000_0000
  type u64 = x: int | 0 <= x < Modulus

  /** uint64_t addition: the mathematical sum, less 2^64 when it overflows. */
  function Add(a: u64, b: u64): (r: u64)
    ensures a + b < Modulus ==> r == a + b
    ensures a + b >= Modulus ==> r == a + b - Modulus
  {
    (a + b) % Modulus
  }

  /** uint64_t subtraction: the difference, plus 2^64 when it would be negative. */
  function Sub(a: u64, b: u64): (r: u64)
    ensures b <= a ==> r == a - b
    ensures a < b ==> r == a - b + Modulus
  {
    (a - b) % Modulus
  }

  /** uint64_t multiplication: the product modulo 2^64. */
  function Mul(a: u64, b: u64): (r: u64)
    ensures a * b < Modulus ==> r == a * b
    ensures r == a * b % Modulus
  {
    var p := a * b;
    if p < Modulus then p else p % Modulus
  }

  function Pow2(k: nat): (r: nat)
    ensures r >= 1
  {
    if k == 0 then 1 else 2 * Pow2(k - 1)
  }

  /** Bitwise AND of two non-negative integers, bit by bit from the least significant. */
  function And(a: nat, b: nat): (r: nat)
    ensures r <= a && r <= b
    decreases a
  {
    if a == 0 || b == 0 then 0
    else 2 * And(a / 2, b / 2) + (if a % 2 == 1 && b % 2 == 1 then 1 else 0)
  }

  /** The powers of two the C code's masks and widths are built from. */
  lemma Pow2Widths()
    ensures Pow2(4) == 16 && Pow2(32) == 0x1_0000_0000 && Pow2(64) == Modulus
  {
    assert Pow2(8) == 0x100;
    assert Pow2(16) == 0x1_0000;
    assert Pow2(24) == 0x100_0000;
    assert Pow2(32) == 0x1_0000_0000;
    assert Pow2(40) == 0x100_0000_0000;
    assert Pow2(48) == 0x1_0000_0000_0000;
    assert Pow2(56) == 0x100_0000_0000_0000;
  }

  /** A positive multiple of d is at least d. */
  lemma MulAtLeast(d: int, e: int)
    requires d > 0 && e >= 1
    ensures d * e >= d
  {
    var f := e - 1;
    assert d * e == d + d * f;
  }

  /** Euclidean division is unique: a quotient and remainder that rebuild x are x / d and x % d. */
  lemma DivModUnique(x: int, d: int, q: int, r: int)
    requires d > 0 && 0 <= r < d && x == d * q + r
    ensures x / d == q && x % d == r
  {
    var q', r' := x / d, x % d;
    assert x == d * q' + r';
    if q' > q {
      var e := q' - q;
      assert d * q' == d * q + d * e;
      MulAtLeast(d, e);
    } else if q' < q {
      var e := q - q';
      assert d * q == d * q' + d * e;
      MulAtLeast(d, e);
    }
  }

  /** The remainder modulo 2m, split into the remainder of x / 2 modulo m and the low bit of x. */
  lemma ModDoubling(x: nat, m: nat)
    requires m > 0
    ensures x % (2 * m) == 2 * ((x / 2) % m) + x % 2
  {
    var q, r := x / 2, x % 2;
    var q1, r1 := q / m, q % m;
    assert q == m * q1 + r1;
    assert x == (2 * m) * q1 + (2 * r1 + r);
    DivModUnique(x, 2 * m, q1, 2 * r1 + r);
  }

  /** Masking with the low k bits keeps the remainder modulo 2^k: x & (2^k - 1) == x % 2^k. */
  lemma {:induction false} AndLowMask(x: nat, k: nat)
    ensures And(x, Pow2(k) - 1) == x % Pow2(k)
  {
    if k == 0 {
      DivModUnique(x, 1, x, 0);
    } else if x == 0 {
      DivModUnique(0, Pow2(k), 0, 0);
    } else {
      AndLowMask(x / 2, k - 1);
      AndLowMaskStep(x, k);
    }
  }

  /** One step of AndLowMask: from the mask of x / 2 by k-1 low bits to the mask of x by k low bits. */
  lemma AndLowMaskStep(x: nat, k: nat)
    requires k > 0 && x > 0
    requires And(x / 2, Pow2(k - 1) - 1) == (x / 2) % Pow2(k - 1)
    ensures And(x, Pow2(k) - 1) == x % Pow2(k)
  {
    var m := Pow2(k - 1);
    var b := 2 * m - 1;
    assert Pow2(k) == 2 * m;
    assert b / 2 == m - 1 && b % 2 == 1 by { DivModUnique(b, 2, m - 1, 1); }
    assert And(x, b) == 2 * And(x / 2, m - 1) + x % 2;
    ModDoubling(x, m);
  }

  /** AND with an even mask 2c shifts: x & 2c == 2 * ((x / 2) & c). */
  lemma AndEvenMask(x: nat, c: nat)
    ensures And(x, 2 * c) == 2 * And(x / 2, c)
  {
    if x > 0 && c > 0 {
      DivModUnique(2 * c, 2, c, 0);
    }
  }

  /** Clearing the low bits of x modulo 2P is clearing those of x / 2 modulo P, then doubling. */
  lemma ClearLowDoubling(x: nat, p: nat)
    requires p > 0
    ensures x - x % (2 * p) == 2 * (x / 2 - (x / 2) % p)
  {
    DivModUnique(x, 2, x / 2, x % 2);
    ModDoubling(x, p);
  }

  /** The mask of bits k..n-1, built by shifting the mask of the n-k low bits left k times. */
  function HighMask(k: nat, n: nat): (m: nat)
    requires k <= n
  {
    if k == 0 then Pow2(n) - 1 else 2 * HighMask(k - 1, n - 1)
  }

  /** The mask of bits k..n-1 is 2^n - 2^k. */
  lemma {:induction false} HighMaskValue(k: nat, n: nat)
    requires k <= n
    ensures HighMask(k, n) == Pow2(n) - Pow2(k)
  {
    if k > 0 {
      HighMaskValue(k - 1, n - 1);
    }
  }

  /** Masking a value below 2^n with bits k..n-1 clears its low k bits. */
  lemma {:induction false} AndHighMask(x: nat, k: nat, n: nat)
    requires k <= n && x < Pow2(n)
    ensures And(x, HighMask(k, n)) == x - x % Pow2(k)
  {
    if k == 0 {
      assert x % Pow2(n) == x by { DivModUnique(x, Pow2(n), 0, x); }
      assert x % 1 == 0 by { DivModUnique(x, 1, x, 0); }
      AndLowMask(x, n);
    } else {
      var h, c := x / 2, HighMask(k - 1, n - 1);
      HalfBelow(x, n);
      AndHighMask(h, k - 1, n - 1);
      AndEvenMask(x, c);
      ClearLowDoubling(x, Pow2(k - 1));
    }
  }

  lemma HalfBelow(x: nat, n: nat)
    requires n > 0 && x < Pow2(n)
    ensures x / 2 < Pow2(n - 1)
  {
    DivModUnique(x, 2, x / 2, x % 2);
  }

  /** Masking a value below 2^n with bits k..n-1 clears its low k bits: x & (2^n - 2^k) == x - x % 2^k. */
  lemma AndClearLow(x: nat, k: nat, n: nat)
    requires k <= n && x < Pow2(n)
    ensures Pow2(k) <= Pow2(n)
    ensures And(x, Pow2(n) - Pow2(k)) == x - x % Pow2(k)
  {
    HighMaskValue(k, n);
    AndHighMask(x, k, n);
  }
}
