// Unsigned machine-integer operations on `nat`: powers of two, single-bit
// extraction, bitwise OR and XOR, and the division facts the Morton-key,
// branch-mask and hypercube models rely on.

module Bits {

  /** 2^n, i.e. `1 << n` without overflow. */
  function Pow2(n: nat): (r: nat)
    ensures r >= 1
  {
    if n == 0 then 1 else 2 * Pow2(n - 1)
  }

  /** `x >> n`, one bit at a time. */
  function Shr(x: nat, n: nat): (r: nat)
    ensures r <= x
  {
    if n == 0 then x else Shr(x / 2, n - 1)
  }

  /** Bit `i` of `x`, i.e. `(x >> i) & 1`. */
  function BitOf(x: nat, i: nat): (r: nat)
    ensures r < 2
  {
    Shr(x, i) % 2
  }

  /** Bitwise OR, `a | b`. */
  function Or(a: nat, b: nat): nat
    decreases a + b
  {
    if a == 0 then b
    else if b == 0 then a
    else 2 * Or(a / 2, b / 2) + (if a % 2 == 1 || b % 2 == 1 then 1 else 0)
  }

  /** Bitwise exclusive OR, `a ^ b`. */
  function Xor(a: nat, b: nat): nat
    decreases a + b
  {
    if a == 0 then b
    else if b == 0 then a
    else 2 * Xor(a / 2, b / 2) + (if a % 2 != b % 2 then 1 else 0)
  }

  /** Unsigned `x / d`, by repeated subtraction. */
  function Quot(x: nat, d: nat): nat
    requires 1 <= d
    decreases x
  {
    if x < d then 0 else 1 + Quot(x - d, d)
  }

  /** Unsigned `x % d`, by repeated subtraction. */
  function Rem(x: nat, d: nat): (r: nat)
    requires 1 <= d
    ensures r < d
    decreases x
  {
    if x < d then x else Rem(x - d, d)
  }

  // ---------------------------------------------------------------------
  // Powers of two

  lemma {:induction false} Pow2Add(a: nat, b: nat)
    ensures Pow2(a + b) == Pow2(a) * Pow2(b)
  {
    if a > 0 {
      Pow2Add(a - 1, b);
      assert Pow2(a + b) == 2 * Pow2(a - 1 + b);
    }
  }

  lemma {:induction false} Pow2Strict(a: nat, b: nat)
    requires a < b
    ensures Pow2(a) < Pow2(b)
  {
    if b - 1 > a {
      Pow2Strict(a, b - 1);
    }
  }

  lemma Pow2Monotone(a: nat, b: nat)
    requires a <= b
    ensures Pow2(a) <= Pow2(b)
  {
    if a < b {
      Pow2Strict(a, b);
    }
  }

  // ---------------------------------------------------------------------
  // Division facts

  lemma MulLe(a: int, b: int, m: int)
    requires a <= b && m >= 0
    ensures a * m <= b * m
  {
  }

  /** Adding an even number keeps the parity. */
  lemma EvenPlus(e: nat, y: nat)
    ensures (2 * e + y) % 2 == y % 2
  {
  }

  lemma AddMul(a: int, b: int, p: int)
    ensures (a + b) * p == a * p + b * p
  {
  }

  lemma MulAssoc(a: int, b: int, c: int)
    ensures a * (b * c) == (a * b) * c
  {
  }

  /** A multiple of `m` strictly between `-m` and `m` is zero. */
  lemma SmallMultiple(k: int, m: int)
    requires m > 0 && -m < k * m < m
    ensures k == 0
  {
    if k > 0 {
      MulLe(1, k, m);
    } else if k < 0 {
      MulLe(k, -1, m);
    }
  }

  /** Quotient and remainder are determined by `x == q * m + r`, `0 <= r < m`. */
  lemma DivModUnique(x: int, m: int, q: int, r: int)
    requires m > 0 && 0 <= r < m && x == q * m + r
    ensures x / m == q && x % m == r
  {
    var q', r' := x / m, x % m;
    assert x == q' * m + r';
    assert (q - q') * m == r' - r;
    SmallMultiple(q - q', m);
  }

  /** `(h * m + l) / m == h` and `(h * m + l) % m == l` whenever `l < m`. */
  lemma DivModSplit(h: nat, m: nat, l: nat)
    requires 0 < m && l < m
    ensures (h * m + l) / m == h && (h * m + l) % m == l
  {
    DivModUnique(h * m + l, m, h, l);
  }

  /** Shifting left by a factor `m`, then reducing modulo `r * m`, keeps the low part below `r`. */
  lemma ShlMod(x: nat, m: nat, r: nat)
    requires 0 < m && 0 < r
    ensures (x * m) % (r * m) == (x % r) * m
  {
    var q := x / r;
    assert x == q * r + x % r;
    assert x * m == q * (r * m) + (x % r) * m;
    MulLe(x % r, r - 1, m);
    DivModUnique(x * m, r * m, q, (x % r) * m);
  }

  /** `(h * m + x) / m == h + x / m`. */
  lemma DivAddMultiple(h: nat, m: nat, x: nat)
    requires 0 < m
    ensures (h * m + x) / m == h + x / m
  {
    var q, r := x / m, x % m;
    assert h * m + x == (h + q) * m + r;
    DivModUnique(h * m + x, m, h + q, r);
  }

  /** `x / (a * b) == (x / a) / b`. */
  lemma DivDiv(x: nat, a: nat, b: nat)
    requires 0 < a && 0 < b
    ensures x / (a * b) == (x / a) / b
  {
    var q1, r1 := x / a, x % a;
    var q2, r2 := q1 / b, q1 % b;
    assert x == q1 * a + r1;
    assert q1 == q2 * b + r2;
    assert x == q2 * (a * b) + (r2 * a + r1);
    MulLe(r2, b - 1, a);
    assert r2 * a + r1 < a * b;
    DivModUnique(x, a * b, q2, r2 * a + r1);
  }

  /** A number below the modulus is its own remainder. */
  lemma ModSmall(x: nat, m: nat)
    requires x < m
    ensures x % m == x
  {
    DivModUnique(x, m, 0, x);
  }

  /** Dividing a smaller number by a larger power of two gives zero. */
  lemma DivSmall(x: nat, m: nat)
    requires x < m
    ensures x / m == 0
  {
    DivModUnique(x, m, 0, x);
  }

  /** `x / m < n` whenever `x < n * m`. */
  lemma DivBound(x: nat, m: nat, n: nat)
    requires 0 < m && x < n * m
    ensures x / m < n
  {
    assert x == (x / m) * m + x % m;
    if x / m >= n {
      MulLe(n, x / m, m);
    }
  }

  /** Integer division by a positive number is monotone. */
  lemma DivMonotone(x: nat, y: nat, m: nat)
    requires 0 < m && x <= y
    ensures x / m <= y / m
  {
    assert x == (x / m) * m + x % m;
    assert y == (y / m) * m + y % m;
    if x / m > y / m {
      MulLe(y / m + 1, x / m, m);
    }
  }

  /** A number below `2^b` placed above `a` low bits that hold less than `2^a`
      stays below `2^(a + b)`. */
  lemma PlaceAbove(low: nat, g: nat, a: nat, b: nat)
    requires low < Pow2(a) && g < Pow2(b)
    ensures low + g * Pow2(a) < Pow2(a + b)
  {
    Pow2Add(b, a);
    MulLe(g, Pow2(b) - 1, Pow2(a));
  }

  /** Dividing a positive number by at least two makes it smaller. */
  lemma DivLess(x: nat, m: nat)
    requires 2 <= m && 1 <= x
    ensures x / m < x
  {
    var q := x / m;
    assert x == q * m + x % m;
    if q >= x {
      MulLe(2, m, q);
    }
  }

  /** Quotient and remainder put `x` back together. */
  lemma {:induction false} QuotRem(x: nat, d: nat)
    requires 1 <= d
    ensures Quot(x, d) * d + Rem(x, d) == x
    decreases x
  {
    if x >= d {
      QuotRem(x - d, d);
      AddMul(1, Quot(x - d, d), d);
    }
  }

  /** Any `k` with `k * d <= x` is at most the quotient. */
  lemma {:induction false} QuotUpper(x: nat, d: nat, k: nat)
    requires 1 <= d && k * d <= x
    ensures k <= Quot(x, d)
    decreases x
  {
    if k > 0 {
      AddMul(1, k - 1, d);
      QuotUpper(x - d, d, k - 1);
    }
  }

  // ---------------------------------------------------------------------
  // Right shifts

  /** `x >> n` is division by `2^n`. */
  lemma {:induction false} ShrIsDiv(x: nat, n: nat)
    ensures Shr(x, n) == x / Pow2(n)
  {
    if n > 0 {
      ShrIsDiv(x / 2, n - 1);
      DivDiv(x, 2, Pow2(n - 1));
    }
  }

  /** `(x >> a) >> b == x >> (a + b)`. */
  lemma {:induction false} ShrAdd(x: nat, a: nat, b: nat)
    ensures Shr(x, a + b) == Shr(Shr(x, a), b)
  {
    if a > 0 {
      ShrAdd(x / 2, a - 1, b);
      assert a + b - 1 == a - 1 + b;
    }
  }

  /** Shifting right by at least one bit makes a non-zero number smaller. */
  lemma ShrShrinks(x: nat, n: nat)
    requires 1 <= n
    ensures Shr(x, n) < x || x == 0
  {
  }

  /** `(h * 2^n + x) >> n == h + (x >> n)`. */
  lemma ShrAddMultiple(h: nat, n: nat, x: nat)
    ensures Shr(h * Pow2(n) + x, n) == h + Shr(x, n)
  {
    ShrIsDiv(h * Pow2(n) + x, n);
    ShrIsDiv(x, n);
    DivAddMultiple(h, Pow2(n), x);
  }

  /** The high part and the low `n` bits of `h * 2^n + l`. */
  lemma ShrSplit(h: nat, n: nat, l: nat)
    requires l < Pow2(n)
    ensures Shr(h * Pow2(n) + l, n) == h && (h * Pow2(n) + l) % Pow2(n) == l
  {
    ShrIsDiv(h * Pow2(n) + l, n);
    DivModSplit(h, Pow2(n), l);
  }

  /** `x == (x >> n) * 2^n + x % 2^n`. */
  lemma ShrParts(x: nat, n: nat)
    ensures x == Shr(x, n) * Pow2(n) + x % Pow2(n) && x % Pow2(n) < Pow2(n)
  {
    ShrIsDiv(x, n);
  }

  /** A number below `2^n` shifts to zero. */
  lemma ShrSmall(x: nat, n: nat)
    requires x < Pow2(n)
    ensures Shr(x, n) == 0
  {
    ShrSplit(0, n, x);
  }

  /** `x >> n < c` whenever `x < c * 2^n`. */
  lemma ShrBound(x: nat, n: nat, c: nat)
    requires x < c * Pow2(n)
    ensures Shr(x, n) < c
  {
    ShrIsDiv(x, n);
    DivBound(x, Pow2(n), c);
  }

  /** Right shift is monotone. */
  lemma ShrMonotone(x: nat, y: nat, n: nat)
    requires x <= y
    ensures Shr(x, n) <= Shr(y, n)
  {
    ShrIsDiv(x, n);
    ShrIsDiv(y, n);
    DivMonotone(x, y, Pow2(n));
  }

  // ---------------------------------------------------------------------
  // Bits

  /** Bit `i` of `x` equals bit `i - 1` of `x / 2`. */
  lemma BitOfHalf(x: nat, i: nat)
    requires i > 0
    ensures BitOf(x / 2, i - 1) == BitOf(x, i)
  {
  }

  /** Bits strictly below `k` do not see a multiple of `2^k` that is added. */
  lemma BitOfAddHigh(h: nat, k: nat, x: nat, j: nat)
    requires j < k
    ensures BitOf(h * Pow2(k) + x, j) == BitOf(x, j)
  {
    var half := h * Pow2(k - j - 1);
    var y := Shr(x, j);
    HighPart(h, k, j);
    ShrAddMultiple(2 * half, j, x);
    assert Shr(h * Pow2(k) + x, j) == 2 * half + y;
    EvenPlus(half, y);
  }

  /** `h * 2^k` is an even multiple of `2^j` below `k`. */
  lemma HighPart(h: nat, k: nat, j: nat)
    requires j < k
    ensures h * Pow2(k) == (2 * (h * Pow2(k - j - 1))) * Pow2(j)
  {
    var m := k - j - 1;
    Pow2Add(m + 1, j);
    assert m + 1 + j == k;
    RegroupDouble(h, Pow2(m), Pow2(j));
  }

  lemma RegroupDouble(h: int, a: int, b: int)
    ensures h * ((2 * a) * b) == (2 * (h * a)) * b
  {
  }

  /** Bit `k` of `h * 2^(k+1) + x` is clear when `x < 2^k`. */
  lemma BitClearBelowHigh(h: nat, k: nat, x: nat)
    requires x < Pow2(k)
    ensures BitOf(h * Pow2(k + 1) + x, k) == 0
  {
    assert h * Pow2(k + 1) == (2 * h) * Pow2(k);
    ShrSplit(2 * h, k, x);
  }

  /** Bit `k` of `b * 2^k + x` is `b` when `x < 2^k` and `b` is a bit. */
  lemma BitOfTop(b: nat, k: nat, x: nat)
    requires b < 2 && x < Pow2(k)
    ensures BitOf(b * Pow2(k) + x, k) == b
  {
    ShrSplit(b, k, x);
  }

  /** OR with `2^i` sets bit `i`, which is an addition when the bit was clear. */
  lemma {:induction false} OrSingleBit(x: nat, i: nat)
    requires BitOf(x, i) == 0
    ensures Or(x, Pow2(i)) == x + Pow2(i)
  {
    if x != 0 && i > 0 {
      BitOfHalf(x, i);
      OrSingleBit(x / 2, i - 1);
      assert Pow2(i) / 2 == Pow2(i - 1);
      assert Pow2(i) % 2 == 0;
    }
  }

  lemma OrZero(x: nat)
    ensures Or(x, 0) == x
  {
  }

  /** OR of a multiple of `2^k` with a number below `2^k` is their sum. */
  lemma {:induction false} OrDisjoint(c: nat, b: nat, k: nat)
    requires b < Pow2(k)
    ensures Or(c * Pow2(k), b) == c * Pow2(k) + b
  {
    var a := c * Pow2(k);
    if a != 0 && b != 0 {
      assert k > 0;
      var m := Pow2(k - 1);
      assert a == (c * m) * 2;
      DivModSplit(c * m, 2, 0);
      DivBound(b, 2, m);
      OrDisjoint(c, b / 2, k - 1);
      assert b == (b / 2) * 2 + b % 2;
    }
  }

  /** Adding `2^i` to a number whose bit `i` is clear sets that bit and no other. */
  lemma {:induction false} AddBit(x: nat, i: nat, k: nat)
    requires BitOf(x, i) == 0
    ensures BitOf(x + Pow2(i), k) == if k == i then 1 else BitOf(x, k)
    decreases i
  {
    if i == 0 {
      assert x % 2 == 0;
      if k > 0 {
        assert (x + 1) / 2 == x / 2;
      }
    } else {
      var p := Pow2(i - 1);
      assert (x + Pow2(i)) / 2 == x / 2 + p && (x + Pow2(i)) % 2 == x % 2;
      if k > 0 {
        BitOfHalf(x, i);
        AddBit(x / 2, i - 1, k - 1);
      }
    }
  }

  /** OR of two numbers below `2^n` stays below `2^n`. */
  lemma {:induction false} OrBound(a: nat, b: nat, n: nat)
    requires a < Pow2(n) && b < Pow2(n)
    ensures Or(a, b) < Pow2(n)
    decreases n
  {
    if a != 0 && b != 0 {
      OrBound(a / 2, b / 2, n - 1);
    }
  }

  /** XOR of a number with itself is zero. */
  lemma {:induction false} XorSelf(a: nat)
    ensures Xor(a, a) == 0
    decreases a
  {
    if a != 0 {
      XorSelf(a / 2);
    }
  }

  /** XOR with a number is its own inverse. */
  lemma {:induction false} XorInvolution(a: nat, b: nat)
    ensures Xor(Xor(a, b), b) == a
    decreases a + b
  {
    if a == 0 {
      XorSelf(b);
    } else if b != 0 {
      XorInvolution(a / 2, b / 2);
      var y := Xor(a / 2, b / 2);
      var bit := if a % 2 != b % 2 then 1 else 0;
      var x := Xor(a, b);
      assert x == 2 * y + bit;
      DivModSplit(y, 2, bit);
      assert x / 2 == y && x % 2 == bit;
      if x == 0 {
        assert y == 0 && bit == 0;
        assert Xor(0, b / 2) == b / 2;
        assert a / 2 == b / 2;
      }
    }
  }

  /** XOR with `2^i` flips bit `i`: it adds or subtracts `2^i`. */
  lemma {:induction false} XorPow2(x: nat, i: nat)
    ensures Xor(x, Pow2(i)) == if BitOf(x, i) == 0 then x + Pow2(i) else x - Pow2(i)
  {
    if x == 0 {
      assert BitOf(0, i) == 0;
    } else if i == 0 {
      assert Xor(x, 1) == 2 * Xor(x / 2, 0) + (if x % 2 != 1 then 1 else 0);
    } else {
      BitOfHalf(x, i);
      XorPow2(x / 2, i - 1);
      assert Pow2(i) / 2 == Pow2(i - 1);
      assert Pow2(i) % 2 == 0;
    }
  }
}
