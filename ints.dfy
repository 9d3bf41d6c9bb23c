/** Integer arithmetic as the JVM and JavaScript perform it, written out over
    Dafny's unbounded `int`: widths, wrap-around casts, shifts and the
    truncating division of Java and of JavaScript's `%`. */
module JavaInts {

  const INT_MIN: int := -0x8000_0000
  const INT_MAX: int := 0x7fff_ffff

  /** A value a Java `int` can hold. */
  predicate IsInt32(x: int) { -0x8000_0000 <= x <= 0x7fff_ffff }
  type int32 = x: int | -0x8000_0000 <= x <= 0x7fff_ffff

  /** A value a Java `long` can hold. */
  predicate IsInt64(x: int) { -0x8000_0000_0000_0000 <= x <= 0x7fff_ffff_ffff_ffff }
  type int64 = x: int | IsInt64(x)

  /** A value a Java `short` can hold. */
  type int16 = x: int | -0x8000 <= x < 0x8000

  /** A value a Java `byte` can hold. */
  type int8 = x: int | -0x80 <= x < 0x80

  function Pow2(k: nat): (r: nat)
    ensures r >= 1
  {
    if k == 0 then 1 else 2 * Pow2(k - 1)
  }

  lemma {:induction false} Pow2Add(a: nat, b: nat)
    ensures Pow2(a + b) == Pow2(a) * Pow2(b)
  {
    if a > 0 {
      Pow2Add(a - 1, b);
      assert Pow2(a + b) == 2 * Pow2(a - 1 + b);
    }
  }

  lemma Pow2Monotone(a: nat, b: nat)
    requires a <= b
    ensures Pow2(a) <= Pow2(b)
    ensures Pow2(b) % Pow2(a) == 0
    ensures Pow2(b) / Pow2(a) == Pow2(b - a)
  {
    var k, m := Pow2(b - a), Pow2(a);
    Pow2Add(b - a, a);
    assert b - a + a == b;
    MulMod(k, m);
    MulAtLeast(k, m);
  }

  lemma MulMod(k: nat, m: nat)
    requires m > 0
    ensures (k * m) % m == 0 && (k * m) / m == k
  {
    DivModUnique(k * m, m, k, 0);
  }

  /** Division with a positive divisor has exactly one quotient and remainder. */
  lemma DivModUnique(a: int, m: int, q: int, r: int)
    requires m > 0 && 0 <= r < m && a == q * m + r
    ensures a / m == q && a % m == r
  {
    var q', r' := a / m, a % m;
    var d := q - q';
    assert d * m == r' - r by {
      assert q * m + r == q' * m + r';
      assert (q - q') * m == q * m - q' * m;
    }
    if d >= 1 {
      MulAtLeast(d, m);
    } else if d <= -1 {
      MulAtLeast(-d, m);
    }
  }

  lemma MulAtLeast(d: int, m: int)
    requires d >= 1 && m > 0
    ensures d * m >= m
  {
  }

  /** The narrowing `(int)` cast, and int overflow: the two's-complement value of the low 32 bits. */
  function ToInt32(x: int): (r: int32)
    ensures (r - x) % 0x1_0000_0000 == 0
    ensures IsInt32(x) ==> r == x
  {
    (x + 0x8000_0000) % 0x1_0000_0000 - 0x8000_0000
  }

  /** Values congruent modulo 2^32 wrap to the same int. */
  lemma WrapCongruent(x: int, y: int, k: int)
    requires x - y == k * 0x1_0000_0000
    ensures ToInt32(x) == ToInt32(y)
  {
    var m := 0x1_0000_0000;
    DivModUnique(x + 0x8000_0000, m, (y + 0x8000_0000) / m + k, (y + 0x8000_0000) % m);
  }

  /** Wrapping an intermediate result does not change the wrapped final result. */
  lemma WrapInner(a: int, c: int)
    ensures ToInt32(ToInt32(a) + c) == ToInt32(a + c)
  {
    var j := (ToInt32(a) - a) / 0x1_0000_0000;
    assert ToInt32(a) - a == j * 0x1_0000_0000;
    WrapCongruent(ToInt32(a) + c, a + c, j);
  }

  /** Removing one divisor from the dividend lowers the quotient by one and keeps the remainder. */
  lemma DivStep(k: int, p: int)
    requires p > 0
    ensures k / p == (k - p) / p + 1 && k % p == (k - p) % p
  {
    var q, r := (k - p) / p, (k - p) % p;
    assert k == q * p + r + p;
    assert (q + 1) * p == q * p + p;
    DivModUnique(k, p, q + 1, r);
  }

  /** Numbers congruent modulo `p * q` are congruent modulo `p`. */
  lemma ModCongruentFactor(x: int, y: int, p: int, q: int)
    requires p > 0 && q > 0 && (x - y) % (p * q) == 0
    ensures x % p == y % p
  {
    var j := (x - y) / (p * q);
    assert x - y == j * (p * q);
    assert j * (p * q) == (j * q) * p;
    ModAddMultiple(y, p, j * q);
  }

  /** Adding a multiple of `m` does not change the remainder. */
  lemma ModAddMultiple(a: int, m: int, j: int)
    requires m > 0
    ensures (a + j * m) % m == a % m
  {
    DivModUnique(a + j * m, m, a / m + j, a % m);
  }

  /** The narrowing `(short)` cast: the two's-complement value of the low 16 bits. */
  function ToShort(x: int): (r: int16)
    ensures (r - x) % 0x1_0000 == 0
    ensures -0x8000 <= x < 0x8000 ==> r == x
  {
    (x + 0x8000) % 0x1_0000 - 0x8000
  }

  /** Java's arithmetic right shift `x >> k` (k already reduced to the shift range):
      rounds toward negative infinity, which is Dafny's `/` for a positive divisor. */
  function ShiftRight(x: int, k: nat): (r: int)
    ensures 0 <= x ==> 0 <= r <= x
    ensures x < 0 ==> x <= r < 0
  {
    DivBounds(x, Pow2(k));
    x / Pow2(k)
  }

  lemma DivBounds(x: int, p: int)
    requires p >= 1
    ensures 0 <= x ==> 0 <= x / p <= x
    ensures x < 0 ==> x <= x / p < 0
  {
    var r, m := x / p, x % p;
    assert x == p * r + m;
    MulSign(p, r);
    MulSign(p, r + 1);
    MulSign(p, x);
    MulSign(p, r - x + 1);
    assert p * (r + 1) == p * r + p;
    assert p * (r - x + 1) == p * r - p * x + p;
  }

  lemma MulSign(p: int, q: int)
    requires p >= 1
    ensures q >= 0 ==> p * q >= q
    ensures q <= 0 ==> p * q <= q
  {
    assert p * q == q + (p - 1) * q;
  }

  /** Java's `long >> s`: the shift count is taken modulo 64. */
  function LongShiftRight(v: int, s: int): int
  {
    v / Pow2(s % 64)
  }

  /** Java's integer `/`: truncates toward zero (unlike Dafny's Euclidean `/`). */
  function JavaDiv(a: int, b: int): (q: int)
    requires b != 0
  {
    var q0 := Abs(a) / Abs(b);
    if (a < 0) == (b < 0) then q0 else -q0
  }

  /** Java's `%` and JavaScript's `%` on integers: the remainder has the sign of the dividend. */
  function JavaRem(a: int, b: int): (r: int)
    requires b != 0
  {
    a - b * JavaDiv(a, b)
  }

  function Abs(a: int): nat { if a < 0 then -a else a }

  /** On non-negative operands Java's `/` is Dafny's. */
  lemma JavaDivNatural(a: int, b: int)
    requires a >= 0 && b > 0
    ensures JavaDiv(a, b) == a / b
  {
  }

  lemma JavaDivRem(a: int, b: int)
    requires b != 0
    ensures a == b * JavaDiv(a, b) + JavaRem(a, b)
    ensures Abs(JavaRem(a, b)) < Abs(b)
    ensures a >= 0 ==> JavaRem(a, b) >= 0
    ensures a <= 0 ==> JavaRem(a, b) <= 0
    ensures a >= 0 && b > 0 ==> JavaDiv(a, b) == a / b && JavaRem(a, b) == a % b
  {
    var q0 := Abs(a) / Abs(b);
    var r0 := Abs(a) % Abs(b);
    assert Abs(a) == Abs(b) * q0 + r0;
    if a >= 0 && b < 0 {
      assert a == b * (-q0) + r0;
    } else if a < 0 && b > 0 {
      assert a == b * (-q0) - r0;
    } else if a < 0 && b < 0 {
      assert a == b * q0 - r0;
    }
  }

  function Max(a: int, b: int): int { if a >= b then a else b }
  function Min(a: int, b: int): int { if a <= b then a else b }

  /** `MathUtil.clamp(v, lo, hi)`. */
  function Clamp(v: int, lo: int, hi: int): (r: int)
    requires lo <= hi
    ensures lo <= r <= hi
    ensures lo <= v <= hi ==> r == v
  {
    if v < lo then lo else if v > hi then hi else v
  }
}
