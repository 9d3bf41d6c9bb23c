/** Palette-packed index arrays of the Anvil chunk format (data version 4325):
    a section stores one small palette index per block (or per 4x4x4 biome
    cell) in 64-bit words, as many whole indices per word as fit, lowest bits
    first, no index spanning two words. */
module PackedIndices {
  import opened JavaInts

  /** `32 - Integer.numberOfLeadingZeros(v)` for a non-negative int: the number of significant bits. */
  function BitLength(v: nat): (r: nat)
    ensures v < Pow2(r)
    ensures v > 0 ==> r >= 1 && Pow2(r - 1) <= v
    ensures v == 0 <==> r == 0
    decreases v
  {
    if v == 0 then 0 else 1 + BitLength(v / 2)
  }

  /** Width of a block-state index for a palette of `n` entries: none for a
      single-entry palette, otherwise enough bits for `n - 1` but at least 4. */
  function BlockBits(n: int): (b: nat)
    ensures n <= 1 ==> b == 0
    ensures n > 1 ==> 4 <= b && n <= Pow2(b) && (b > 4 ==> Pow2(b - 1) < n)
  {
    if n > 1 then Max(4, BitLength(n - 1)) else 0
  }

  /** Width of a biome index: as for blocks, but at least 1 bit. */
  function BiomeBits(n: int): (b: nat)
    ensures n <= 1 ==> b == 0
    ensures n > 1 ==> 1 <= b && n <= Pow2(b) && (b > 1 ==> Pow2(b - 1) < n)
  {
    if n > 1 then Max(1, BitLength(n - 1)) else 0
  }

  lemma BitWidthExamples()
    ensures BlockBits(17) == 5 && BlockBits(16) == 4 && BlockBits(2) == 4 && BlockBits(1) == 0
    ensures BiomeBits(2) == 1 && BiomeBits(5) == 3
  {
    assert BitLength(16) == 5 by {
      assert BitLength(1) == 1;
      assert BitLength(2) == 2;
      assert BitLength(4) == 3;
      assert BitLength(8) == 4;
    }
    assert BitLength(4) == 3 by {
      assert BitLength(1) == 1;
      assert BitLength(2) == 2;
    }
  }

  /** `bits == 0 ? 1 : 64 / bits`: the number of whole indices a 64-bit word holds. */
  function IndicesPerLong(bits: nat): (r: nat)
    ensures bits == 0 ==> r == 1
    ensures bits <= 64 ==> r >= 1
    ensures bits > 0 ==> r * bits <= 64 < (r + 1) * bits
  {
    if bits == 0 then 1 else 64 / bits
  }

  /** Java's `a << s` on ints: the shift count is taken modulo 32 and the result wraps. */
  function IntShiftLeft(a: int, s: int): int32
  {
    ToInt32(a * Pow2(s % 32))
  }

  /** The int whose low `w` bits are set and the others clear (`-1` for all 32). */
  function MaskOfWidth(w: nat): int32
    requires w <= 32
  {
    ToInt32(Pow2(w) - 1)
  }

  /** `(int) v & clean` where `clean` is `MaskOfWidth(w)`: the low `w` bits of
      the int, read as a non-negative number when `w < 32` and as the signed int itself when `w == 32`. */
  function AndMask(v: int32, w: nat): int
    requires w <= 32
  {
    if w == 32 then v else v % Pow2(w)
  }

  /** The block-state mask `(1 << bits) - 1` is the mask of width `bits mod 32`
      (Java takes an int shift count modulo 32), so of width `bits` below 32. */
  lemma BlockMaskExpression(bits: nat)
    ensures ToInt32(IntShiftLeft(1, bits) - 1) == MaskOfWidth(bits % 32)
  {
    var p := Pow2(bits % 32);
    assert IntShiftLeft(1, bits) == ToInt32(p);
    WrapInner(p, -1);
    assert ToInt32(ToInt32(p) + -1) == ToInt32(p - 1);
  }

  /** The cave renderer's mask `(2 << (bits - 1)) - 1` is the mask of width
      `((bits - 1) mod 32) + 1`: all 32 bits when `bits` is 0 or a multiple of 32. */
  lemma CaveMaskExpression(bits: int)
    ensures ToInt32(IntShiftLeft(2, bits - 1) - 1) == MaskOfWidth((bits - 1) % 32 + 1)
  {
    var s := (bits - 1) % 32;
    assert 2 * Pow2(s) == Pow2(s + 1);
    WrapInner(Pow2(s + 1), -1);
  }

  lemma Pow2Value31()
    ensures Pow2(30) == 0x4000_0000 && Pow2(31) == 0x8000_0000 && Pow2(32) == 0x1_0000_0000
  {
    assert Pow2(10) == 1024;
    Pow2Add(10, 10);
    Pow2Add(20, 10);
    Pow2Add(30, 1);
    Pow2Add(30, 2);
  }

  lemma Pow2Value64()
    ensures Pow2(63) == 0x8000_0000_0000_0000 && Pow2(64) == 0x1_0000_0000_0000_0000
  {
    Pow2Value31();
    Pow2Add(32, 31);
    Pow2Add(32, 32);
  }

  datatype Attempt<+T> = Done(value: T) | Threw

  /** One index read the way `getBlock` and `getBiome` read it: word
      `index / perLong`, bit offset `(index % perLong) * bits`, long shift,
      `(int)` cast and mask of width `w`. Division by a zero `perLong` and a
      word index outside the buffer throw. */
  function ReadIndex(words: seq<int>, index: int, bits: int, w: nat, perLong: int): Attempt<int>
    requires w <= 32
  {
    if perLong == 0 then Threw
    else
      var longIndex := JavaDiv(index, perLong);
      var bitIndex := ToInt32(JavaRem(index, perLong) * bits);
      if 0 <= longIndex < |words| then
        Done(AndMask(ToInt32(LongShiftRight(words[longIndex], bitIndex)), w))
      else Threw
  }

  /** The unsigned number whose base-2^b digits, lowest first, are `ids`. */
  function PackWord(ids: seq<nat>, b: nat): nat
    decreases |ids|
  {
    if |ids| == 0 then 0 else ids[0] + Pow2(b) * PackWord(ids[1..], b)
  }

  predicate Fits(ids: seq<nat>, b: nat) { forall i :: 0 <= i < |ids| ==> ids[i] < Pow2(b) }

  /** The signed Java long with the same 64 bits as the unsigned `u`. */
  function ToSigned64(u: nat): int
  {
    if u >= 0x8000_0000_0000_0000 then u - 0x1_0000_0000_0000_0000 else u
  }

  /** The words a writer of the format produces for `ids`: `perLong` indices per word, the last word possibly partly filled. */
  function Pack(ids: seq<nat>, b: nat, perLong: nat): (words: seq<int>)
    requires perLong > 0
    decreases |ids|
  {
    if |ids| == 0 then []
    else if |ids| <= perLong then [ToSigned64(PackWord(ids, b))]
    else [ToSigned64(PackWord(ids[..perLong], b))] + Pack(ids[perLong..], b, perLong)
  }

  /** `words` is the buffer a writer of the format produces for `ids` at width `b`. */
  predicate PackedWith(words: seq<int>, ids: seq<nat>, b: nat)
  {
    IndicesPerLong(b) > 0 && words == Pack(ids, b, IndicesPerLong(b))
  }

  /** A buffer of `n` indices takes `n / perLong` words, rounded up. */
  lemma {:induction false} PackLength(ids: seq<nat>, b: nat, perLong: nat)
    requires perLong > 0
    ensures |Pack(ids, b, perLong)| == (|ids| + perLong - 1) / perLong
    decreases |ids|
  {
    if |ids| > perLong {
      PackLength(ids[perLong..], b, perLong);
      DivStep(|ids| + perLong - 1, perLong);
    } else if |ids| > 0 {
      DivModUnique(|ids| + perLong - 1, perLong, 1, |ids| - 1);
    } else {
      DivModUnique(perLong - 1, perLong, 0, perLong - 1);
    }
  }

  lemma {:induction false} PackWordBound(ids: seq<nat>, b: nat)
    requires Fits(ids, b)
    ensures PackWord(ids, b) < Pow2(|ids| * b)
    decreases |ids|
  {
    if |ids| > 0 {
      PackWordBound(ids[1..], b);
      var n := |ids|;
      Pow2Add(b, (n - 1) * b);
      assert b + (n - 1) * b == n * b;
      DigitBound(ids[0], Pow2(b), PackWord(ids[1..], b), Pow2((n - 1) * b));
    }
  }

  /** A digit below the base plus the base times a number below `cap` stays below `base * cap`. */
  lemma DigitBound(d: int, base: int, rest: int, cap: int)
    requires 0 <= d < base && 0 <= rest < cap
    ensures d + base * rest < base * cap
  {
    MulMonotoneLe(base, rest + 1, cap);
    assert base * (rest + 1) == base * rest + base;
  }

  lemma MulMonotoneLe(p: nat, a: int, c: int)
    requires a <= c
    ensures p * a <= p * c
  {
    MulSign(p + 1, 0);
    assert p * c - p * a == p * (c - a);
  }

  /** Shifting the packed number right by `t` digits leaves the digits from `t` on. */
  lemma {:induction false} PackWordShift(ids: seq<nat>, b: nat, t: nat)
    requires t <= |ids| && Fits(ids, b)
    ensures PackWord(ids, b) / Pow2(t * b) == PackWord(ids[t..], b)
    decreases t
  {
    if t > 0 {
      var rest := PackWord(ids[1..], b);
      var w := PackWord(ids, b);
      var pb := Pow2(b);
      var pt := Pow2((t - 1) * b);
      assert ids[1..][t - 1..] == ids[t..];
      PackWordShift(ids[1..], b, t - 1);
      PackWordLowDigit(ids, b);
      assert Pow2(t * b) == pb * pt by {
        Pow2Add(b, (t - 1) * b);
        assert b + (t - 1) * b == t * b;
      }
      DivDiv(w, pb, pt, rest);
    }
  }

  /** Dividing by `p` then by `q` is dividing by `p * q`; here `w / p` is known. */
  lemma DivDiv(w: nat, p: nat, q: nat, wp: nat)
    requires p > 0 && q > 0
    requires w / p == wp
    ensures w / (p * q) == wp / q
  {
    var r1 := w % p;
    var r2 := wp % q;
    var d := wp / q;
    assert w == p * wp + r1;
    assert wp == q * d + r2;
    assert w == (p * q) * d + (p * r2 + r1) by {
      assert p * wp == p * (q * d) + p * r2;
      assert p * (q * d) == (p * q) * d;
    }
    assert p * r2 + r1 < p * q by {
      MulMonotoneLe(p, r2, q - 1);
      assert p * (q - 1) == p * q - p;
    }
    DivModUnique(w, p * q, d, p * r2 + r1);
  }

  /** The lowest digit of the packed number is the first index. */
  lemma PackWordLowDigit(ids: seq<nat>, b: nat)
    requires |ids| > 0 && ids[0] < Pow2(b)
    ensures PackWord(ids, b) % Pow2(b) == ids[0]
    ensures PackWord(ids, b) / Pow2(b) == PackWord(ids[1..], b)
  {
    DivModUnique(PackWord(ids, b), Pow2(b), PackWord(ids[1..], b), ids[0]);
  }

  /** The word holding index `k`, and the indices packed into that word. */
  lemma {:induction false} PackGroup(ids: seq<nat>, b: nat, perLong: nat, k: nat) returns (g: seq<nat>)
    requires perLong > 0 && Fits(ids, b) && k < |ids|
    ensures k / perLong < |Pack(ids, b, perLong)|
    ensures Pack(ids, b, perLong)[k / perLong] == ToSigned64(PackWord(g, b))
    ensures |g| <= perLong && k % perLong < |g| && g[k % perLong] == ids[k] && Fits(g, b)
    decreases |ids|
  {
    if k < perLong {
      DivModUnique(k, perLong, 0, k);
      g := if |ids| <= perLong then ids else ids[..perLong];
      FitsPrefix(ids, b, |g|);
    } else {
      var rest := ids[perLong..];
      FitsSuffix(ids, b, perLong);
      g := PackGroup(rest, b, perLong, k - perLong);
      DivStep(k, perLong);
      assert rest[k - perLong] == ids[k];
      PackLater(ids, b, perLong, (k - perLong) / perLong);
    }
  }

  lemma FitsPrefix(ids: seq<nat>, b: nat, n: nat)
    requires Fits(ids, b) && n <= |ids|
    ensures Fits(ids[..n], b)
  {
    assert forall i | 0 <= i < n :: ids[..n][i] == ids[i];
  }

  lemma FitsSuffix(ids: seq<nat>, b: nat, n: nat)
    requires Fits(ids, b) && n <= |ids|
    ensures Fits(ids[n..], b)
  {
    assert forall i | 0 <= i < |ids| - n :: ids[n..][i] == ids[i + n];
  }

  /** Word `j + 1` of a buffer longer than one word is word `j` of the rest. */
  lemma PackLater(ids: seq<nat>, b: nat, perLong: nat, j: nat)
    requires perLong > 0 && |ids| > perLong && j < |Pack(ids[perLong..], b, perLong)|
    ensures j + 1 < |Pack(ids, b, perLong)| && Pack(ids, b, perLong)[j + 1] == Pack(ids[perLong..], b, perLong)[j]
  {
    assert Pack(ids, b, perLong) == [ToSigned64(PackWord(ids[..perLong], b))] + Pack(ids[perLong..], b, perLong);
  }

  /** Reading the signed long instead of the unsigned word changes bits 64 and
      above only, so the `b` bits at offset `s` are the same when `s + b <= 64`. */
  lemma SignedShiftLowBits(u: nat, s: nat, b: nat)
    requires s + b <= 64
    ensures (ToSigned64(u) / Pow2(s)) % Pow2(b) == (u / Pow2(s)) % Pow2(b)
  {
    if u >= 0x8000_0000_0000_0000 {
      var ps, pr := Pow2(s), Pow2(64 - s);
      assert ps * pr == 0x1_0000_0000_0000_0000 by {
        Pow2Value64();
        Pow2Add(s, 64 - s);
      }
      var v := ToSigned64(u);
      ShiftDown(u, v, ps, pr);
      assert pr == Pow2(b) * Pow2(64 - s - b) by { Pow2Add(b, 64 - s - b); }
      ModCongruentByMultiple(v / ps, u / ps, Pow2(b), Pow2(64 - s - b));
    }
  }

  /** Taking `pr` multiples of the divisor off the dividend takes `pr` off the quotient. */
  lemma ShiftDown(u: int, v: int, ps: int, pr: int)
    requires ps > 0 && v == u - ps * pr
    ensures v / ps == u / ps - pr
  {
    var q, r := u / ps, u % ps;
    assert v == (q - pr) * ps + r by {
      assert (q - pr) * ps == q * ps - pr * ps;
    }
    DivModUnique(v, ps, q - pr, r);
  }

  lemma ModCongruentByMultiple(x: int, y: int, p: int, q: int)
    requires p > 0 && q > 0 && (y - x == p * q || y == x)
    ensures x % p == y % p
  {
    if y - x == p * q {
      ModAddMultiple(x, p, q);
      assert x + q * p == y;
    }
  }

  /** The `(int)` cast keeps the low 32 bits, so it keeps the low `b <= 32` bits. */
  lemma CastLowBits(y: int, b: nat)
    requires b <= 32
    ensures ToInt32(y) % Pow2(b) == y % Pow2(b)
  {
    assert Pow2(b) * Pow2(32 - b) == 0x1_0000_0000 by {
      Pow2Add(b, 32 - b);
      Pow2Value31();
    }
    ModCongruentFactor(ToInt32(y), y, Pow2(b), Pow2(32 - b));
  }

  /** Index `t` of a fully packed word reads back, whatever sign the word has as a Java long. */
  lemma WordReadBack(g: seq<nat>, b: nat, t: nat)
    requires 1 <= b <= 31 && Fits(g, b) && t < |g| && |g| * b <= 64
    ensures t * b < 64
    ensures AndMask(ToInt32(LongShiftRight(ToSigned64(PackWord(g, b)), t * b)), b) == g[t]
  {
    var s := t * b;
    assert s + b <= 64 by {
      MulMonotoneLe(b, t + 1, |g|);
      assert (t + 1) * b == s + b;
    }
    assert s % 64 == s;
    var u := PackWord(g, b);
    SignedShiftLowBits(u, s, b);
    CastLowBits(ToSigned64(u) / Pow2(s), b);
    PackWordShift(g, b, t);
    PackWordLowDigit(g[t..], b);
  }

  /** `ReadIndex` for a non-negative index and a positive `perLong` whose bit offset fits a long. */
  lemma ReadIndexAt(words: seq<int>, k: nat, bits: nat, w: nat, perLong: nat)
    requires w <= 32 && perLong > 0 && k / perLong < |words| && (k % perLong) * bits < 64
    ensures ReadIndex(words, k, bits, w, perLong)
         == Done(AndMask(ToInt32(LongShiftRight(words[k / perLong], (k % perLong) * bits)), w))
  {
    JavaDivRem(k, perLong);
  }

  /** A non-negative index within the buffer is read without an exception;
      under a mask narrower than 32 bits it is below `2^w`. */
  lemma ReadIndexInRange(words: seq<int>, k: nat, bits: int, w: nat, perLong: nat)
    requires w <= 32 && perLong > 0 && k < |words| * perLong
    ensures ReadIndex(words, k, bits, w, perLong).Done?
    ensures w < 32 ==> 0 <= ReadIndex(words, k, bits, w, perLong).value < Pow2(w)
  {
    DivBelow(k, perLong, |words|);
    JavaDivRem(k, perLong);
  }

  lemma DivBelow(k: nat, p: nat, n: nat)
    requires p > 0 && k < n * p
    ensures k / p < n
  {
    var q := k / p;
    assert k == p * q + k % p;
    assert p * (n - q) > 0 by {
      assert p * (n - q) == n * p - p * q;
    }
    MulSign(p, n - q);
  }

  /** Every index written by `Pack` is read back by `ReadIndex` with the widths the format prescribes. */
  lemma PackReadBack(ids: seq<nat>, b: nat, w: nat, k: nat)
    requires 1 <= b <= 31 && w == b && Fits(ids, b) && k < |ids|
    ensures ReadIndex(Pack(ids, b, IndicesPerLong(b)), k, b, w, IndicesPerLong(b)) == Done(ids[k])
  {
    var pl := IndicesPerLong(b);
    var g := PackGroup(ids, b, pl, k);
    assert |g| * b <= 64 by {
      MulMonotoneLe(b, |g|, pl);
    }
    WordReadBack(g, b, k % pl);
    ReadIndexAt(Pack(ids, b, pl), k, b, w, pl);
  }
}
