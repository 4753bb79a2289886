/**
 * Fixed-width integer helpers shared by the CPU model: the C++ source works on
 * `u8`/`u16`/`u32`/`s32`/`u64`, which are modelled here as bit-vectors, so that
 * wrap-around and truncation are exactly those of the hardware.
 */
module Bits {

  /**
   * `u32 + u32` and `u32 - u32`: arithmetic modulo 2^32. The model computes
   * every sum and difference of register values through these two, so that
   * the solver meets the adder only where a property needs it.
   */
  function WrappingAdd(a: bv32, b: bv32): bv32 {
    a + b
  }

  function WrappingSub(a: bv32, b: bv32): bv32 {
    a - b
  }

  /** Bit 31, the sign of a value read as `s32`. */
  predicate IsNegative(x: bv32) {
    x & 0x8000_0000 != 0
  }

  function ZeroExtend8(b: bv8): bv32 {
    b as bv32
  }

  function ZeroExtend16(h: bv16): bv32 {
    h as bv32
  }

  /** `SignExtend32(u8)`: bit 7 is copied into bits 8..31. */
  function SignExtend8(b: bv8): bv32 {
    if b & 0x80 != 0 then b as bv32 | 0xFFFF_FF00 else b as bv32
  }

  /** `SignExtend32(u16)`: bit 15 is copied into bits 16..31. */
  function SignExtend16(h: bv16): bv32 {
    if h & 0x8000 != 0 then h as bv32 | 0xFFFF_0000 else h as bv32
  }

  /** `Truncate8`: the low byte. */
  function Truncate8(x: bv32): bv8 {
    (x & 0xFF) as bv8
  }

  /** `Truncate16`: the low half-word. */
  function Truncate16(x: bv32): bv16 {
    (x & 0xFFFF) as bv16
  }

  /** Widening `Truncate16` back to a word gives the low half-word. */
  lemma Truncate16Widens(x: bv32)
    ensures Truncate16(x) as bv32 == x & 0xFFFF
  {
  }

  /** `SignExtend16` of the half-word `h`, where `h` is the low half-word of `x`. */
  lemma HalfWordSignFill(x: bv32, h: bv16)
    requires h as bv32 == x & 0xFFFF
    ensures SignExtend16(h) & 0xFFFF == x & 0xFFFF
    ensures SignExtend16(h) & 0xFFFF_0000 == (if x & 0x8000 != 0 then 0xFFFF_0000 else 0)
  {
    var w := h as bv32;
    assert SignExtend16(h) == if w & 0x8000 != 0 then w | 0xFFFF_0000 else w;
  }

  /** `SignExtend16(Truncate16(x))` keeps the low half-word of `x` and copies its bit 15 into bits 16..31. */
  lemma HalfWordSignExtends(x: bv32)
    ensures SignExtend16(Truncate16(x)) & 0xFFFF == x & 0xFFFF
    ensures SignExtend16(Truncate16(x)) & 0xFFFF_0000 == (if x & 0x8000 != 0 then 0xFFFF_0000 else 0)
  {
    Truncate16Widens(x);
    HalfWordSignFill(x, Truncate16(x));
  }

  // ===== integer views =====
  //
  // `mult`, `div` and `sra` compute on the operands' integer values (`s64`
  // and `s32` arithmetic in the source) and convert the result back to a
  // register word. They are modelled on `int`, with `ToWord` as the conversion.

  /** A word read as `s32`: two's complement, bit 31 weighing -2^31. */
  function Signed(x: bv32): (v: int)
    ensures -0x8000_0000 <= v < 0x8000_0000
  {
    var u := x as int;
    if u >= 0x8000_0000 then u - 0x1_0000_0000 else u
  }

  /** `static_cast<u32>` of an integer: its value modulo 2^32. */
  function ToWord(i: int): bv32 {
    (i % 0x1_0000_0000) as bv32
  }

  function Abs(i: int): nat {
    if i < 0 then -i else i
  }

  function Pow2(n: nat): (p: nat)
    ensures p >= 1
  {
    if n == 0 then 1 else 2 * Pow2(n - 1)
  }

  /**
   * `static_cast<s32>(x) >> n`: the signed value shifted right, which is the
   * signed value divided by 2^n and rounded down (section 7.6.7 of ISO C++20).
   */
  function ShiftRightArithmetic(x: bv32, n: nat): bv32
    requires n < 32
  {
    ToWord(Signed(x) / Pow2(n))
  }

  /**
   * C++'s `/` on integers: the quotient of the magnitudes, negated when the
   * operands' signs differ, so that it is truncated toward zero.
   */
  function TruncatingQuotient(n: int, d: int): int
    requires d != 0
  {
    var m := Abs(n) / Abs(d);
    if (n < 0) != (d < 0) then -m else m
  }

  /** C++'s `%` on integers: the remainder of the magnitudes, with the sign of the dividend. */
  function TruncatingRemainder(n: int, d: int): int
    requires d != 0
  {
    var m := Abs(n) % Abs(d);
    if n < 0 then -m else m
  }

  /**
   * The rule C++ division follows: `n == q * d + r`, the remainder smaller
   * than the divisor in magnitude and never of the opposite sign to `n`.
   */
  predicate TruncatedDivision(n: int, d: int, q: int, r: int) {
    n == q * d + r && Abs(r) < Abs(d) && (r == 0 || (r < 0 <==> n < 0))
  }

  /** The truncating quotient and remainder obey the rule of C++ division. */
  lemma TruncatingDivisionHolds(n: int, d: int)
    requires d != 0
    ensures TruncatedDivision(n, d, TruncatingQuotient(n, d), TruncatingRemainder(n, d))
  {
    var m, k := Abs(n) / Abs(d), Abs(n) % Abs(d);
    assert Abs(n) == m * Abs(d) + k;
    NegateProduct(m, d);
  }

  /** ... and are the only pair that does. */
  lemma TruncatedDivisionUnique(n: int, d: int, q: int, r: int)
    requires d != 0 && TruncatedDivision(n, d, q, r)
    ensures q == TruncatingQuotient(n, d) && r == TruncatingRemainder(n, d)
  {
    var q0, r0 := TruncatingQuotient(n, d), TruncatingRemainder(n, d);
    TruncatingDivisionHolds(n, d);
    assert (q - q0) * d == r0 - r;
    assert Abs(r0 - r) < Abs(d);
    MultipleBelowDivisor(q - q0, d);
  }

  /** Rounding down is unique: the `q` with `q * p <= s < (q + 1) * p` is `s / p`. */
  lemma FloorUnique(s: int, p: int, q: int)
    requires p > 0 && q * p <= s < (q + 1) * p
    ensures q == s / p
  {
    var q0 := s / p;
    assert q0 * p <= s < (q0 + 1) * p;
    if q < q0 {
      MultiplyMonotone(q + 1, q0, p);
    } else if q > q0 {
      MultiplyMonotone(q0 + 1, q, p);
    }
  }

  lemma FloorDivision(v: int, p: int, q: int)
    requires p >= 1 && q * p <= v < (q + 1) * p
    ensures q == v / p
    ensures q < 0 <==> v < 0
    ensures v <= q <= 0 || 0 <= q <= v
  {
    FloorUnique(v, p, q);
    if q < 0 {
      MultiplyMonotone(q + 1, 0, p);
      ProductGrows(p, -q);
      NegateProduct(q, p);
    } else if q >= 1 {
      ProductGrows(p, q);
    }
  }

  lemma SignedQuotientFits(n: int, d: int, q: int, r: int)
    requires -0x8000_0000 <= n < 0x8000_0000 && !(n == -0x8000_0000 && d == -1)
    requires TruncatedDivision(n, d, q, r)
    ensures q == TruncatingQuotient(n, d) && r == TruncatingRemainder(n, d)
    ensures -0x8000_0000 <= q < 0x8000_0000
  {
    TruncatedDivisionUnique(n, d, q, r);
    QuotientShrinks(Abs(n), Abs(d));
  }

  lemma QuotientShrinks(a: nat, b: nat)
    requires b >= 1
    ensures a / b <= a && (b >= 2 ==> 2 * (a / b) <= a)
  {
    var m := a / b;
    assert m * b <= a;
    ProductGrows(b, m);
    if b >= 2 {
      MultiplyMonotone(2, b, m);
    }
  }

  lemma UnsignedQuotientFits(n: int, d: int, q: int, r: int)
    requires 0 <= n < 0x1_0000_0000 && n == q * d + r && 0 <= r < d
    ensures q == n / d && r == n % d
    ensures 0 <= q < 0x1_0000_0000
  {
    assert (q + 1) * d == q * d + d;
    FloorDivision(n, d, q);
  }

  lemma ProductSplits(p: int, h: int, l: int)
    requires p == h * 0x1_0000_0000 + l && 0 <= l < 0x1_0000_0000
    ensures h == p / 0x1_0000_0000 && p % 0x1_0000_0000 == l % 0x1_0000_0000
  {
  }

  lemma SignedProductBound(a: int, b: int)
    requires -0x8000_0000 <= a < 0x8000_0000 && -0x8000_0000 <= b < 0x8000_0000
    ensures -0x4000_0000_0000_0000 <= a * b <= 0x4000_0000_0000_0000
  {
    AbsProduct(a, b);
    MultiplyMonotone(Abs(a), 0x8000_0000, Abs(b));
    MultiplyMonotone(Abs(b), 0x8000_0000, 0x8000_0000);
  }

  lemma UnsignedProductBound(a: int, b: int)
    requires 0 <= a < 0x1_0000_0000 && 0 <= b < 0x1_0000_0000
    ensures 0 <= a * b < 0x1_0000_0000_0000_0000
  {
    MultiplyMonotone(a, 0xFFFF_FFFF, b);
    MultiplyMonotone(b, 0xFFFF_FFFF, 0xFFFF_FFFF);
  }

  lemma NegateProduct(a: int, b: int)
    ensures (-a) * b == -(a * b) && a * (-b) == -(a * b)
  {
  }

  lemma AbsProduct(a: int, b: int)
    ensures Abs(a * b) == Abs(a) * Abs(b)
  {
    NegateProduct(a, b);
    NegateProduct(-a, b);
    NegateProduct(a, -b);
  }

  lemma ProductGrows(a: nat, b: nat)
    requires a >= 1
    ensures a * b >= b
  {
  }

  lemma MultiplyMonotone(a: int, b: int, p: nat)
    requires a <= b
    ensures a * p <= b * p
  {
    ProductGrows(1, (b - a) * p) by { assert (b - a) * p >= 0; }
  }

  /** A nonzero multiple of `d` is at least `d` in magnitude. */
  lemma MultipleBelowDivisor(k: int, d: int)
    requires d != 0 && Abs(k * d) < Abs(d)
    ensures k == 0
  {
    if k != 0 {
      AbsProduct(k, d);
      ProductGrows(Abs(k), Abs(d));
    }
  }

  lemma UnsignedRoundTrip(x: bv32)
    ensures (x as int) as bv32 == x
  {
  }

  /** A word's signed value is congruent to its unsigned one. */
  lemma SignedModulo(u: int)
    requires 0 <= u < 0x1_0000_0000
    ensures (if u >= 0x8000_0000 then u - 0x1_0000_0000 else u) % 0x1_0000_0000 == u
  {
  }
}
