/** Conversions between integer sample formats and float samples. */
module FormatConvert {
  import opened FloatRounding

  type Byte = x: int | 0 <= x < 0x100
  type Int16 = x: int | -0x8000 <= x < 0x8000
  type Int32 = x: int | -0x8000_0000 <= x < 0x8000_0000
  type UInt24 = x: int | 0 <= x < 0x100_0000

  const TWO_31: real := 2147483648.0

  /** A float times the float next to it: one rounding each. */
  function Times(rnd: real -> real, x: real, y: real): real {
    rnd(x * y)
  }

  /** Conversion of a float to an integer drops the fraction. */
  function Truncate(v: real): int {
    if v >= 0.0 then v.Floor else -((-v).Floor)
  }

  // ---------------------------------------------------------------- 24-bit words

  function Read24Bit(p: (Byte, Byte, Byte)): (u: UInt24)
  {
    p.2 * 0x10000 + p.1 * 0x100 + p.0
  }

  /** The low 24 bits of a number, low byte first. */
  function Write24Bit(u: int): (Byte, Byte, Byte) {
    (u % 0x100, u / 0x100 % 0x100, u / 0x10000 % 0x100)
  }

  /** An unsigned 32-bit word read as a signed one. */
  function Signed32(u: int): (s: Int32)
    requires 0 <= u < 0x1_0000_0000
  {
    if u < 0x8000_0000 then u else u - 0x1_0000_0000
  }

  lemma LowByte(h: int, b: Byte)
    ensures (h * 0x100 + b) / 0x100 == h && (h * 0x100 + b) % 0x100 == b
  {
  }

  lemma TwoShifts(u: int)
    ensures u / 0x10000 == u / 0x100 / 0x100
  {
  }

  /** Writing keeps the low 24 bits, whatever is above them. */
  lemma WriteRead24(p: (Byte, Byte, Byte), high: int)
    ensures Write24Bit(Read24Bit(p) + high * 0x100_0000) == p
  {
    var u := Read24Bit(p) + high * 0x100_0000;
    var u2 := high * 0x100 + p.2;
    var u1 := u2 * 0x100 + p.1;
    assert u == u1 * 0x100 + p.0;
    LowByte(u1, p.0);
    LowByte(u2, p.1);
    LowByte(high, p.2);
    TwoShifts(u);
  }

  // ---------------------------------------------------------------- one sample to float

  function DecodeU8(rnd: real -> real, a: Byte): real {
    rnd(rnd((a - 0x80) as real) * (1.0 / 128.0))
  }

  function Decode16(rnd: real -> real, a: Int16): real {
    Times(rnd, rnd(a as real), 1.0 / 32768.0)
  }

  function Sample24(p: (Byte, Byte, Byte)): Int32 {
    Signed32(Read24Bit(p) * 0x100)
  }

  function Decode32(rnd: real -> real, a: Int32): real {
    Times(rnd, rnd(a as real), 1.0 / TWO_31)
  }

  function Decode24(rnd: real -> real, p: (Byte, Byte, Byte)): real {
    Decode32(rnd, Sample24(p))
  }

  // ---------------------------------------------------------------- one sample from float

  function Cap(rnd: real -> real): real {
    rnd(1.0 - rnd(0.000001))
  }

  function CapMax(rnd: real -> real, v: real): real {
    if v > 1.0 then Cap(rnd) else if v < -1.0 then rnd(-1.0 + rnd(0.000001)) else v
  }

  function EncodeU8(rnd: real -> real, v: real): int {
    Truncate(rnd(Times(rnd, CapMax(rnd, v), 127.0) + 128.0))
  }

  function Encode16(rnd: real -> real, v: real): int {
    Truncate(Times(rnd, CapMax(rnd, v), 32768.0))
  }

  function Encode32(rnd: real -> real, v: real): int {
    Truncate(Times(rnd, CapMax(rnd, v), TWO_31))
  }

  /** The arithmetic shift drops the low byte. */
  function Encode24(rnd: real -> real, v: real): (Byte, Byte, Byte) {
    Write24Bit(Encode32(rnd, v) / 0x100)
  }

  // ---------------------------------------------------------------- powers of two in use

  lemma Powers()
    ensures Pow2(7) == 128.0 && Pow2(15) == 32768.0 && Pow2(16) == 65536.0 && Pow2(20) == 1048576.0
    ensures Pow2(8) == 256.0 && Pow2(14) == 16384.0 && Pow2(19) == 524288.0 && Pow2(17) == 131072.0
    ensures Pow2(23) == 8388608.0 && Pow2(31) == TWO_31
  {
    PowStep(0); PowStep(1); PowStep(2); PowStep(3); PowStep(4); PowStep(5); PowStep(6); PowStep(7); PowStep(8);
    PowStep(9); PowStep(10); PowStep(11); PowStep(12); PowStep(13); PowStep(14); PowStep(15); PowStep(16);
    PowStep(17); PowStep(18); PowStep(19); PowStep(20); PowStep(21); PowStep(22); PowStep(23); PowStep(24);
    PowStep(25); PowStep(26); PowStep(27); PowStep(28); PowStep(29); PowStep(30);
  }

  // ---------------------------------------------------------------- round trips

  /** 16 bits: to float and back is the identity, with every intermediate result exact. */
  lemma RoundTrip16(rnd: real -> real, a: Int16)
    requires Nearest(rnd)
    ensures Decode16(rnd, a) == a as real / 32768.0
    ensures Representable(Decode16(rnd, a)) && Representable(Decode16(rnd, a) * 32768.0)
    ensures Encode16(rnd, Decode16(rnd, a)) == a
  {
    Powers();
    Integer(a);
    Dyadic(a, 15);
    Fixes(rnd, a as real);
    Fixes(rnd, a as real / 32768.0);
  }

  lemma DecodeU8Exact(rnd: real -> real, a: Byte)
    requires Nearest(rnd)
    ensures DecodeU8(rnd, a) == (a - 128) as real / 128.0
  {
    Powers();
    Integer(a - 128);
    Dyadic(a - 128, 7);
    Fixes(rnd, (a - 128) as real);
    Fixes(rnd, (a - 128) as real / 128.0);
  }

  /** The two rounded steps of the 8-bit encoding are exact on decoded samples. */
  lemma EncodeU8Exact(rnd: real -> real, n: int)
    requires Nearest(rnd) && -128 <= n <= 127
    ensures var x := n as real / 128.0;
            && rnd(x * 127.0) == (n * 127) as real / 128.0
            && rnd((n * 127) as real / 128.0 + 128.0) == (n * 127 + 16384) as real / 128.0
  {
    Powers();
    Dyadic(n * 127, 7);
    Dyadic(n * 127 + 16384, 7);
    hide Pow2, Representable;
    Fixes(rnd, (n * 127) as real / 128.0);
    Fixes(rnd, (n * 127 + 16384) as real / 128.0);
    assert (n * 127) as real == n as real * 127.0;
    assert (n * 127 + 16384) as real == (n * 127) as real + 16384.0;
  }

  lemma Truncate128(k: int)
    requires k >= 0
    ensures Truncate(k as real / 128.0) == k / 128
  {
    var v, q := k as real / 128.0, k / 128;
    assert q as real <= v < q as real + 1.0;
  }

  lemma LowPart(q: int, r: nat)
    requires r < 128
    ensures (q * 128 + r) / 128 == q
  {
  }

  lemma Scale127(a: Byte)
    ensures ((a - 128) * 127 + 16384) / 128 == if a == 0 then 1 else if a <= 128 then a else a - 1
  {
    if a == 0 {
      LowPart(1, 0);
    } else if a <= 128 {
      LowPart(a, 128 - a);
    } else {
      LowPart(a - 1, 256 - a);
    }
  }

  /** A fraction of its denominator is not capped. */
  lemma NotCapped(rnd: real -> real, n: int, d: real)
    requires d > 0.0 && -d <= n as real <= d
    ensures CapMax(rnd, n as real / d) == n as real / d
  {
  }

  /** 8 bits: every intermediate result is exact, but encoding scales by 127 where decoding scaled by 128. */
  lemma RoundTripU8(rnd: real -> real, a: Byte)
    requires Nearest(rnd)
    ensures EncodeU8(rnd, DecodeU8(rnd, a)) == if a == 0 then 1 else if a <= 128 then a else a - 1
  {
    hide Nearest, Truncate, CapMax, DecodeU8, EncodeU8;
    DecodeU8Exact(rnd, a);
    EncodeU8Exact(rnd, a - 128);
    NotCapped(rnd, a - 128, 128.0);
    EncodeU8Is(rnd, (a - 128) as real / 128.0, ((a - 128) * 127) as real / 128.0, (a - 128) * 127 + 16384);
    Scale127(a);
  }

  lemma EncodeU8Is(rnd: real -> real, x: real, y: real, k: int)
    requires CapMax(rnd, x) == x && rnd(x * 127.0) == y && rnd(y + 128.0) == k as real / 128.0 && k >= 0
    ensures EncodeU8(rnd, x) == k / 128
  {
    hide CapMax;
    Truncate128(k);
    hide Truncate;
    assert Times(rnd, x, 127.0) == y;
  }

  lemma Reciprocal(x: real)
    ensures x * (1.0 / TWO_31) == x / TWO_31 && x / TWO_31 * TWO_31 == x
  {
  }

  lemma TimesIs(rnd: real -> real, x: real, y: real, z: real)
    requires x * y == z
    ensures Times(rnd, x, y) == rnd(z)
  {
  }

  lemma TruncateInteger(r: int)
    ensures Truncate(r as real) == r
  {
  }

  lemma Decode32Value(rnd: real -> real, s: Int32, r: int)
    requires Nearest(rnd) && rnd(s as real) == r as real && Representable(r as real / TWO_31)
    ensures Decode32(rnd, s) == r as real / TWO_31
  {
    hide Nearest, Representable;
    var y, x := rnd(s as real), r as real / TWO_31;
    Reciprocal(y);
    Fixes(rnd, x);
    TimesIs(rnd, y, 1.0 / TWO_31, x);
    assert Decode32(rnd, s) == Times(rnd, y, 1.0 / TWO_31);
  }

  lemma Encode32Value(rnd: real -> real, r: int)
    requires Nearest(rnd) && Representable(r as real / TWO_31) && -0x8000_0000 <= r <= 0x8000_0000
    ensures Encode32(rnd, r as real / TWO_31) == r
  {
    hide Pow2, Nearest, Representable, CapMax, Truncate;
    NotCapped(rnd, r, TWO_31);
    Powers();
    Reciprocal(r as real);
    ExactTimes(rnd, r as real / TWO_31, 31, r as real);
    TruncateInteger(r);
  }

  lemma HighBytes(p: (Byte, Byte, Byte)) returns (n: int)
    ensures Sample24(p) == n * 0x100 && -0x80_0000 <= n < 0x80_0000
    ensures n == Read24Bit(p) + (if Read24Bit(p) < 0x80_0000 then 0 else -1) * 0x100_0000
  {
    n := Read24Bit(p) + (if Read24Bit(p) < 0x80_0000 then 0 else -1) * 0x100_0000;
  }

  /** A 24-bit sample, shifted up to 32 bits, is a float, and so is its fraction of the full scale. */
  lemma Shifted(n: int)
    requires -0x80_0000 <= n < 0x80_0000
    ensures Representable((n * 0x100) as real) && Representable((n * 0x100) as real / TWO_31)
  {
    Powers();
    Dyadic(n, 23);
    Integer(n);
    ScaledUp(n as real, 8);
    hide Pow2, Representable;
    assert (n * 0x100) as real == n as real * 256.0;
    assert (n * 0x100) as real / TWO_31 == n as real / 8388608.0;
  }

  /** 24 bits: to float and back is the identity on the three bytes, with every intermediate result exact. */
  lemma RoundTrip24(rnd: real -> real, p: (Byte, Byte, Byte))
    requires Nearest(rnd)
    ensures Decode24(rnd, p) == Sample24(p) as real / TWO_31
    ensures Encode32(rnd, Decode24(rnd, p)) == Sample24(p)
    ensures Encode24(rnd, Decode24(rnd, p)) == p
  {
    var n := HighBytes(p);
    var s := Sample24(p);
    Shifted(n);
    hide Nearest, Representable, Sample24, Decode32, Encode32, Write24Bit, Read24Bit;
    Fixes(rnd, s as real);
    Decode32Value(rnd, s, s);
    Encode32Value(rnd, s);
    LowByte(n, 0);
    WriteRead24(p, if Read24Bit(p) < 0x800000 then 0 else -1);
  }

  // ---------------------------------------------------------------- ranges

  /** The floats that enclose the caps. */
  lemma CapBounds()
    ensures Representable(1.0 / 1048576.0) && Representable(1.0 / 524288.0)
    ensures Representable(1048575.0 / 1048576.0) && Representable(-1048575.0 / 1048576.0)
    ensures Representable(524287.0 / 524288.0) && Representable(-524287.0 / 524288.0)
  {
    Powers();
    Dyadic(1, 20);
    Dyadic(1, 19);
    Dyadic(0x10_0000 - 1, 20);
    Dyadic(-0x10_0000 + 1, 20);
    Dyadic(0x8_0000 - 1, 19);
    Dyadic(-0x8_0000 + 1, 19);
    hide Pow2, Representable;
  }

  /** Both caps lie inside the interval, next to its ends. */
  lemma CapsAreInside(rnd: real -> real)
    requires Nearest(rnd)
    ensures 524287.0 / 524288.0 <= rnd(1.0 - rnd(0.000001)) <= 1048575.0 / 1048576.0
    ensures -1048575.0 / 1048576.0 <= rnd(-1.0 + rnd(0.000001)) <= -524287.0 / 524288.0
  {
    hide Representable, Nearest;
    CapBounds();
    var eps := rnd(0.000001);
    Between(rnd, 1.0 / 1048576.0, 0.000001, 1.0 / 524288.0);
    Between(rnd, 524287.0 / 524288.0, 1.0 - eps, 1048575.0 / 1048576.0);
    Between(rnd, -1048575.0 / 1048576.0, -1.0 + eps, -524287.0 / 524288.0);
  }

  /** Capping leaves samples in [-1, 1] alone and takes louder ones to between 2^-20 and 2^-19 from full scale, with their
      sign; so a capped sample is 1.0 only if it was exactly 1.0. */
  lemma CapRange(rnd: real -> real, v: real)
    requires Nearest(rnd)
    ensures -1.0 <= v <= 1.0 ==> CapMax(rnd, v) == v
    ensures v > 1.0 ==> 524287.0 / 524288.0 <= CapMax(rnd, v) <= 1048575.0 / 1048576.0
    ensures v < -1.0 ==> -1048575.0 / 1048576.0 <= CapMax(rnd, v) <= -524287.0 / 524288.0
    ensures -1.0 <= CapMax(rnd, v) <= 1.0
    ensures CapMax(rnd, v) == 1.0 <==> v == 1.0
  {
    hide Nearest;
    CapsAreInside(rnd);
  }

  /** Rounding is off by no more than the step of any grid of floats the number lies in. */
  lemma Grain(rnd: real -> real, x: real, k: nat, p: real)
    requires Nearest(rnd) && k <= 149 && p == Pow2(k) && p > 0.0
    requires -(TWO_24 as real) <= x * p < TWO_24 as real
    ensures Abs(rnd(x) - x) <= 1.0 / p
  {
    var n := (x * p).Floor;
    Dyadic(n, k);
    hide Pow2, Representable, Abs;
    NotFurther(rnd, x, n as real / p);
    hide Nearest;
    BelowGrid(x, p, n);
  }

  lemma BelowGrid(x: real, p: real, n: int)
    requires p > 0.0 && n == (x * p).Floor
    ensures Abs(n as real / p - x) <= 1.0 / p
  {
    var d := n as real - x * p;
    OverP(n as real, x, p);
    assert -1.0 <= d <= 0.0;
    DividedAbs(d, p);
  }

  lemma OverP(n: real, x: real, p: real)
    requires p > 0.0
    ensures (n - x * p) / p == n / p - x
  {
  }

  lemma DividedAbs(d: real, p: real)
    requires p > 0.0 && -1.0 <= d <= 0.0
    ensures Abs(d / p) <= 1.0 / p
  {
  }

  /** The floats that enclose the 8-bit results. */
  lemma BoundsU8()
    ensures Representable(-127.0) && Representable(127.0) && Representable(1.0) && Representable(255.0)
    ensures Representable(126.0) && Representable(254.0) && Representable(-126.5) && Representable(1.5)
    ensures Representable(2080767.0 / 16384.0) && Representable(4177919.0 / 16384.0)
  {
    Powers();
    Integer(-127);
    Integer(127);
    Integer(1);
    Integer(255);
    Integer(126);
    Integer(254);
    Dyadic(-253, 1);
    Dyadic(3, 1);
    Dyadic(2080767, 14);
    Dyadic(4177919, 14);
    assert Pow2(1) == 2.0 by {
      PowStep(0);
    }
    hide Pow2, Representable;
  }

  /** The two roundings on the way to 8 bits. */
  lemma RoundedU8(rnd: real -> real, c: real)
    requires Nearest(rnd) && -1.0 <= c <= 1.0
    ensures var y := rnd(c * 127.0); -127.0 <= y <= 127.0 && 1.0 <= rnd(y + 128.0) <= 255.0
    ensures Abs(rnd(rnd(c * 127.0) + 128.0) - (c * 127.0 + 128.0)) <= 3.0 / 131072.0
  {
    BoundsU8();
    Powers();
    var y := rnd(c * 127.0);
    hide Nearest, Representable, Pow2;
    Between(rnd, -127.0, c * 127.0, 127.0);
    Between(rnd, 1.0, y + 128.0, 255.0);
    Grain(rnd, c * 127.0, 17, 131072.0);
    Grain(rnd, y + 128.0, 16, 65536.0);
  }

  /** Encoding any sample to 8 bits lands in 1..255.  Samples in [-1, 1] are off by little more than one step at most.
      Louder ones give 254 and 1: the positive ones less than a sample of exactly 1.0 does. */
  lemma EncodeU8Range(rnd: real -> real, v: real)
    requires Nearest(rnd)
    ensures 1 <= EncodeU8(rnd, v) <= 255
    ensures -1.0 <= v <= 1.0 ==> Abs(EncodeU8(rnd, v) as real - (v * 127.0 + 128.0)) < 1.0001
    ensures v > 1.0 ==> EncodeU8(rnd, v) == 254
    ensures v < -1.0 ==> EncodeU8(rnd, v) == 1
  {
    hide Nearest, CapMax, Truncate, Abs;
    CapRange(rnd, v);
    var c := CapMax(rnd, v);
    RoundedU8(rnd, c);
    FloorU8(rnd(rnd(c * 127.0) + 128.0), c * 127.0 + 128.0);
    if v > 1.0 {
      LoudU8(rnd, c);
    } else if v < -1.0 {
      LoudNegativeU8(rnd, c);
    }
  }

  lemma FloorU8(z: real, t: real)
    requires 1.0 <= z <= 255.0 && Abs(z - t) <= 3.0 / 131072.0
    ensures 1 <= Truncate(z) <= 255 && Abs(Truncate(z) as real - t) < 1.0001
    ensures 254.0 <= z < 255.0 ==> Truncate(z) == 254
    ensures z < 2.0 ==> Truncate(z) == 1
  {
  }

  lemma LoudU8(rnd: real -> real, c: real)
    requires Nearest(rnd) && 524287.0 / 524288.0 <= c <= 1048575.0 / 1048576.0
    ensures 254.0 <= rnd(rnd(c * 127.0) + 128.0) < 255.0
  {
    BoundsU8();
    hide Nearest, Representable;
    Between(rnd, 126.0, c * 127.0, 2080767.0 / 16384.0);
    Between(rnd, 254.0, rnd(c * 127.0) + 128.0, 4177919.0 / 16384.0);
  }

  lemma LoudNegativeU8(rnd: real -> real, c: real)
    requires Nearest(rnd) && -1.0 <= c <= -524287.0 / 524288.0
    ensures 1.0 <= rnd(rnd(c * 127.0) + 128.0) < 2.0
  {
    BoundsU8();
    hide Nearest, Representable;
    Between(rnd, -127.0, c * 127.0, -126.5);
    Between(rnd, 1.0, rnd(c * 127.0) + 128.0, 1.5);
  }

  lemma CapRepresentable(rnd: real -> real, v: real)
    requires Nearest(rnd) && Representable(v)
    ensures Representable(CapMax(rnd, v))
  {
  }

  /** The scaling of the 16- and 32-bit encodings is exact. */
  lemma ScaleExact(rnd: real -> real, v: real)
    requires Nearest(rnd) && Representable(v)
    ensures Encode16(rnd, v) == Truncate(CapMax(rnd, v) * 32768.0)
    ensures Encode32(rnd, v) == Truncate(CapMax(rnd, v) * TWO_31)
  {
    hide Pow2, Nearest, Representable, CapMax, Truncate;
    Powers();
    CapRepresentable(rnd, v);
    ExactTimes(rnd, CapMax(rnd, v), 15, CapMax(rnd, v) * 32768.0);
    ExactTimes(rnd, CapMax(rnd, v), 31, CapMax(rnd, v) * TWO_31);
  }

  lemma TruncateRange(v: real, bound: int)
    requires 0 < bound && -(bound as real) <= v <= bound as real
    ensures -bound <= Truncate(v) <= bound
    ensures Truncate(v) == bound <==> v == bound as real
    ensures Abs(Truncate(v) as real - v) < 1.0
  {
  }

  /** Encoding to 16 bits fits exactly when the sample is not 1.0, is off by less than one step for samples that are not
      capped, and is the largest number of the sample's sign, or next to it, for those that are. */
  lemma Encode16Range(rnd: real -> real, v: real)
    requires Nearest(rnd) && Representable(v)
    ensures -0x8000 <= Encode16(rnd, v) < 0x8000 <==> v != 1.0
    ensures -1.0 <= v <= 1.0 ==> Abs(Encode16(rnd, v) as real - v * 32768.0) < 1.0
    ensures v > 1.0 ==> Encode16(rnd, v) == 0x7fff
    ensures v < -1.0 ==> Encode16(rnd, v) == -0x7fff
  {
    CapRange(rnd, v);
    ScaleExact(rnd, v);
    hide Nearest, Representable, CapMax, Encode16;
    TruncateRange(CapMax(rnd, v) * 32768.0, 0x8000);
  }

  /** The same for 32 bits, which the 24-bit encoding goes through; capped samples stay 2048 to 4096 from the end. */
  lemma Encode32Range(rnd: real -> real, v: real)
    requires Nearest(rnd) && Representable(v)
    ensures -0x8000_0000 <= Encode32(rnd, v) < 0x8000_0000 <==> v != 1.0
    ensures -1.0 <= v <= 1.0 ==> Abs(Encode32(rnd, v) as real - v * TWO_31) < 1.0
    ensures v > 1.0 ==> 2048 <= 0x8000_0000 - Encode32(rnd, v) <= 4096
    ensures v < -1.0 ==> 2048 <= Encode32(rnd, v) + 0x8000_0000 <= 4096
  {
    CapRange(rnd, v);
    ScaleExact(rnd, v);
    hide Nearest, Representable, CapMax, Encode32;
    TruncateRange(CapMax(rnd, v) * TWO_31, 0x8000_0000);
  }

  lemma Modulo24(u: int)
    ensures Read24Bit(Write24Bit(u)) == u % 0x100_0000
  {
    var h, q := u / 0x100, u / 0x10000;
    TwoShifts(u);
    assert u == h * 0x100 + u % 0x100 && h == q * 0x100 + h % 0x100 && q == q / 0x100 * 0x100 + q % 0x100;
  }

  /** Three bytes hold a 24-bit number faithfully, and read back as its high part. */
  lemma WriteSample24(n: int)
    requires -0x80_0000 <= n < 0x80_0000
    ensures Sample24(Write24Bit(n)) == n * 0x100
  {
    Modulo24(n);
    hide Write24Bit, Read24Bit;
  }

  /** Encoding to 24 bits, where it fits, is the 32-bit encoding without its low byte: read back it is below it by less
      than a step, which is 256. */
  lemma Encode24Range(rnd: real -> real, v: real)
    requires Nearest(rnd) && Representable(v) && v != 1.0
    ensures 0 <= Encode32(rnd, v) - Sample24(Encode24(rnd, v)) < 0x100
  {
    Encode32Range(rnd, v);
    hide Nearest, Representable, Encode32, Sample24, Write24Bit;
    WriteSample24(Encode32(rnd, v) / 0x100);
  }

  // ---------------------------------------------------------------- the 32-bit path

  /** A rounded 32-bit integer is an integer within 64 of it, and so is exact after division by a power of two. */
  lemma Rounded32(rnd: real -> real, s: Int32) returns (r: int)
    requires Nearest(rnd)
    ensures rnd(s as real) == r as real && -64 <= r - s <= 64 && -0x8000_0000 <= r <= 0x8000_0000
    ensures Representable(r as real / TWO_31)
  {
    Powers();
    Near128(rnd, s);
    Bounds32(rnd, s);
    assert Representable(rnd(s as real));
    hide Nearest, Representable, Pow2;
    if -TWO_24 <= s <= TWO_24 {
      r := s;
      Integer(s);
      Dyadic(s, 31);
      Fixes(rnd, s as real);
    } else {
      r := LargeIsInteger(rnd(s as real), 31);
    }
  }

  /** A multiple of 128 is near. */
  lemma Near128(rnd: real -> real, s: Int32)
    requires Nearest(rnd)
    ensures Abs(rnd(s as real) - s as real) <= 64.0
  {
    var k := (s + 64) / 128;
    Multiple128(k);
    NotFurther(rnd, s as real, (k * 128) as real);
    hide Nearest, Representable;
  }

  lemma Multiple128(k: int)
    requires -TWO_24 <= k <= TWO_24
    ensures Representable((k * 128) as real)
  {
    Powers();
    Integer(k);
    hide Pow2;
    assert k as real * 128.0 == (k * 128) as real;
    ScaledUp(k as real, 7);
  }

  lemma NotFurther(rnd: real -> real, x: real, y: real)
    requires Nearest(rnd) && Representable(y)
    ensures Abs(rnd(x) - x) <= Abs(y - x)
  {
  }

  lemma Bounds32(rnd: real -> real, s: Int32)
    requires Nearest(rnd)
    ensures -TWO_31 <= rnd(s as real) <= TWO_31
    ensures s > TWO_24 ==> rnd(s as real) >= TWO_24 as real
    ensures s < -TWO_24 ==> rnd(s as real) <= -(TWO_24 as real)
  {
    Powers();
    Integer(1);
    Integer(-1);
    ScaledUp(1.0, 31);
    ScaledUp(-1.0, 31);
    Integer(TWO_24);
    Integer(-TWO_24);
    hide Pow2, Representable;
    Between(rnd, -TWO_31, s as real, TWO_31);
    if s > TWO_24 {
      Between(rnd, TWO_24 as real, s as real, TWO_31);
    } else if s < -TWO_24 {
      Between(rnd, -TWO_31, s as real, -(TWO_24 as real));
    }
  }

  /** 32 bits: to float and back gives the rounded sample, which is within 64 of the sample and is the sample exactly when
      that has 24 significant bits; it fits unless it was rounded up to 2^31. */
  lemma RoundTrip32(rnd: real -> real, s: Int32)
    requires Nearest(rnd)
    ensures var back := Encode32(rnd, Decode32(rnd, s));
            && back as real == rnd(s as real) && -64 <= back - s <= 64
            && (back == s <==> Representable(s as real))
            && (s < 0x8000_0000 - 64 ==> -0x8000_0000 <= back < 0x8000_0000)
            && (s > 0x8000_0000 - 64 ==> back == 0x8000_0000)
  {
    var r := Rounded32(rnd, s);
    assert Representable(rnd(s as real));
    hide *;
    if Representable(s as real) {
      Fixes(rnd, s as real);
    }
    Decode32Value(rnd, s, r);
    Encode32Value(rnd, r);
    if s > 0x8000_0000 - 64 {
      Gap(rnd, s, r);
    }
  }

  /** Below 2^31 floats are 128 apart. */
  lemma Gap(rnd: real -> real, s: Int32, r: int)
    requires Nearest(rnd) && s > 0x8000_0000 - 64 && rnd(s as real) == r as real && r <= 0x8000_0000
    ensures r == 0x8000_0000
  {
    Powers();
    Integer(1);
    ScaledUp(1.0, 31);
    assert Abs(rnd(s as real) - s as real) <= Abs(TWO_31 - s as real);
    assert Representable(r as real);
    hide Nearest, Pow2;
    var m, e :| -149 <= e && -TWO_24 < m < TWO_24 && r as real == Value(m, e);
    GapValue(r, m, e);
  }

  lemma GapValue(r: int, m: int, e: int)
    requires -TWO_24 < m < TWO_24 && r as real == Value(m, e) && 0x8000_0000 - 128 < r <= 0x8000_0000
    ensures r == 0x8000_0000
  {
    hide Pow2;
    if e <= 7 {
      PowUpTo7(e);
      TimesBelow(m, Pow2(e));
    } else {
      Powers();
      var p := PowInt(e - 8);
      PowAdd(e - 8, 8);
      IntegerTimes(p, 256);
      IntegerTimes(m, p * 256);
      Multiple256(r, m, p);
    }
  }

  lemma PowUpTo7(e: int)
    requires e <= 7
    ensures Pow2(e) <= 128.0
    decreases 7 - e
  {
    if e < 7 {
      PowUpTo7(e + 1);
      PowStep(e);
    } else {
      Powers();
    }
  }

  lemma TimesBelow(m: int, p: real)
    requires -TWO_24 < m < TWO_24 && 0.0 < p <= 128.0
    ensures m as real * p <= TWO_31 - 128.0
  {
    var r := m as real;
    if r > 0.0 {
      assert r * p <= r * 128.0;
    }
  }

  lemma Multiple256(r: int, m: int, p: int)
    requires r == m * (p * 256) && 0x8000_0000 - 128 < r <= 0x8000_0000
    ensures r == 0x8000_0000
  {
    assert r == (m * p) * 256;
  }

  // ---------------------------------------------------------------- the loops over arrays

  method ConvertFromU8ToFloat(rnd: real -> real, n: nat, a: array<Byte>, b: array<real>)
    requires n <= a.Length && n <= b.Length
    modifies b
    ensures forall i :: 0 <= i < b.Length ==> b[i] == if i < n then DecodeU8(rnd, a[i]) else old(b[i])
  {
    for k := 0 to n
      invariant forall i :: 0 <= i < b.Length ==> b[i] == if i < k then DecodeU8(rnd, a[i]) else old(b[i])
    {
      var x: int := a[k];
      b[k] := rnd(rnd((x - 0x80) as real) * (1.0 / 128.0));
    }
  }

  method ConvertFrom16BitToFloat(rnd: real -> real, n: nat, a: array<Int16>, b: array<real>)
    requires n <= a.Length && n <= b.Length
    modifies b
    ensures forall i :: 0 <= i < b.Length ==> b[i] == if i < n then Decode16(rnd, a[i]) else old(b[i])
  {
    for k := 0 to n
      invariant forall i :: 0 <= i < b.Length ==> b[i] == if i < k then Decode16(rnd, a[i]) else old(b[i])
    {
      b[k] := Times(rnd, rnd(a[k] as real), 1.0 / 32768.0);
    }
  }

  /** The three bytes of sample `i`. */
  function Bytes(a: seq<Byte>, i: nat): (Byte, Byte, Byte)
    requires 3 * i + 3 <= |a|
  {
    (a[3 * i], a[3 * i + 1], a[3 * i + 2])
  }

  method ConvertFrom24BitToFloat(rnd: real -> real, n: nat, a: array<Byte>, b: array<real>)
    requires 3 * n <= a.Length && n <= b.Length
    modifies b
    ensures forall i :: 0 <= i < b.Length ==> b[i] == if i < n then Decode24(rnd, Bytes(a[..], i)) else old(b[i])
  {
    var at := 0;
    for k := 0 to n
      invariant at == 3 * k
      invariant forall i :: 0 <= i < b.Length ==>
                  b[i] == if i < k then Decode24(rnd, Bytes(a[..], i)) else old(b[i])
    {
      var s := Signed32(Read24Bit((a[at], a[at + 1], a[at + 2])) * 0x100);
      b[k] := Times(rnd, rnd(s as real), 1.0 / TWO_31);
      at := at + 3;
    }
  }

  method ConvertFrom32BitToFloat(rnd: real -> real, n: nat, a: array<Int32>, b: array<real>)
    requires n <= a.Length && n <= b.Length
    modifies b
    ensures forall i :: 0 <= i < b.Length ==> b[i] == if i < n then Decode32(rnd, a[i]) else old(b[i])
  {
    for k := 0 to n
      invariant forall i :: 0 <= i < b.Length ==> b[i] == if i < k then Decode32(rnd, a[i]) else old(b[i])
    {
      b[k] := Times(rnd, rnd(a[k] as real), 1.0 / TWO_31);
    }
  }

  method ConvertFromFloatToU8(rnd: real -> real, n: nat, a: array<real>, b: array<Byte>)
    requires Nearest(rnd) && n <= a.Length && n <= b.Length
    modifies b
    ensures forall i :: 0 <= i < b.Length ==> b[i] == if i < n then EncodeU8(rnd, a[i]) else old(b[i])
  {
    hide Nearest;
    for k := 0 to n
      invariant forall i :: 0 <= i < b.Length ==> b[i] == if i < k then EncodeU8(rnd, a[i]) else old(b[i])
    {
      EncodeU8Range(rnd, a[k]);
      var v := CapMax(rnd, a[k]);
      b[k] := Truncate(rnd(Times(rnd, v, 127.0) + 128.0));
    }
  }

  /** A cast of a number that does not fit is not defined: what it stores is left open, and by Encode16Range that is so for
      samples of exactly 1.0 and no others. */
  method ConvertFromFloatTo16Bit(rnd: real -> real, n: nat, a: array<real>, b: array<Int16>)
    requires Nearest(rnd) && n <= a.Length && n <= b.Length
    requires forall i :: 0 <= i < n ==> Representable(a[i])
    modifies b
    ensures forall i :: 0 <= i < n && a[i] != 1.0 ==> b[i] == Encode16(rnd, a[i])
    ensures forall i :: n <= i < b.Length ==> b[i] == old(b[i])
  {
    hide Nearest, Representable;
    for k := 0 to n
      invariant forall i :: 0 <= i < k && a[i] != 1.0 ==> b[i] == Encode16(rnd, a[i])
      invariant forall i :: k <= i < b.Length ==> b[i] == old(b[i])
    {
      Encode16Range(rnd, a[k]);
      var v := Truncate(Times(rnd, CapMax(rnd, a[k]), 32768.0));
      if -0x8000 <= v < 0x8000 {
        b[k] := v;
      } else {
        b[k] := *;
      }
    }
  }

  method ConvertFromFloatTo24Bit(rnd: real -> real, n: nat, a: array<real>, b: array<Byte>)
    requires Nearest(rnd) && n <= a.Length && 3 * n <= b.Length
    requires forall i :: 0 <= i < n ==> Representable(a[i])
    modifies b
    ensures forall i :: 0 <= i < n && a[i] != 1.0 ==> Bytes(b[..], i) == Encode24(rnd, a[i])
    ensures forall j :: 3 * n <= j < b.Length ==> b[j] == old(b[j])
  {
    hide Nearest, Representable, Encode24;
    var at := 0;
    for k := 0 to n
      invariant at == 3 * k
      invariant forall i :: 0 <= i < k && a[i] != 1.0 ==> Bytes(b[..], i) == Encode24(rnd, a[i])
      invariant forall j :: at <= j < b.Length ==> b[j] == old(b[j])
    {
      Encode32Range(rnd, a[k]);
      ghost var before := b[..];
      if -0x8000_0000 <= Encode32(rnd, a[k]) < 0x8000_0000 {
        var (b0, b1, b2) := Encode24(rnd, a[k]);
        b[at], b[at + 1], b[at + 2] := b0, b1, b2;
      } else {
        b[at], b[at + 1], b[at + 2] := *, *, *;
      }
      forall i | 0 <= i < k ensures Bytes(b[..], i) == Bytes(before, i) {
      }
      at := at + 3;
    }
  }

  method ConvertFromFloatTo32Bit(rnd: real -> real, n: nat, a: array<real>, b: array<Int32>)
    requires Nearest(rnd) && n <= a.Length && n <= b.Length
    requires forall i :: 0 <= i < n ==> Representable(a[i])
    modifies b
    ensures forall i :: 0 <= i < n && a[i] != 1.0 ==> b[i] == Encode32(rnd, a[i])
    ensures forall i :: n <= i < b.Length ==> b[i] == old(b[i])
  {
    hide Nearest, Representable;
    for k := 0 to n
      invariant forall i :: 0 <= i < k && a[i] != 1.0 ==> b[i] == Encode32(rnd, a[i])
      invariant forall i :: k <= i < b.Length ==> b[i] == old(b[i])
    {
      Encode32Range(rnd, a[k]);
      var v := Truncate(Times(rnd, CapMax(rnd, a[k]), TWO_31));
      if -0x8000_0000 <= v < 0x8000_0000 {
        b[k] := v;
      } else {
        b[k] := *;
      }
    }
  }
}
