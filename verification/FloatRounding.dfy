/**
  Single-precision numbers as reals.  A number has 24 significant bits and an exponent of at least -149; overflow to
  infinity and NaN are not represented.
*/
module FloatRounding {
  const TWO_24: int := 0x1000000

  function Pow2(e: int): (p: real)
    ensures p > 0.0
    decreases if e < 0 then -e else e
  {
    if e == 0 then 1.0 else if e > 0 then 2.0 * Pow2(e - 1) else Pow2(e + 1) / 2.0
  }

  function Value(m: int, e: int): real {
    m as real * Pow2(e)
  }

  ghost predicate Representable(x: real) {
    exists m, e :: -149 <= e && -TWO_24 < m < TWO_24 && x == Value(m, e)
  }

  function Abs(x: real): (r: real)
    ensures r >= 0.0
  {
    if x < 0.0 then -x else x
  }

  /** Rounding to nearest, ties broken either way. */
  ghost predicate Nearest(rnd: real -> real) {
    && (forall x :: Representable(rnd(x)))
    && (forall x, y :: Representable(y) ==> Abs(rnd(x) - x) <= Abs(y - x))
  }

  lemma Fixes(rnd: real -> real, x: real)
    requires Nearest(rnd) && Representable(x)
    ensures rnd(x) == x
  {
    assert Abs(rnd(x) - x) <= Abs(x - x);
  }

  lemma Monotone(rnd: real -> real, x: real, y: real)
    requires Nearest(rnd) && x <= y
    ensures rnd(x) <= rnd(y)
  {
    var a, b := rnd(x), rnd(y);
    assert Representable(a) && Representable(b);
    assert Abs(a - x) <= Abs(b - x) && Abs(b - y) <= Abs(a - y);
  }

  /** A result stays between representable bounds. */
  lemma Between(rnd: real -> real, lo: real, x: real, hi: real)
    requires Nearest(rnd) && Representable(lo) && Representable(hi) && lo <= x <= hi
    ensures lo <= rnd(x) <= hi
  {
    Fixes(rnd, lo);
    Fixes(rnd, hi);
    Monotone(rnd, lo, x);
    Monotone(rnd, x, hi);
  }

  lemma {:induction false} PowAdd(a: int, b: nat)
    ensures Pow2(a + b) == Pow2(a) * Pow2(b)
    decreases b
  {
    if b != 0 {
      PowAdd(a, b - 1);
      PowStep(a + b - 1);
    }
  }

  lemma PowStep(e: int)
    ensures Pow2(e + 1) == 2.0 * Pow2(e)
  {
  }

  lemma Assoc(a: real, b: real, c: real)
    ensures a * (b * c) == a * b * c
  {
  }

  lemma Cancel(x: real, p: real, q: real)
    requires p > 0.0 && q * p == 1.0
    ensures x / p == x * q
  {
    Assoc(x / p, p, q);
    assert x / p * p == x;
  }

  lemma PowNeg(k: int)
    requires 0 <= k
    ensures Pow2(-k) * Pow2(k) == 1.0
  {
    PowAdd(-k, k);
  }

  lemma Scaled(r: real, p: real, q: real, pq: real)
    requires pq == p * q
    ensures r * p * q == r * pq
  {
    Assoc(r, p, q);
  }

  lemma ScaledValue(m: int, e: int, k: nat)
    ensures Value(m, e) * Pow2(k) == Value(m, e + k)
  {
    hide Pow2;
    PowAdd(e, k);
    Scaled(m as real, Pow2(e), Pow2(k), Pow2(e + k));
  }

  /** Scaling up by a power of two is exact. */
  lemma ScaledUp(x: real, k: nat)
    requires Representable(x)
    ensures Representable(x * Pow2(k))
  {
    var m, e :| -149 <= e && -TWO_24 < m < TWO_24 && x == Value(m, e);
    ScaledFrom(x, m, e, k, x * Pow2(k));
  }

  lemma ScaledFrom(x: real, m: int, e: int, k: nat, y: real)
    requires -149 <= e && -TWO_24 < m < TWO_24 && x == Value(m, e) && y == x * Pow2(k)
    ensures Representable(y)
  {
    hide Pow2;
    ScaledValue(m, e, k);
    hide Value;
    assert -149 <= e + k && y == Value(m, e + k);
  }

  lemma HalfUp(half: int, e: int)
    ensures Value(2 * half, e) == Value(half, e + 1)
  {
    PowStep(e);
    var h, p := half as real, Pow2(e);
    hide Pow2;
    assert (2 * half) as real == h * 2.0;
    Assoc(h, 2.0, p);
  }

  lemma Over(x: real, k: int)
    requires 0 <= k
    ensures x / Pow2(k) == x * Pow2(-k)
  {
    PowNeg(k);
    Cancel(x, Pow2(k), Pow2(-k));
  }

  /** An integer of at most 24 significant bits over a power of two is representable. */
  lemma Dyadic(n: int, k: int)
    requires -TWO_24 <= n <= TWO_24 && 0 <= k <= 149
    ensures Representable(n as real / Pow2(k))
  {
    hide Pow2;
    Over(n as real, k);
    if -TWO_24 < n < TWO_24 {
      assert n as real / Pow2(k) == Value(n, -k);
    } else {
      var half := if n > 0 then 0x800000 else -0x800000;
      HalfUp(half, -k);
      assert n as real / Pow2(k) == Value(half, 1 - k);
    }
  }

  lemma Integer(n: int)
    requires -TWO_24 <= n <= TWO_24
    ensures Representable(n as real)
  {
    Dyadic(n, 0);
  }

  // ---------------------------------------------------------------- integers of up to 32 bits

  lemma PowInt(e: nat) returns (p: int)
    ensures p > 0 && Pow2(e) == p as real
  {
    p := 1;
    for i := 0 to e
      invariant p > 0 && Pow2(i) == p as real
    {
      PowStep(i);
      p := p * 2;
    }
  }

  lemma IntegerTimes(m: int, p: int)
    ensures m as real * p as real == (m * p) as real
  {
  }

  /** A number of at least 2^24 has no fraction bits. */
  lemma NoFraction(m: int, e: int)
    requires -TWO_24 < m < TWO_24 && Abs(Value(m, e)) >= TWO_24 as real
    ensures e >= 0
  {
    if e < 0 {
      SmallPower(e);
      SmallValue(m, Pow2(e));
    }
  }

  lemma SmallPower(e: int)
    requires e <= 0
    ensures Pow2(e) <= 1.0
    decreases -e
  {
    if e < 0 {
      SmallPower(e + 1);
    }
  }

  lemma SmallValue(m: int, p: real)
    requires -TWO_24 < m < TWO_24 && 0.0 < p <= 1.0
    ensures -(TWO_24 as real) < m as real * p < TWO_24 as real
  {
    var r := m as real;
    if r >= 0.0 {
      assert r * p <= r * 1.0;
    } else {
      assert (-r) * p <= (-r) * 1.0;
    }
  }

  /** A large number is an integer, and exact also after division by a power of two. */
  lemma LargeIsInteger(x: real, k: int) returns (r: int)
    requires Representable(x) && Abs(x) >= TWO_24 as real && 0 <= k <= 149
    ensures x == r as real && Representable(x / Pow2(k))
  {
    var m, e :| -149 <= e && -TWO_24 < m < TWO_24 && x == Value(m, e);
    NoFraction(m, e);
    var p := PowInt(e);
    r := m * p;
    IntegerTimes(m, p);
    DownScaled(m, e, k);
  }

  lemma DownScaled(m: int, e: int, k: int)
    requires 0 <= e && -TWO_24 < m < TWO_24 && 0 <= k <= 149
    ensures Representable(Value(m, e) / Pow2(k))
  {
    hide Pow2, Value;
    ScaledValue(m, e - k, k);
    Unscaled(Value(m, e - k), Pow2(k), Value(m, e));
  }

  lemma Unscaled(v: real, p: real, x: real)
    requires p > 0.0 && x == v * p
    ensures x / p == v
  {
  }

  /** Multiplying by a power of two is exact. */
  lemma ExactTimes(rnd: real -> real, x: real, k: nat, y: real)
    requires Nearest(rnd) && Representable(x) && y == x * Pow2(k)
    ensures rnd(y) == y && Representable(y)
  {
    hide Pow2, Nearest;
    ScaledUp(x, k);
    Fixes(rnd, y);
  }

  // ---------------------------------------------------------------- there is such a rounding

  lemma HalfFloor(t: real, u: real)
    requires t >= 1.0 && u == t / 2.0
    ensures 0 <= u.Floor < t.Floor
  {
  }

  lemma AtLeastOne(x: real, p: real)
    requires x >= p > 0.0
    ensures x / p >= 1.0
  {
  }

  lemma DoubledDivisor(x: real, p: real)
    requires p > 0.0
    ensures x / (2.0 * p) == x / p / 2.0
  {
    Assoc(x / (2.0 * p), 2.0, p);
    var t := x / (2.0 * p);
    assert t * 2.0 * p == x;
    assert x / p == t * 2.0;
  }

  /** The least exponent from `e` up at which 24 bits are enough. */
  function Exponent(x: real, e: int): (r: int)
    requires x >= 0.0
    ensures r >= e && x < Pow2(r + 24) && (r == e || x >= Pow2(r + 23))
    decreases (x / Pow2(e + 24)).Floor
  {
    if x < Pow2(e + 24) then e
    else
      PowStep(e + 24);
      AtLeastOne(x, Pow2(e + 24));
      DoubledDivisor(x, Pow2(e + 24));
      HalfFloor(x / Pow2(e + 24), x / Pow2(e + 25));
      Exponent(x, e + 1)
  }

  function RoundNearest(x: real): real {
    var e := Exponent(Abs(x), -149);
    Value((x / Pow2(e) + 0.5).Floor, e)
  }

  lemma FloorBounds(t: real, bound: int)
    requires -(bound as real) <= t <= bound as real
    ensures -bound <= (t + 0.5).Floor <= bound
    ensures Abs((t + 0.5).Floor as real - t) <= 0.5
  {
  }

  lemma NearestInteger(t: real, k: int)
    ensures Abs((t + 0.5).Floor as real - t) <= Abs(k as real - t)
  {
    var n := (t + 0.5).Floor;
    assert n as real <= t + 0.5 < n as real + 1.0;
    if k <= n - 1 {
      assert k as real <= n as real - 1.0;
    } else if k >= n + 1 {
      assert k as real >= n as real + 1.0;
    }
  }

  lemma AbsTimes(a: real, p: real)
    requires p > 0.0
    ensures Abs(a * p) == Abs(a) * p
  {
  }

  lemma ScaledAbs(a: real, p: real, c: real)
    requires p > 0.0 && c == a * p
    ensures Abs(c) == Abs(a) * p
  {
  }

  lemma ScaledOrder(a: real, b: real, p: real, c: real, d: real)
    requires p > 0.0 && a <= b && c == a * p && d == b * p
    ensures c <= d
  {
  }

  lemma TimesOrder(a: real, b: real, p: real)
    requires p > 0.0
    ensures a <= b <==> a * p <= b * p
  {
  }

  lemma UnitBounds(x: real, p: real, t: real)
    requires p > 0.0 && t == x / p
    ensures t * p == x
    ensures Abs(x) < p * 16777216.0 ==> Abs(t) <= 16777216.0
    ensures Abs(x) >= p * 8388608.0 <==> Abs(t) >= 8388608.0
  {
    assert t * p == x;
    AbsTimes(t, p);
    hide Abs;
    TimesOrder(Abs(t), 16777216.0, p);
    TimesOrder(8388608.0, Abs(t), p);
  }

  /** In units of the last place, `x` is less than 2^24, and at least 2^23 unless the exponent is the least one. */
  lemma InUnits(x: real)
    ensures var e := Exponent(Abs(x), -149);
            var t := x / Pow2(e);
            && t * Pow2(e) == x && Abs(t) <= TWO_24 as real
            && (e == -149 || Abs(t) >= 8388608.0)
  {
    hide Pow2, Exponent;
    var e := Exponent(Abs(x), -149);
    PowAdd(e, 24);
    PowAdd(e, 23);
    Powers24();
    UnitBounds(x, Pow2(e), x / Pow2(e));
  }

  lemma Powers24()
    ensures Pow2(23) == 8388608.0 && Pow2(24) == 16777216.0
  {
    PowStep(0); PowStep(1); PowStep(2); PowStep(3); PowStep(4); PowStep(5); PowStep(6); PowStep(7); PowStep(8);
    PowStep(9); PowStep(10); PowStep(11); PowStep(12); PowStep(13); PowStep(14); PowStep(15); PowStep(16);
    PowStep(17); PowStep(18); PowStep(19); PowStep(20); PowStep(21); PowStep(22); PowStep(23);
  }

  lemma RoundRepresentable(x: real)
    ensures Representable(RoundNearest(x))
  {
    var e := Exponent(Abs(x), -149);
    InUnits(x);
    var n := (x / Pow2(e) + 0.5).Floor;
    FloorBounds(x / Pow2(e), TWO_24);
    hide Pow2, Exponent, Value;
    if -TWO_24 < n < TWO_24 {
      assert RoundNearest(x) == Value(n, e);
    } else {
      var half := if n > 0 then 0x800000 else -0x800000;
      HalfUp(half, e);
      assert RoundNearest(x) == Value(half, e + 1);
    }
  }

  lemma {:induction false} PowGrows(a: int, b: int)
    requires a <= b
    ensures Pow2(a) <= Pow2(b)
    decreases b - a
  {
    if a < b {
      PowGrows(a, b - 1);
      PowStep(b - 1);
    }
  }

  /** A float with a smaller exponent is at most 2^23 units. */
  lemma Finer(m: int, e': int, e: int)
    requires e' < e && -TWO_24 < m < TWO_24
    ensures Abs(Value(m, e')) <= 8388608.0 * Pow2(e)
  {
    hide Pow2;
    PowGrows(e', e - 1);
    PowStep(e - 1);
    SmallFloat(m as real, Pow2(e'), Pow2(e - 1));
  }

  lemma SmallFloat(m: real, p: real, h: real)
    requires Abs(m) <= 16777216.0 && 0.0 < p <= h
    ensures Abs(m * p) <= 16777216.0 * h
  {
    ScaledAbs(m, p, m * p);
    TimesOrder(Abs(m), 16777216.0, p);
    assert 16777216.0 * p <= 16777216.0 * h;
  }

  lemma Behind(x: real, y: real, bound: real)
    requires Abs(y) <= bound <= Abs(x)
    ensures Abs((if x >= 0.0 then bound else -bound) - x) <= Abs(y - x)
  {
  }

  /** For every float some multiple of the last place is at least as near: itself, or, if it is finer, 2^23 units. */
  lemma MultipleAsNear(x: real, m: int, e': int, p: real) returns (k: int, v: real)
    requires -149 <= e' && -TWO_24 < m < TWO_24 && p == Pow2(Exponent(Abs(x), -149))
    ensures v == k as real * p && Abs(v - x) <= Abs(Value(m, e') - x)
  {
    hide Pow2, Exponent;
    var e := Exponent(Abs(x), -149);
    if e' >= e {
      var q := PowInt(e' - e);
      PowAdd(e, e' - e);
      k := m * q;
      IntegerTimes(m, q);
      Scaled2(m as real, Pow2(e), q as real);
      assert Pow2(e') == Pow2(e) * q as real;
      v := Value(m, e');
    } else {
      InUnits(x);
      UnitBounds(x, p, x / p);
      Finer(m, e', e);
      Behind(x, Value(m, e'), 8388608.0 * p);
      if x >= 0.0 {
        k, v := 0x800000, 8388608.0 * p;
      } else {
        k, v := -0x800000, -(8388608.0 * p);
      }
    }
  }

  lemma Scaled2(r: real, p: real, q: real)
    ensures r * (p * q) == r * q * p
  {
  }

  lemma Distribute(a: real, t: real, p: real)
    ensures (a - t) * p == a * p - t * p
  {
  }

  lemma UnitsAreNearest(x: real, m: int, e': int, p: real, n: int, u: real)
    requires -149 <= e' && -TWO_24 < m < TWO_24
    requires p == Pow2(Exponent(Abs(x), -149)) && n == (x / p + 0.5).Floor && u == n as real * p
    ensures Abs(u - x) <= Abs(Value(m, e') - x)
  {
    hide Pow2, Exponent, Value, Abs;
    InUnits(x);
    var k, v := MultipleAsNear(x, m, e', p);
    NearestInteger(x / p, k);
    Closest(x, p, x / p, n as real, k as real, u, v);
  }

  /** No float is nearer than the multiple of the last place chosen. */
  lemma RoundIsNearest(x: real, m: int, e': int)
    requires -149 <= e' && -TWO_24 < m < TWO_24
    ensures Abs(RoundNearest(x) - x) <= Abs(Value(m, e') - x)
  {
    hide Pow2, Exponent, Abs;
    var e := Exponent(Abs(x), -149);
    UnitsAreNearest(x, m, e', Pow2(e), (x / Pow2(e) + 0.5).Floor, RoundNearest(x));
  }

  lemma ScaledDistance(x: real, p: real, t: real, n: real, u: real)
    requires p > 0.0 && t * p == x && u == n * p
    ensures Abs(u - x) == Abs(n - t) * p
  {
    Distribute(n, t, p);
    ScaledAbs(n - t, p, u - x);
  }

  lemma Closest(x: real, p: real, t: real, n: real, k: real, u: real, v: real)
    requires p > 0.0 && t * p == x && Abs(n - t) <= Abs(k - t) && u == n * p && v == k * p
    ensures Abs(u - x) <= Abs(v - x)
  {
    hide Abs;
    ScaledDistance(x, p, t, n, u);
    ScaledDistance(x, p, t, k, v);
    ScaledOrder(Abs(n - t), Abs(k - t), p, Abs(u - x), Abs(v - x));
  }

  /** Round to nearest exists, so what is proved of every such rounding is not vacuous. */
  lemma NearestExists()
    ensures Nearest(RoundNearest)
  {
    hide RoundNearest, Pow2, Exponent, Value, Abs;
    forall x ensures Representable(RoundNearest(x)) {
      RoundRepresentable(x);
    }
    forall x, y | Representable(y) ensures Abs(RoundNearest(x) - x) <= Abs(y - x) {
      var m, e :| -149 <= e && -TWO_24 < m < TWO_24 && y == Value(m, e);
      RoundIsNearest(x, m, e);
    }
  }
}
