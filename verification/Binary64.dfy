/** Rounding to nearest in the binary64 format, section 4.3.1 of IEEE 754-2019: finite
    values m * 2^e with |m| < 2^53 and -1074 <= e <= 971. */
module Binary64 {

  const TWO53: int := 9007199254740992

  function Pow2(e: int): (p: real)
    ensures p > 0.0
    decreases if e < 0 then -e else e
  {
    if e == 0 then 1.0 else if e > 0 then 2.0 * Pow2(e - 1) else Pow2(e + 1) / 2.0
  }

  ghost predicate Spelled(y: real, m: int, e: int) {
    -TWO53 < m < TWO53 && -1074 <= e <= 971 && y == m as real * Pow2(e)
  }

  ghost predicate Representable(y: real) {
    exists m, e :: Spelled(y, m, e)
  }

  function Distance(x: real, y: real): real {
    if x <= y then y - x else x - y
  }

  /** y is a nearest representable value; a tie may go either way. */
  ghost predicate RoundsTo(x: real, y: real) {
    Representable(y) && forall z | Representable(z) :: Distance(x, y) <= Distance(x, z)
  }

  /** `fl` rounds the exact results of operations to nearest, at least up to 2^100. */
  ghost predicate Rounding(fl: real -> real) {
    forall x | 0.0 <= x <= Pow2(100) :: RoundsTo(x, fl(x))
  }

  lemma Double(e: int)
    ensures Pow2(e + 1) == 2.0 * Pow2(e)
  {
  }

  function IntPow2(n: nat): nat {
    if n == 0 then 1 else 2 * IntPow2(n - 1)
  }

  lemma Twice(n: nat, x: real)
    ensures (2 * n) as real * x == 2.0 * (n as real * x)
  {
    assert (2 * n) as real == 2.0 * n as real;
  }

  lemma {:induction false} Shift(e: int, n: nat)
    ensures Pow2(e + n) == IntPow2(n) as real * Pow2(e)
  {
    if n > 0 {
      Shift(e, n - 1);
      Double(e + n - 1);
      Twice(IntPow2(n - 1), Pow2(e));
    }
  }

  lemma {:induction false} ShiftInt(m: nat, n: nat)
    ensures IntPow2(m + n) == IntPow2(m) * IntPow2(n)
  {
    if n > 0 {
      ShiftInt(m, n - 1);
    }
  }

  lemma Literals()
    ensures IntPow2(52) == TWO53 / 2 && IntPow2(53) == TWO53 && IntPow2(100) >= TWO53
  {
    assert IntPow2(13) == 8192;
    ShiftInt(13, 13);
    ShiftInt(26, 26);
    ShiftInt(52, 1);
    ShiftInt(53, 47);
    IntPow2Positive(47);
  }

  lemma {:induction false} IntPow2Positive(n: nat)
    ensures IntPow2(n) >= 1
  {
    if n > 0 {
      IntPow2Positive(n - 1);
    }
  }

  /** The binade of x. */
  lemma {:induction false} Binade(x: real, lo: int, hi: int) returns (e: int)
    requires lo < hi && Pow2(lo) <= x < Pow2(hi)
    ensures lo <= e < hi && Pow2(e) <= x < Pow2(e + 1)
    decreases hi - lo
  {
    if x < Pow2(lo + 1) {
      e := lo;
    } else {
      e := Binade(x, lo + 1, hi);
    }
  }

  /** A whole multiple of 2^e with at most 53 bits is representable, 2^53 itself included. */
  lemma MultipleRepresentable(z: real, k: int, e: int)
    requires 0 <= k <= TWO53 && -1074 <= e <= 970 && z == k as real * Pow2(e)
    ensures Representable(z)
  {
    if k < TWO53 {
      assert Spelled(z, k, e);
    } else {
      Double(e);
      assert k as real == 9007199254740992.0 && (TWO53 / 2) as real == 4503599627370496.0;
      assert Spelled(z, TWO53 / 2, e + 1);
    }
  }

  /** The multiple of a positive unit nearest to x. */
  lemma NearestMultiple(x: real, unit: real) returns (k: int, z: real)
    requires unit > 0.0
    ensures z == k as real * unit && Distance(x, z) <= unit / 2.0
  {
    var q := x / unit;
    assert q * unit == x;
    k := (q + 0.5).Floor;
    assert -0.5 <= q - k as real <= 0.5;
    Scale(q - k as real, unit);
    assert (q - k as real) * unit == x - k as real * unit;
    z := k as real * unit;
  }

  lemma Scale(d: real, unit: real)
    requires unit > 0.0 && -0.5 <= d <= 0.5
    ensures -(unit / 2.0) <= d * unit <= unit / 2.0
  {
    assert (0.5 - d) * unit >= 0.0;
    assert (d + 0.5) * unit >= 0.0;
  }

  /** Round to nearest has relative error at most 2^-53 on normal values. */
  lemma RelativeError(x: real, y: real, lo: int, hi: int)
    requires RoundsTo(x, y) && lo < hi && Pow2(lo) <= x < Pow2(hi)
    requires -1022 <= lo && hi <= 1022
    ensures Distance(x, y) <= x / TWO53 as real
  {
    var b := Binade(x, lo, hi);
    var z := Nearby(x, b);
    Closest(x, y, z);
    UnitBounds(x, b);
  }

  ghost predicate Multiple(w: real, j: int, u: int) {
    w == j as real * Pow2(u)
  }

  /** A multiple of 2^u near x, for a positive x in reach of 53 bits. */
  lemma NearMultiple(x: real, u: int) returns (k: int, y: real)
    requires 0.0 < x < TWO53 as real * Pow2(u) && -1074 <= u <= 970
    ensures Multiple(y, k, u) && Representable(y) && Distance(x, y) <= Pow2(u) / 2.0
  {
    k, y := NearestMultiple(x, Pow2(u));
    MultipleBounds(x, Pow2(u), k, y);
    MultipleRepresentable(y, k, u);
  }

  /** A representable value within half a unit of x. */
  lemma Nearby(x: real, b: int) returns (z: real)
    requires Pow2(b) <= x < Pow2(b + 1) && -1022 <= b < 1022
    ensures Representable(z) && Distance(x, z) <= Pow2(b - 52) / 2.0
  {
    UnitBounds(x, b);
    var k;
    k, z := NearMultiple(x, b - 52);
  }

  lemma Closest(x: real, y: real, z: real)
    requires RoundsTo(x, y) && Representable(z)
    ensures Distance(x, y) <= Distance(x, z)
  {
  }

  lemma UnitBounds(x: real, b: int)
    requires Pow2(b) <= x < Pow2(b + 1)
    ensures Pow2(b - 52) / 2.0 <= x / TWO53 as real && x < TWO53 as real * Pow2(b - 52)
  {
    Literals();
    Shift(b - 52, 52);
    Shift(b - 52, 53);
  }

  lemma MultipleBounds(x: real, unit: real, k: int, z: real)
    requires unit > 0.0 && 0.0 < x < TWO53 as real * unit
    requires z == k as real * unit && Distance(x, z) <= unit / 2.0
    ensures 0 <= k <= TWO53
  {
    if k < 0 {
      NegativeMultiple(k, unit, z);
    } else if k > TWO53 {
      Multiples(TWO53 + 1, k, unit);
    }
  }

  lemma NegativeMultiple(k: int, unit: real, z: real)
    requires unit > 0.0 && k < 0 && z == k as real * unit
    ensures z <= -unit
  {
    assert k as real + 1.0 <= 0.0;
    assert (k as real + 1.0) * unit <= 0.0;
    assert (k as real + 1.0) * unit == k as real * unit + unit;
  }

  lemma Multiples(a: int, b: int, unit: real)
    requires unit > 0.0 && a <= b
    ensures a as real * unit <= b as real * unit
  {
    assert (b as real - a as real) * unit >= 0.0;
  }

  /** Below 2^52 the result is within one half of x. */
  lemma AbsoluteError(x: real, y: real)
    requires RoundsTo(x, y) && 0.0 <= x <= (TWO53 / 2) as real
    ensures Distance(x, y) <= 0.5
  {
    var k := (x + 0.5).Floor;
    MultipleRepresentable(k as real, k, 0);
  }

  // ---------------------------------------------------------------- a nearest value exists

  lemma NextMultiple(j: int, next: int, unit: real)
    requires next == j + 1
    ensures next as real * unit == j as real * unit + unit
  {
    assert next as real == j as real + 1.0;
  }

  lemma Apart(a: int, b: int, unit: real, v: real, w: real)
    requires unit > 0.0 && a < b && v == a as real * unit && w == b as real * unit
    ensures v + unit <= w
  {
    var next := a + 1;
    Multiples(next, b, unit);
    NextMultiple(a, next, unit);
  }

  lemma NearestByUnit(x: real, unit: real, k: int, z: real, j: int, w: real)
    requires unit > 0.0 && z == k as real * unit && w == j as real * unit && Distance(x, z) <= unit / 2.0
    ensures Distance(x, z) <= Distance(x, w)
  {
    if j < k {
      Apart(j, k, unit, w, z);
    } else if j > k {
      Apart(k, j, unit, z, w);
    }
  }

  /** The multiple within half a unit of x is the nearest of all multiples. */
  lemma NearestOfMultiples(x: real, u: int, k: int, z: real, j: int, w: real)
    requires Multiple(z, k, u) && Multiple(w, j, u) && Distance(x, z) <= Pow2(u) / 2.0
    ensures Distance(x, z) <= Distance(x, w)
  {
    NearestByUnit(x, Pow2(u), k, z, j, w);
  }

  lemma Halve(m: int, p: real, q: real)
    requires p == 2.0 * q
    ensures m as real * p == (2 * m) as real * q
  {
    assert (2 * m) as real == 2.0 * m as real;
  }

  lemma HalfUnit(w: real, m: int, e: int)
    requires Multiple(w, m, e)
    ensures Multiple(w, 2 * m, e - 1)
  {
    Double(e - 1);
    Halve(m, Pow2(e), Pow2(e - 1));
  }

  /** A whole multiple of 2^e is one of every smaller power. */
  lemma {:induction false} AsMultiple(w: real, m: int, e: int, u: int) returns (j: int)
    requires Multiple(w, m, e) && e >= u
    ensures Multiple(w, j, u)
    decreases e - u
  {
    if e == u {
      j := m;
    } else {
      HalfUnit(w, m, e);
      j := AsMultiple(w, 2 * m, e - 1, u);
    }
  }

  lemma SpelledIsMultiple(w: real, m: int, e: int)
    requires Spelled(w, m, e)
    ensures Multiple(w, m, e)
  {
  }

  lemma Ordered(v: real, m: int, w: real, n: int, u: int)
    requires Multiple(v, m, u) && Multiple(w, n, u) && m < n
    ensures v < w
  {
    Apart(m, n, Pow2(u), v, w);
  }

  lemma TopOfUnit(b: int)
    ensures Multiple(Pow2(b), TWO53, b - 53)
  {
    Literals();
    Shift(b - 53, 53);
  }

  lemma DoubleUnit(w: real, m: int, e: int)
    requires Multiple(w, m, e)
    ensures Multiple(w + w, m, e + 1)
  {
    Double(e);
  }

  lemma BelowTop(w: real, m: int, b: int)
    requires Multiple(w, m, b - 53) && m < TWO53
    ensures w < Pow2(b)
  {
    TopOfUnit(b);
    Ordered(w, m, Pow2(b), TWO53, b - 53);
  }

  /** A value spelled with a smaller exponent than those of the binade of 2^b lies below it. */
  lemma {:induction false} BelowBinade(w: real, m: int, e: int, b: int)
    requires Multiple(w, m, e) && m < TWO53 && e < b - 52
    ensures w < Pow2(b)
    decreases b - e
  {
    if e == b - 53 {
      BelowTop(w, m, b);
    } else if w > 0.0 {
      DoubleUnit(w, m, e);
      BelowBinade(w + w, m, e + 1, b);
    }
  }

  lemma PowerIsMultiple(b: int)
    ensures Multiple(Pow2(b), 1, b)
  {
  }

  lemma NormalCase(x: real, b: int, k: int, y: real, w: real)
    requires Pow2(b) <= x && Multiple(y, k, b - 52) && Distance(x, y) <= Pow2(b - 52) / 2.0
    requires Representable(w)
    ensures Distance(x, y) <= Distance(x, w)
  {
    var m, e :| Spelled(w, m, e);
    SpelledIsMultiple(w, m, e);
    if e >= b - 52 {
      var j := AsMultiple(w, m, e, b - 52);
      NearestOfMultiples(x, b - 52, k, y, j, w);
    } else {
      BelowBinade(w, m, e, b);
      PowerIsMultiple(b);
      var j := AsMultiple(Pow2(b), 1, b, b - 52);
      NearestOfMultiples(x, b - 52, k, y, j, Pow2(b));
    }
  }

  lemma NearestNormal(x: real, b: int) returns (y: real)
    requires Pow2(b) <= x < Pow2(b + 1) && -1022 <= b < 1022
    ensures RoundsTo(x, y)
  {
    UnitBounds(x, b);
    var k;
    k, y := NearMultiple(x, b - 52);
    forall w | Representable(w)
      ensures Distance(x, y) <= Distance(x, w)
    {
      NormalCase(x, b, k, y, w);
    }
  }

  lemma SmallCase(x: real, k: int, y: real, w: real, u: int)
    requires u == -1074 && Multiple(y, k, u) && Distance(x, y) <= Pow2(u) / 2.0 && Representable(w)
    ensures Distance(x, y) <= Distance(x, w)
  {
    var m, e :| Spelled(w, m, e);
    SpelledIsMultiple(w, m, e);
    var j := AsMultiple(w, m, e, u);
    NearestOfMultiples(x, u, k, y, j, w);
  }

  lemma SmallRange(x: real, u: int)
    requires x < Pow2(u + 52)
    ensures x < TWO53 as real * Pow2(u)
  {
    Literals();
    Shift(u, 52);
  }

  /** Below the normal range the unit is 2^u, the smallest there is. */
  lemma NearestSmall(x: real, u: int) returns (y: real)
    requires u == -1074 && 0.0 < x < Pow2(u + 52)
    ensures RoundsTo(x, y)
  {
    SmallRange(x, u);
    var k;
    k, y := NearMultiple(x, u);
    forall w | Representable(w)
      ensures Distance(x, y) <= Distance(x, w)
    {
      SmallCase(x, k, y, w, u);
    }
  }

  /** Every real from 0 to below 2^1022 has a nearest representable value. */
  lemma NearestExists(x: real) returns (y: real)
    requires 0.0 <= x < Pow2(1022)
    ensures RoundsTo(x, y)
  {
    if x == 0.0 {
      y := 0.0;
      assert Spelled(y, 0, 0);
    } else if x < Pow2(-1022) {
      y := NearestSmall(x, -1074);
    } else {
      var b := Binade(x, -1022, 1022);
      y := NearestNormal(x, b);
    }
  }

  lemma {:induction false} PowersGrow(a: int, b: int)
    requires a <= b
    ensures Pow2(a) <= Pow2(b)
    decreases b - a
  {
    if a < b {
      PowersGrow(a, b - 1);
      Double(b - 1);
    }
  }

  ghost function Nearest(x: real): (y: real)
    ensures 0.0 <= x <= Pow2(100) ==> RoundsTo(x, y)
  {
    if 0.0 <= x <= Pow2(100) then
      assert exists y :: RoundsTo(x, y) by {
        PowersGrow(100, 1021);
        Double(1021);
        var y := NearestExists(x);
      }
      var y :| RoundsTo(x, y);
      y
    else 0.0
  }

  /** There is a rounding: what is assumed of the machine can be had. */
  lemma RoundingExists() returns (fl: real -> real)
    ensures Rounding(fl)
  {
    fl := x => Nearest(x);
  }
}
