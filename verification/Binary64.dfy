/** Rounding to binary64: to nearest, ties to even (section 4.3.1 of IEEE 754-2019), without a bound on
    the exponent.  Every number that bucketing computes lies between 2^-60 and 2^61, where the bounds on
    the exponent play no part. */
module Binary64 {

  const TWO_52: real := 4503599627370496.0
  const TWO_53: real := 9007199254740992.0

  function RoundHalfEven(x: real): int {
    var f := x.Floor;
    var r := x - f as real;
    if r < 0.5 || (r == 0.5 && f % 2 == 0) then f else f + 1
  }

  /** Scales `x` by powers of two until its significand has 53 bits before the point, and rounds there. */
  function Round(x: real): (y: real)
    requires x >= 0.0
    decreases if x == 0.0 || TWO_52 <= x < TWO_53 then 0 else 1,
              if x == 0.0 then 0 else if x < TWO_52 then (TWO_53 / x).Floor else x.Floor
    ensures y >= 0.0
  {
    if x == 0.0 then 0.0
    else if x < TWO_52 then
      HalvingDecreases(TWO_53 / x);
      assert TWO_53 / (2.0 * x) == TWO_53 / x / 2.0;
      Round(2.0 * x) / 2.0
    else if x < TWO_53 then RoundHalfEven(x) as real
    else
      HalvingDecreases(x);
      2.0 * Round(x / 2.0)
  }

  ghost predicate IsFloat(x: real) {
    x >= 0.0 && Round(x) == x
  }

  /** Conversion of a number to binary64, and the rounding of one operation. */
  function Float(x: real): real {
    if x >= 0.0 then Round(x) else -Round(-x)
  }

  lemma HalvingDecreases(x: real)
    requires x >= 2.0
    ensures (x / 2.0).Floor < x.Floor
  {
  }

  lemma RoundDoubles(x: real)
    requires x >= 0.0
    ensures Round(2.0 * x) == 2.0 * Round(x)
  {
    assert 2.0 * x / 2.0 == x;
  }

  /** How many halvings or doublings `Round` makes. */
  ghost function Steps(x: real): nat
    requires x >= 0.0
    decreases if x == 0.0 || TWO_52 <= x < TWO_53 then 0 else 1,
              if x == 0.0 then 0 else if x < TWO_52 then (TWO_53 / x).Floor else x.Floor
  {
    if x == 0.0 || TWO_52 <= x < TWO_53 then 0
    else if x < TWO_52 then
      HalvingDecreases(TWO_53 / x);
      assert TWO_53 / (2.0 * x) == TWO_53 / x / 2.0;
      1 + Steps(2.0 * x)
    else
      HalvingDecreases(x);
      1 + Steps(x / 2.0)
  }

  /** Rounding keeps to its own side of every binade boundary, and of zero. */
  lemma {:induction false} RoundBounds(x: real)
    requires x >= 0.0
    ensures x <= TWO_53 ==> Round(x) <= TWO_53
    ensures x >= TWO_53 ==> Round(x) >= TWO_53
    decreases Steps(x)
  {
    if x > 0.0 {
      if x < TWO_52 {
        RoundBounds(2.0 * x);
      } else if x >= 2.0 * TWO_53 {
        RoundBounds(x / 2.0);
      }
    }
  }

  lemma HalfEvenMonotone(x: real, y: real)
    requires x <= y
    ensures RoundHalfEven(x) <= RoundHalfEven(y)
  {
  }

  /** Between 2^52 and 2^53 rounding is to an integer. */
  lemma RoundToInteger(x: real)
    requires TWO_52 <= x < TWO_53
    ensures Round(x) == RoundHalfEven(x) as real >= TWO_52
  {
  }

  lemma RoundZero()
    ensures Round(0.0) == 0.0
  {
  }

  lemma {:induction false} RoundMonotone(x: real, y: real)
    requires 0.0 <= x <= y
    ensures Round(x) <= Round(y)
    decreases Steps(y)
  {
    hide Round, RoundHalfEven;
    if y == 0.0 {
      RoundZero();
    } else if y < TWO_52 {
      RoundMonotone(2.0 * x, 2.0 * y);
      RoundDoubles(x);
      RoundDoubles(y);
    } else if y >= TWO_53 {
      RoundMonotone(x / 2.0, y / 2.0);
      RoundDoubles(x / 2.0);
      RoundDoubles(y / 2.0);
    } else if x < TWO_52 {
      RoundToInteger(y);
      RoundBounds(2.0 * x);
      RoundDoubles(x);
    } else {
      RoundToInteger(x);
      RoundToInteger(y);
      HalfEvenMonotone(x, y);
    }
  }

  lemma IntegerIsFloat(m: int)
    requires TWO_52 <= m as real <= TWO_53
    ensures IsFloat(m as real)
  {
    if m as real == TWO_53 {
      RoundDoubles(TWO_52);
      RoundToInteger(TWO_52);
    } else {
      RoundToInteger(m as real);
    }
    hide Round;
  }

  lemma {:induction false} RoundIdempotent(x: real)
    requires x >= 0.0
    ensures IsFloat(Round(x))
    decreases Steps(x)
  {
    hide Round, RoundHalfEven;
    if x == 0.0 {
      RoundZero();
    } else if x < TWO_52 {
      RoundIdempotent(2.0 * x);
      RoundDoubles(x);
      RoundDoubles(Round(x));
    } else if x >= TWO_53 {
      RoundIdempotent(x / 2.0);
      RoundDoubles(x / 2.0);
      RoundDoubles(Round(x / 2.0));
    } else {
      RoundToInteger(x);
      RoundBounds(x);
      IntegerIsFloat(RoundHalfEven(x));
    }
  }

  lemma HalfEvenNearest(x: real, z: int)
    ensures Abs(RoundHalfEven(x) as real - x) <= Abs(z as real - x)
  {
    var f := x.Floor;
    assert f as real <= x < f as real + 1.0;
    if z <= f {
      assert z as real <= f as real;
    } else {
      assert z as real >= (f + 1) as real == f as real + 1.0;
    }
  }

  function Abs(x: real): real {
    if x < 0.0 then -x else x
  }

  lemma IntegralSignificand(y: real)
    requires TWO_52 <= y < TWO_53 && IsFloat(y)
    ensures y == y.Floor as real
  {
  }

  /** No binary64 number is nearer. */
  lemma {:induction false} RoundNearest(x: real, y: real)
    requires x >= 0.0 && IsFloat(y)
    ensures Abs(Round(x) - x) <= Abs(y - x)
    decreases Steps(x)
  {
    if x > 0.0 {
      if x < TWO_52 {
        RoundDoubles(y);
        RoundNearest(2.0 * x, 2.0 * y);
      } else if x >= TWO_53 {
        RoundDoubles(y / 2.0);
        RoundNearest(x / 2.0, y / 2.0);
      } else if y < TWO_52 {
        HalfEvenNearest(x, TWO_52.Floor);
      } else if y < TWO_53 {
        IntegralSignificand(y);
        HalfEvenNearest(x, y.Floor);
      } else {
        HalfEvenNearest(x, TWO_53.Floor);
      }
    }
  }

  /** The significand, scaled to 53 bits, is even. */
  ghost predicate EvenSignificand(y: real)
    requires y >= 0.0
    decreases Steps(y)
  {
    if y == 0.0 then true
    else if y < TWO_52 then EvenSignificand(2.0 * y)
    else if y < TWO_53 then y.Floor % 2 == 0
    else EvenSignificand(y / 2.0)
  }

  lemma EvenDoubles(y: real)
    requires y >= 0.0
    ensures EvenSignificand(2.0 * y) == EvenSignificand(y)
  {
    assert 2.0 * y / 2.0 == y;
  }

  lemma EvenInteger(m: int)
    requires TWO_52 <= m as real <= TWO_53 && m % 2 == 0
    ensures EvenSignificand(m as real)
  {
    if m as real == TWO_53 {
      EvenDoubles(TWO_52);
    }
  }

  lemma HalfEvenTie(x: real, z: int)
    requires z != RoundHalfEven(x) && Abs(z as real - x) == Abs(RoundHalfEven(x) as real - x)
    ensures x - x.Floor as real == 0.5
  {
    var f := x.Floor;
    assert z <= f ==> z as real <= f as real;
    assert z >= f + 1 ==> z as real >= f as real + 1.0;
    assert z < f ==> z as real <= f as real - 1.0;
    assert z > f + 1 ==> z as real >= f as real + 2.0;
  }

  lemma HalfwayIsEven(x: real)
    requires x - x.Floor as real == 0.5
    ensures RoundHalfEven(x) % 2 == 0
  {
  }

  /** Between 2^52 and 2^53 a second number can be as near only halfway between integers. */
  lemma TieIsHalfway(x: real, y: real)
    requires TWO_52 <= x < TWO_53 && IsFloat(y) && y != Round(x) && Abs(y - x) == Abs(Round(x) - x)
    ensures x - x.Floor as real == 0.5
  {
    hide Round, RoundHalfEven;
    RoundToInteger(x);
    HalfEvenNearest(x, TWO_52.Floor);
    HalfEvenNearest(x, TWO_53.Floor);
    if TWO_52 <= y < TWO_53 {
      IntegralSignificand(y);
      HalfEvenTie(x, y.Floor);
    } else if y == TWO_53 {
      HalfEvenTie(x, TWO_53.Floor);
    }
  }

  /** Of two numbers that are equally near, rounding takes the one with the even significand. */
  lemma {:induction false} RoundTieToEven(x: real, y: real)
    requires x >= 0.0 && IsFloat(y) && y != Round(x) && Abs(y - x) == Abs(Round(x) - x)
    ensures EvenSignificand(Round(x))
    decreases Steps(x)
  {
    hide Round, RoundHalfEven, EvenSignificand;
    if x == 0.0 {
      RoundZero();
    } else if x < TWO_52 {
      RoundDoubles(x);
      RoundDoubles(y);
      RoundTieToEven(2.0 * x, 2.0 * y);
      EvenDoubles(Round(x));
    } else if x >= TWO_53 {
      RoundDoubles(x / 2.0);
      RoundDoubles(y / 2.0);
      RoundTieToEven(x / 2.0, y / 2.0);
      EvenDoubles(Round(x / 2.0));
    } else {
      TieIsHalfway(x, y);
      HalfwayIsEven(x);
      RoundToInteger(x);
      RoundBounds(x);
      EvenInteger(RoundHalfEven(x));
    }
  }

  // ---- Scaling by constants, and the size of the error ----

  lemma RoundTimes16(x: real)
    requires x >= 0.0
    ensures Round(16.0 * x) == 16.0 * Round(x)
  {
    RoundDoubles(x);
    RoundDoubles(2.0 * x);
    RoundDoubles(4.0 * x);
    RoundDoubles(8.0 * x);
  }

  lemma RoundTimes2To16(x: real)
    requires x >= 0.0
    ensures Round(65536.0 * x) == 65536.0 * Round(x)
  {
    RoundTimes16(x);
    RoundTimes16(16.0 * x);
    RoundTimes16(256.0 * x);
    RoundTimes16(4096.0 * x);
  }

  lemma RoundTimes2To52(x: real)
    requires x >= 0.0
    ensures Round(TWO_52 * x) == TWO_52 * Round(x)
  {
    RoundTimes16(x);
    RoundTimes2To16(16.0 * x);
    RoundTimes2To16(16.0 * 65536.0 * x);
    RoundTimes2To16(16.0 * 65536.0 * 65536.0 * x);
  }

  lemma {:induction false} IntegerError(x: real)
    requires 0.0 <= x <= TWO_53
    ensures Abs(Round(x) - x) <= 0.5
    decreases Steps(x)
  {
    if 0.0 < x < TWO_52 {
      IntegerError(2.0 * x);
      RoundDoubles(x);
    } else if x == TWO_53 {
      RoundDoubles(TWO_52);
    }
  }

  /** The rounding error is at most 2^-53 up to 2, and at most 2^-54 up to 1. */
  lemma RoundError(x: real)
    requires 0.0 <= x <= 2.0
    ensures Abs(Round(x) - x) <= 1.0 / TWO_53
    ensures x <= 1.0 ==> Abs(Round(x) - x) <= 0.5 / TWO_53
  {
    RoundTimes2To52(x);
    IntegerError(TWO_52 * x);
    if x <= 1.0 {
      RoundDoubles(TWO_52 * x);
      IntegerError(TWO_53 * x);
    }
  }

  // ---- Numbers of either sign ----

  /** A binary64 number or the negative of one. */
  ghost predicate IsSignedFloat(y: real) {
    IsFloat(Abs(y))
  }

  /** No signed binary64 number is nearer to a number than what it is converted to, which is one. */
  lemma FloatNearest(x: real, y: real)
    requires IsSignedFloat(y)
    ensures IsSignedFloat(Float(x)) && Abs(Float(x) - x) <= Abs(y - x)
  {
    hide Round;
    var a := Abs(x);
    RoundIdempotent(a);
    RoundNearest(a, Abs(y));
    if x != 0.0 && (x > 0.0) != (y > 0.0) {
      RoundZero();
      RoundNearest(a, 0.0);
    }
  }

  lemma FloatMonotone(x: real, y: real)
    requires x <= y
    ensures Float(x) <= Float(y)
  {
    hide Round;
    if x >= 0.0 {
      RoundMonotone(x, y);
    } else if y < 0.0 {
      RoundMonotone(-y, -x);
    }
  }

  lemma {:induction false} IntegerIsExact(x: real, n: nat)
    requires x == n as real && x <= TWO_53
    ensures Round(x) == x
    decreases Steps(x)
  {
    if x == TWO_53 {
      RoundDoubles(TWO_52);
      RoundToInteger(TWO_52);
    } else if 0.0 < x < TWO_52 {
      IntegerIsExact(2.0 * x, 2 * n);
    }
  }

  /** Integers up to 2^53 are binary64 numbers, in either sign. */
  lemma IntegerStays(n: int)
    requires -0x20_0000_0000_0000 <= n <= 0x20_0000_0000_0000
    ensures Float(n as real) == n as real
  {
    if n >= 0 {
      IntegerIsExact(n as real, n);
    } else {
      IntegerIsExact(-(n as real), -n);
    }
    hide Round;
  }

  // ---- The largest exponent ----

  const TWO_64: real := 18446744073709551616.0
  const TWO_256: real := TWO_64 * TWO_64 * TWO_64 * TWO_64
  const TWO_1024: real := TWO_256 * TWO_256 * TWO_256 * TWO_256

  lemma RoundTimes2To64(x: real)
    requires x >= 0.0
    ensures Round(TWO_64 * x) == TWO_64 * Round(x)
  {
    RoundTimes2To16(x);
    RoundTimes2To16(65536.0 * x);
    RoundTimes2To16(65536.0 * 65536.0 * x);
    RoundTimes2To16(65536.0 * 65536.0 * 65536.0 * x);
  }

  lemma TimesFour(x: real, k: real)
    ensures k * (k * (k * (k * x))) == (k * k * k * k) * x
  {
  }

  lemma RoundTimes2To256(x: real)
    requires x >= 0.0
    ensures Round(TWO_256 * x) == TWO_256 * Round(x)
  {
    hide Round;
    TimesFour(x, TWO_64);
    TimesFour(Round(x), TWO_64);
    RoundTimes2To64(x);
    RoundTimes2To64(TWO_64 * x);
    RoundTimes2To64(TWO_64 * (TWO_64 * x));
    RoundTimes2To64(TWO_64 * (TWO_64 * (TWO_64 * x)));
  }

  lemma RoundTimes2To1024(x: real)
    requires x >= 0.0
    ensures Round(TWO_1024 * x) == TWO_1024 * Round(x)
  {
    hide Round;
    TimesFour(x, TWO_256);
    TimesFour(Round(x), TWO_256);
    RoundTimes2To256(x);
    RoundTimes2To256(TWO_256 * x);
    RoundTimes2To256(TWO_256 * (TWO_256 * x));
    RoundTimes2To256(TWO_256 * (TWO_256 * (TWO_256 * x)));
  }

  /** Rounding reaches 2^53 from half a unit below it. */
  lemma ReachesTop(y: real)
    requires y >= 0.0
    ensures Round(y) >= TWO_53 <==> y >= TWO_53 - 0.5
  {
    var top := TWO_53 - 0.5;
    if y >= TWO_53 {
      RoundBounds(y);
    } else if y >= top {
      RoundToInteger(y);
    } else if y >= TWO_52 {
      RoundToInteger(y);
      assert RoundHalfEven(y) as real < TWO_53;
    } else {
      RoundBounds(2.0 * y);
      RoundDoubles(y);
    }
    hide Round;
  }

  /** Rounding reaches 2^1024 from half a unit in the last place below it: from (1 - 2^-54) * 2^1024. */
  lemma OverflowsIff(x: real)
    requires x >= 0.0
    ensures Round(x) >= TWO_1024 <==> x >= (1.0 - 0.5 / TWO_53) * TWO_1024
  {
    hide Round;
    var z := x / TWO_1024;
    OverflowScales(x, z, Round(z), TWO_1024);
    RoundTimes2To1024(z);
    RoundTimes2To53(z);
    ReachesTop(TWO_53 * z);
  }

  lemma RoundTimes2To53(x: real)
    requires x >= 0.0
    ensures Round(TWO_53 * x) == TWO_53 * Round(x)
  {
    hide Round;
    RoundTimes2To52(x);
    RoundDoubles(TWO_52 * x);
  }

  lemma OverflowScales(x: real, z: real, r: real, limit: real)
    requires limit > 0.0 && z == x / limit && x >= 0.0
    ensures z >= 0.0 && limit * z == x
    ensures TWO_53 * z >= TWO_53 - 0.5 <==> x >= (1.0 - 0.5 / TWO_53) * limit
    ensures TWO_53 * r >= TWO_53 <==> limit * r >= limit
  {
    assert limit * z == x;
    TimesKeepsOrder(limit, z, 1.0 - 0.5 / TWO_53);
    TimesKeepsOrder(limit, r, 1.0);
  }

  lemma TimesKeepsOrder(k: real, a: real, b: real)
    requires k > 0.0
    ensures a >= b <==> k * a >= k * b
  {
    if a >= b {
      assert k * (a - b) >= 0.0;
    } else {
      assert k * (b - a) > 0.0;
    }
  }
}
