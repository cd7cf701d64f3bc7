/** How the two implementations of bucketing relate to each other and to exact arithmetic. */
module BucketAgreement {
  import opened Values
  import opened Binary64
  import opened Bucketing

  // ---- The two buckets ----

  /** The distance between neighbouring binary64 numbers around an integer below 2^60. */
  function Spacing(n: nat): (u: nat)
    ensures u > 0
  {
    if n < 0x20_0000_0000_0000 then 1 else 2 * Spacing(n / 2)
  }

  /** The prefix lies halfway between two binary64 numbers, and the lower one has the even significand. */
  predicate TiesDown(n: nat) {
    var u := Spacing(n);
    u > 1 && n % (2 * u) == u / 2
  }

  predicate IsScale(u: nat) {
    u == 1 || u == 2 || u == 4 || u == 8 || u == 16 || u == 32 || u == 64 || u == 128
  }

  lemma SpacingScale(n: nat)
    requires n < TWO_60
    ensures IsScale(Spacing(n)) && n < 0x20_0000_0000_0000 * Spacing(n)
    ensures Spacing(n) > 1 ==> 0x10_0000_0000_0000 * Spacing(n) <= n
  {
    SpacingBelow(n, 128);
  }

  lemma {:induction false} SpacingBelow(n: nat, top: nat)
    requires IsScale(top) && n < 0x20_0000_0000_0000 * top
    ensures IsScale(Spacing(n)) && Spacing(n) <= top && n < 0x20_0000_0000_0000 * Spacing(n)
    ensures Spacing(n) > 1 ==> 0x10_0000_0000_0000 * Spacing(n) <= n
    decreases top
  {
    if n >= 0x20_0000_0000_0000 {
      SpacingBelow(n / 2, top / 2);
    }
  }

  /** `x` is `u` times `s`, spelled out scale by scale. */
  ghost predicate Scaled(x: real, s: real, u: nat) {
    || (u == 1 && x == s) || (u == 2 && x == 2.0 * s) || (u == 4 && x == 4.0 * s) || (u == 8 && x == 8.0 * s)
    || (u == 16 && x == 16.0 * s) || (u == 32 && x == 32.0 * s) || (u == 64 && x == 64.0 * s)
    || (u == 128 && x == 128.0 * s)
  }

  lemma RoundDoublings(s: real)
    requires s >= 0.0
    ensures Round(2.0 * s) == 2.0 * Round(s) && Round(4.0 * s) == 4.0 * Round(s) && Round(8.0 * s) == 8.0 * Round(s)
  {
    RoundDoubles(s);
    RoundDoubles(2.0 * s);
    RoundDoubles(4.0 * s);
  }

  lemma RoundScaled(x: real, s: real, u: nat)
    requires s >= 0.0 && Scaled(x, s, u)
    ensures Scaled(Round(x), Round(s), u)
  {
    RoundDoublings(s);
    if u >= 16 {
      RoundTimes16(s);
      RoundDoublings(16.0 * s);
    }
  }

  lemma RoundTimes2To60(x: real)
    requires x >= 0.0
    ensures Round(TWO_60 as real * x) == TWO_60 as real * Round(x)
  {
    RoundTimes2To52(x);
    RoundTimes16(TWO_52 * x);
    RoundTimes16(16.0 * TWO_52 * x);
  }

  /** Dividing by 2^60 adds no rounding of its own. */
  lemma GoBucketExactDivision(n: Prefix)
    ensures TWO_60 as real * GoBucket(n) == Round(n as real)
  {
    RoundDenom();
    var y := Round(n as real);
    RoundIdempotent(n as real);
    RoundTimes2To60(y / TWO_60 as real);
    assert TWO_60 as real * (y / TWO_60 as real) == y;
  }

  /** The part of a prefix by which 2^60 / (2^60 - 1) exceeds 1. */
  ghost function Excess(n: Prefix): real {
    n as real / DENOM as real
  }

  lemma PythonBucketScaled(n: Prefix)
    ensures TWO_60 as real * PythonBucket(n) == Round(n as real + Excess(n))
    ensures 0.0 <= Excess(n) <= 1.0 && (n < DENOM ==> Excess(n) < 1.0) && (n > 0 ==> Excess(n) > 0.0)
    ensures DENOM as real * Excess(n) == n as real
  {
    RoundTimes2To60(Excess(n));
    assert TWO_60 as real * Excess(n) == n as real + Excess(n);
  }

  /** A number that much smaller than a binary64 number does not show in their sum. */
  lemma {:induction false} Absorbed(x: real, d: real)
    requires IsFloat(x) && 0.0 <= d && 4.0 * TWO_53 * d <= x
    ensures Round(x + d) == x
    decreases Steps(x)
  {
    if x > 0.0 {
      if x < TWO_52 {
        RoundDoubles(x);
        Absorbed(2.0 * x, 2.0 * d);
        RoundDoubles(x + d);
        assert 2.0 * x + 2.0 * d == 2.0 * (x + d);
      } else if x >= TWO_53 {
        var h, e := x / 2.0, d / 2.0;
        RoundDoubles(h);
        Absorbed(h, e);
        RoundDoubles(h + e);
        assert x + d == 2.0 * (h + e);
      } else {
        IntegralSignificand(x);
        AbsorbedInteger(x, d);
      }
    }
  }

  lemma AbsorbedInteger(x: real, d: real)
    requires TWO_52 <= x < TWO_53 && x == x.Floor as real && 0.0 <= d < 0.5
    ensures Round(x + d) == x
  {
    assert x.Floor + 1 <= TWO_53.Floor;
    assert (x + d).Floor == x.Floor;
  }

  /** Nudging a number up by less than one changes how a tie is broken, and nothing else. */
  lemma Nudge(n: nat, u: nat, m: nat, r: nat, d: real)
    requires u > 0 && u % 2 == 0 && 0.0 < d < 1.0 && n == u * m + r && r < u
    ensures RoundHalfEven((n as real + d) / u as real) ==
            RoundHalfEven(n as real / u as real) + (if n % (2 * u) == u / 2 then 1 else 0)
  {
    var s, t := n as real / u as real, (n as real + d) / u as real;
    Fraction(n as real, m, r as real, u);
    Fraction(n as real + d, m, r as real + d, u);
    HalfOf(r, u, d);
    TieParity(n, u, m, r);
    assert RoundHalfEven(s) == if r < u / 2 || (r == u / 2 && m % 2 == 0) then m else m + 1;
    assert RoundHalfEven(t) == if r < u / 2 then m else m + 1;
  }

  lemma HalfOf(r: nat, u: nat, d: real)
    requires u % 2 == 0 && 0.0 < d < 1.0
    ensures 2.0 * r as real < u as real <==> 2.0 * (r as real + d) < u as real
    ensures 2.0 * (r as real + d) != u as real
    ensures 2.0 * r as real == u as real <==> r == u / 2
  {
    assert 2 * r < u ==> 2 * r + 2 <= u;
  }

  lemma TieParity(n: nat, u: nat, m: nat, r: nat)
    requires u > 0 && n == u * m + r && r < u
    ensures n % (2 * u) == u / 2 <==> r == u / 2 && m % 2 == 0
  {
    var k := m / 2;
    if m % 2 == 0 {
      Remainder(n, 2 * u, k, r);
    } else {
      assert m == 2 * k + 1;
      assert n == 2 * u * k + (u + r);
      Remainder(n, 2 * u, k, u + r);
    }
  }

  lemma Remainder(n: nat, d: nat, k: nat, r: nat)
    requires r < d && n == d * k + r
    ensures n % d == r
  {
    var c, x := n / d, n % d;
    assert d * c + x == n;
    OneRemainder(d, c, x, k, r);
  }

  lemma OneRemainder(d: nat, c: nat, x: nat, k: nat, r: nat)
    requires x < d && r < d && d * c + x == d * k + r
    ensures x == r
  {
    if c > k {
      Multiples(d, k + 1, c);
    } else if c < k {
      Multiples(d, c + 1, k);
    }
  }

  lemma Multiples(d: nat, a: nat, b: nat)
    requires a <= b
    ensures d * a <= d * b
    ensures d * (a + 1) == d * a + d
    ensures a > 0 ==> d * (a - 1) == d * a - d
  {
  }

  lemma Fraction(x: real, m: nat, r: real, u: nat)
    requires u > 0 && 0.0 <= r < u as real && x == (u * m) as real + r
    ensures (x / u as real).Floor == m
    ensures x / u as real - m as real < 0.5 <==> 2.0 * r < u as real
    ensures x / u as real - m as real == 0.5 <==> 2.0 * r == u as real
  {
    var w, f := u as real, x / u as real - m as real;
    assert (u * m) as real == w * m as real;
    assert w * f == r;
    Below(w, f, 0.0, r);
    Below(w, f, 0.5, r);
    Below(w, f, 1.0, r);
  }

  lemma Below(w: real, f: real, c: real, r: real)
    requires w > 0.0 && w * f == r
    ensures f < c <==> r < w * c
    ensures f == c <==> r == w * c
  {
    assert w * (c - f) == w * c - r;
  }

  lemma ScaledQuotient(x: real, u: nat)
    requires IsScale(u)
    ensures Scaled(x, x / u as real, u)
  {
  }

  /** Rounding inside the binade that `u` belongs to: the significand is rounded to an integer. */
  lemma RoundInBinade(x: real, u: nat)
    requires IsScale(u) && (0x10_0000_0000_0000 * u) as real <= x < (0x20_0000_0000_0000 * u) as real
    ensures x / u as real >= TWO_52 && Scaled(Round(x), RoundHalfEven(x / u as real) as real, u)
  {
    var s := x / u as real;
    ScaledQuotient(x, u);
    assert TWO_52 <= s < TWO_53;
    RoundScaled(x, s, u);
  }

  lemma BucketsApart(n: Prefix)
    requires Spacing(n) > 1 && n < DENOM
    ensures Round(n as real + Excess(n)) == Round(n as real) + (if TiesDown(n) then Spacing(n) as real else 0.0)
  {
    hide Round, RoundHalfEven, Spacing, Excess, PythonBucket;
    var u, d := Spacing(n), Excess(n);
    SpacingScale(n);
    PythonBucketScaled(n);
    assert n + 1 <= 0x20_0000_0000_0000 * u;
    RoundInBinade(n as real, u);
    RoundInBinade(n as real + d, u);
    Nudge(n, u, n / u, n % u, d);
    ScaledStep(Round(n as real), Round(n as real + d), RoundHalfEven(n as real / u as real), u, TiesDown(n));
  }

  lemma ScaledStep(x: real, y: real, m: int, u: nat, up: bool)
    requires Scaled(x, m as real, u) && Scaled(y, (m + if up then 1 else 0) as real, u)
    ensures y == x + if up then u as real else 0.0
  {
  }

  /** The two implementations compute the same bucket exactly when the prefix is not a tie that rounds
      down; at such a tie Python's bucket is the next binary64 number. */
  lemma BucketsEqualIff(n: Prefix)
    ensures GoBucket(n) == PythonBucket(n) <==> !TiesDown(n)
    ensures TiesDown(n) ==> TWO_60 as real * (PythonBucket(n) - GoBucket(n)) == Spacing(n) as real
  {
    GoBucketExactDivision(n);
    PythonBucketScaled(n);
    hide Round, GoBucket, PythonBucket;
    if n == DENOM {
      RoundDenom();
      SpacingScale(n);
      TwoTo60IsFloat();
    } else if Spacing(n) == 1 {
      SpacingScale(n);
      SmallInteger(n);
      assert 4.0 * TWO_53 * Excess(n) <= n as real;
      Absorbed(n as real, Excess(n));
    } else {
      BucketsApart(n);
    }
  }

  lemma TwoTo60IsFloat()
    ensures IsFloat(TWO_60 as real)
  {
    RoundDenom();
    RoundIdempotent(DENOM as real);
  }

  /** Neither implementation stays below 1: the last 64 prefixes give bucket 1. */
  lemma BucketBelowOneIff(n: Prefix)
    ensures GoBucket(n) < 1.0 <==> n < TWO_60 - 64
    ensures PythonBucket(n) < 1.0 <==> n < TWO_60 - 64
  {
    TopTieRoundsUp();
    GoBucketExactDivision(n);
    PrefixRounding(n as real, n);
    PythonBucketScaled(n);
    if n < DENOM {
      PrefixRounding(n as real + Excess(n), n);
    } else {
      TwoTo60IsFloat();
    }
  }

  lemma TopTieRoundsUp()
    ensures Round((TWO_60 - 64) as real) == TWO_60 as real
  {
    var top := (TWO_60 - 64) as real;
    assert RoundHalfEven(top / 128.0) == 0x20_0000_0000_0000;
    RoundInBinade(top, 128);
  }

  lemma PrefixRounding(x: real, n: Prefix)
    requires n as real <= x < n as real + 1.0
    ensures n < TWO_60 - 64 ==> Round(x) <= (TWO_60 - 128) as real
    ensures n >= TWO_60 - 64 ==> Round(x) >= Round((TWO_60 - 64) as real)
  {
    if n >= TWO_60 - 64 {
      RoundMonotone((TWO_60 - 64) as real, x);
    } else if x < (TWO_60 - 128) as real {
      var edge := (TWO_60 - 128) as real;
      assert RoundHalfEven(edge / 128.0) == 0x20_0000_0000_0000 - 1;
      RoundInBinade(edge, 128);
      RoundMonotone(x, edge);
    } else {
      assert n + 1 <= TWO_60 - 64;
      assert (n + 1) as real <= (TWO_60 - 64) as real;
      assert RoundHalfEven(x / 128.0) <= 0x20_0000_0000_0000 - 1;
      RoundInBinade(x, 128);
    }
  }

  // ---- Distance from exact arithmetic ----

  lemma BucketError(n: Prefix)
    ensures Abs(GoBucket(n) - n as real / DENOM as real) <= 1.0 / TWO_53
    ensures Abs(PythonBucket(n) - n as real / DENOM as real) <= 1.0 / TWO_53
  {
    hide Round, GoBucket;
    PythonBucketScaled(n);
    RoundError(Excess(n));
    GoBucketExactDivision(n);
    var x := n as real / TWO_60 as real;
    RoundTimes2To60(x);
    assert TWO_60 as real * x == n as real;
    RoundError(x);
    assert Excess(n) == x + Excess(n) / TWO_60 as real;
  }

  ghost predicate Weighted(ws: seq<int>) {
    (forall i :: 0 <= i < |ws| ==> 0 <= ws[i] <= WHOLE) && Sum(ws) == WHOLE
  }

  lemma SharesEqual(w: int)
    requires 0 <= w <= WHOLE
    ensures GoShare(w) == PythonShare(w) == Round(w as real / 100000.0)
  {
    SmallInteger(w);
    SmallInteger(WHOLE);
    var x, y := Float(w as real), Float(100000.0);
    assert x == w as real && y == 100000.0;
    assert x / y == w as real / 100000.0;
    assert x / y >= 0.0;
    assert GoShare(w) == Float(x / y);
    assert PythonShare(w) == Float(x / y);
  }

  lemma {:induction false} CumsEqual(ws: seq<int>, k: nat)
    requires k <= |ws| && forall i :: 0 <= i < |ws| ==> 0 <= ws[i] <= WHOLE
    ensures Cum(GoShare, ws, k) == Cum(PythonShare, ws, k)
  {
    if k > 0 {
      CumsEqual(ws, k - 1);
      SharesEqual(ws[k - 1]);
    }
  }

  lemma {:induction false} PrefixSum(ws: seq<int>, k: nat)
    requires k <= |ws| && forall i :: 0 <= i < |ws| ==> 0 <= ws[i]
    ensures 0 <= Sum(ws[..k]) <= Sum(ws)
    ensures k > 0 ==> Sum(ws[..k]) == Sum(ws[..k - 1]) + ws[k - 1]
    decreases |ws|
  {
    if k > 0 {
      assert ws[..k][..k - 1] == ws[..k - 1];
    }
    if k == |ws| {
      assert ws[..k] == ws;
      if k > 0 {
        PrefixSum(ws[..k - 1], k - 1);
      }
    } else {
      assert ws[..|ws| - 1][..k] == ws[..k];
      PrefixSum(ws[..|ws| - 1], k);
    }
  }

  /** How many of the first `k` weights are positive. */
  ghost function Positives(ws: seq<int>, k: nat): (p: nat)
    requires k <= |ws|
    ensures p <= k
  {
    if k == 0 then 0 else Positives(ws, k - 1) + if ws[k - 1] > 0 then 1 else 0
  }

  /** Every addition contributes at most one and a half units of 2^-53, and none when the weight is 0;
      at most 100000 weights are positive, so the sum never leaves the range where that holds. */
  lemma {:induction false} CumError(ws: seq<int>, k: nat)
    requires Weighted(ws) && k <= |ws|
    ensures IsFloat(Cum(GoShare, ws, k))
    ensures Positives(ws, k) <= Sum(ws[..k]) <= WHOLE
    ensures Abs(Cum(GoShare, ws, k) - Boundary(ws, k)) <= 1.5 * Positives(ws, k) as real / TWO_53
    decreases k
  {
    PrefixSum(ws, k);
    if k > 0 {
      CumError(ws, k - 1);
      CumStep(ws, k);
    }
  }

  lemma CumStep(ws: seq<int>, k: nat)
    requires 0 < k <= |ws| && Sum(ws[..k]) == Sum(ws[..k - 1]) + ws[k - 1] && Sum(ws[..k]) <= WHOLE
    requires 0 <= ws[k - 1] <= WHOLE && Positives(ws, k - 1) <= Sum(ws[..k - 1]) <= WHOLE
    requires IsFloat(Cum(GoShare, ws, k - 1))
    requires Abs(Cum(GoShare, ws, k - 1) - Boundary(ws, k - 1)) <= 1.5 * Positives(ws, k - 1) as real / TWO_53
    ensures IsFloat(Cum(GoShare, ws, k))
    ensures Abs(Cum(GoShare, ws, k) - Boundary(ws, k)) <= 1.5 * Positives(ws, k) as real / TWO_53
  {
    hide Round, GoShare, Cum, Boundary, Sum;
    var w, c, b, p := ws[k - 1], Cum(GoShare, ws, k - 1), Boundary(ws, k - 1), Positives(ws, k - 1);
    var x := w as real / 100000.0;
    NextBoundary(ws, k);
    NextCum(ws, k);
    if w > 0 {
      SumInRange(c, b, GoShare(w), x, p);
      RoundError(c + GoShare(w));
      ErrorsAdd(c, b, GoShare(w), x, Round(c + GoShare(w)), p);
    }
  }

  lemma NextBoundary(ws: seq<int>, k: nat)
    requires 0 < k <= |ws| && Sum(ws[..k]) == Sum(ws[..k - 1]) + ws[k - 1]
    ensures Boundary(ws, k) == Boundary(ws, k - 1) + ws[k - 1] as real / 100000.0
    ensures Sum(ws[..k]) <= WHOLE ==> Boundary(ws, k) <= 1.0
  {
  }

  lemma NextCum(ws: seq<int>, k: nat)
    requires 0 < k <= |ws| && 0 <= ws[k - 1] <= WHOLE && IsFloat(Cum(GoShare, ws, k - 1))
    ensures var c, g := Cum(GoShare, ws, k - 1), GoShare(ws[k - 1]);
            && g >= 0.0 && Abs(g - ws[k - 1] as real / 100000.0) <= 0.5 / TWO_53
            && Cum(GoShare, ws, k) == Round(c + g) && IsFloat(Cum(GoShare, ws, k))
            && (ws[k - 1] == 0 ==> Cum(GoShare, ws, k) == c)
  {
    var x := ws[k - 1] as real / 100000.0;
    SharesEqual(ws[k - 1]);
    RoundError(x);
    RoundIdempotent(Cum(GoShare, ws, k - 1) + GoShare(ws[k - 1]));
    hide Round, GoShare;
  }

  lemma SumInRange(c: real, b: real, g: real, x: real, p: nat)
    requires p <= WHOLE && b + x <= 1.0
    requires Abs(c - b) <= 1.5 * p as real / TWO_53 && Abs(g - x) <= 0.5 / TWO_53
    ensures c + g <= 2.0
  {
  }

  lemma ErrorsAdd(c: real, b: real, g: real, x: real, r: real, p: nat)
    requires Abs(c - b) <= 1.5 * p as real / TWO_53 && Abs(g - x) <= 0.5 / TWO_53
    requires Abs(r - (c + g)) <= 1.0 / TWO_53
    ensures Abs(r - (b + x)) <= 1.5 * (p + 1) as real / TWO_53
  {
  }
}
