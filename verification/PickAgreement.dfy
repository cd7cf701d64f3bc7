/** When the Go evaluator, the Python reference and exact arithmetic choose the same entry of a rollout. */
module PickAgreement {
  import opened Wrappers
  import opened Types
  import opened Values
  import opened Clauses
  import opened Binary64
  import opened Bucketing
  import opened BucketAgreement

  // ---- Picking from a list of boundaries ----

  lemma {:induction false} SamePick(a: real, cs: seq<real>, b: real, ds: seq<real>, from: nat)
    requires |cs| == |ds| && from <= |cs|
    requires forall i :: 0 <= i < |cs| - 1 ==> (a < cs[i] <==> b < ds[i])
    ensures Pick(a, cs, from) == Pick(b, ds, from)
    decreases |cs| - from
  {
    if from + 1 < |cs| {
      SamePick(a, cs, b, ds, from + 1);
    }
  }

  /** Raising the bucket changes the entry exactly when it passes a boundary between two entries. */
  lemma PicksApartIff(a: real, b: real, cs: seq<real>)
    requires a <= b && forall i, j :: 0 <= i <= j < |cs| ==> cs[i] <= cs[j]
    ensures Pick(a, cs, 0) <= Pick(b, cs, 0)
    ensures Pick(a, cs, 0) != Pick(b, cs, 0) <==> exists i :: 0 <= i < |cs| - 1 && a < cs[i] <= b
  {
  }

  // ---- Against exact arithmetic ----

  /** The exact bucket is more than (k + 1) * 2^-52 away from every boundary between two entries. */
  ghost predicate ClearOfBoundaries(n: Prefix, ws: seq<int>) {
    forall i :: 0 <= i < |ws| - 1 ==>
      Abs(n as real / DENOM as real - Boundaries(ws)[i]) > 2.0 * (|ws| + 1) as real / TWO_53
  }

  lemma PickIsExact(b: real, n: Prefix, ws: seq<int>)
    requires Weighted(ws) && ClearOfBoundaries(n, ws)
    requires Abs(b - n as real / DENOM as real) <= 1.0 / TWO_53
    ensures Pick(b, Cums(GoShare, ws), 0) == ExactPick(n, ws)
  {
    var x := n as real / DENOM as real;
    forall i | 0 <= i < |ws| - 1 ensures b < Cums(GoShare, ws)[i] <==> x < Boundaries(ws)[i] {
      CumError(ws, i + 1);
      assert 1.5 * Positives(ws, i + 1) as real + 1.0 <= 2.0 * (|ws| + 1) as real;
    }
    SamePick(b, Cums(GoShare, ws), x, Boundaries(ws), 0);
  }

  /** Away from the boundaries, both implementations choose the entry that exact arithmetic chooses. */
  lemma PicksAreExact(n: Prefix, ws: seq<int>)
    requires Weighted(ws) && ClearOfBoundaries(n, ws)
    ensures GoPick(n, ws) == PythonPick(n, ws) == ExactPick(n, ws)
  {
    BucketError(n);
    PickIsExact(GoBucket(n), n, ws);
    PickIsExact(PythonBucket(n), n, ws);
    SameShares(ws);
  }

  lemma SameShares(ws: seq<int>)
    requires forall i :: 0 <= i < |ws| ==> 0 <= ws[i] <= WHOLE
    ensures Cums(GoShare, ws) == Cums(PythonShare, ws)
  {
    forall i | 0 <= i < |ws| ensures Cums(GoShare, ws)[i] == Cums(PythonShare, ws)[i] {
      CumsEqual(ws, i + 1);
    }
  }

  /** What the evaluator serves from a rollout: the entry that exact arithmetic gives the hash prefix of key,
      salt and bucket-by value. */
  lemma RolloutServesExactEntry(flag: Flag, r: Rollout, q: Request, value: string)
    requires var name := if r.bucketBy == "" then "key" else r.bucketBy;
             value == if r.contextKind in q.ctx.kinds && name in q.ctx.kinds[r.contextKind]
                      then AsString(q.ctx.kinds[r.contextKind][name], q.lib) else ""
    requires Weighted(Weights(r.variations))
    requires ClearOfBoundaries(q.lib.sha1Prefix(flag.key + "." + flag.salt + "." + value), Weights(r.variations))
    ensures var n := q.lib.sha1Prefix(flag.key + "." + flag.salt + "." + value);
            var p := ExactPick(n, Weights(r.variations));
            0 <= p < |r.variations| && RolloutVariation(flag, r, q) == Done(r.variations[p].variation)
  {
    PicksAreExact(q.lib.sha1Prefix(flag.key + "." + flag.salt + "." + value), Weights(r.variations));
  }

  // ---- Against each other ----

  lemma BucketsOrdered(n: Prefix)
    ensures GoBucket(n) <= PythonBucket(n)
  {
    GoBucketExactDivision(n);
    PythonBucketScaled(n);
    RoundMonotone(n as real, n as real + Excess(n));
  }

  lemma StrictlyBetween(x: real, y: real, z: real)
    requires 0.0 <= x <= z && IsFloat(y) && Round(x) < y < Round(z)
    ensures x < y < z
  {
    if y <= x {
      RoundMonotone(y, x);
    } else if y >= z {
      RoundMonotone(z, y);
    }
  }

  /** Where neighbouring binary64 numbers are at least 1 apart, they are integers. */
  lemma FloatIsInteger(n: nat, y: real, u: nat) returns (z: int)
    requires IsFloat(y) && IsScale(u)
    requires 0x10_0000_0000_0000 * u <= n < 0x20_0000_0000_0000 * u && n as real <= y < (n + 1) as real
    ensures y == z as real
  {
    assert (n + 1) as real <= (0x20_0000_0000_0000 * u) as real;
    RoundInBinade(y, u);
    z := u * RoundHalfEven(y / u as real);
  }

  lemma NoIntegerInside(n: nat, z: int)
    requires n as real < z as real
    ensures (n + 1) as real <= z as real
  {
    assert (z - n) as real == z as real - n as real;
    assert z - n >= 1;
  }

  /** No binary64 number lies strictly between the two buckets. */
  lemma BucketsAdjacent(n: Prefix, c: real)
    requires IsFloat(c) && GoBucket(n) < c <= PythonBucket(n)
    ensures TiesDown(n) && c == PythonBucket(n)
  {
    hide Round, GoBucket, PythonBucket;
    BucketsEqualIff(n);
    var y := TWO_60 as real * c;
    SpacingScale(n);
    GoBucketExactDivision(n);
    PythonBucketScaled(n);
    RoundTimes2To60(c);
    if c < PythonBucket(n) {
      assert Round(n as real) < y < Round(n as real + Excess(n));
      StrictlyBetween(n as real, y, n as real + Excess(n));
      var z := FloatIsInteger(n, y, Spacing(n));
      NoIntegerInside(n, z);
    }
  }

  lemma {:induction false} CumIsFloat(ws: seq<int>, k: nat)
    requires k <= |ws| && forall i :: 0 <= i < |ws| ==> 0 <= ws[i] <= WHOLE
    ensures IsFloat(Cum(GoShare, ws, k))
    ensures forall j :: 0 <= j <= k ==> Cum(GoShare, ws, j) <= Cum(GoShare, ws, k)
    decreases k
  {
    if k > 0 {
      CumIsFloat(ws, k - 1);
      SharesEqual(ws[k - 1]);
      var c := Cum(GoShare, ws, k - 1);
      assert ws[k - 1] as real / 100000.0 >= 0.0;
      RoundMonotone(c, c + GoShare(ws[k - 1]));
      RoundIdempotent(c + GoShare(ws[k - 1]));
    }
  }

  lemma CumsSorted(ws: seq<int>)
    requires forall i :: 0 <= i < |ws| ==> 0 <= ws[i] <= WHOLE
    ensures forall i :: 0 <= i < |ws| ==> IsFloat(Cums(GoShare, ws)[i])
    ensures forall i, j :: 0 <= i <= j < |ws| ==> Cums(GoShare, ws)[i] <= Cums(GoShare, ws)[j]
  {
    forall i, j | 0 <= i <= j < |ws|
      ensures IsFloat(Cums(GoShare, ws)[i]) && Cums(GoShare, ws)[i] <= Cums(GoShare, ws)[j]
    {
      CumIsFloat(ws, i + 1);
      CumIsFloat(ws, j + 1);
    }
  }

  /** The two implementations choose different entries exactly when the prefix is a tie that rounds
      down and some boundary between two entries is, as a binary64 number, Python's bucket. */
  lemma PicksDifferIff(n: Prefix, ws: seq<int>)
    requires forall i :: 0 <= i < |ws| ==> 0 <= ws[i] <= WHOLE
    ensures GoPick(n, ws) != PythonPick(n, ws) <==>
            TiesDown(n) && exists i :: 0 <= i < |ws| - 1 && Cums(GoShare, ws)[i] == PythonBucket(n)
  {
    var a, b, cs := GoBucket(n), PythonBucket(n), Cums(GoShare, ws);
    SameShares(ws);
    BucketsEqualIff(n);
    BucketsOrdered(n);
    CumsSorted(ws);
    PicksApartIff(a, b, cs);
    forall i | 0 <= i < |cs| - 1 && a < cs[i] <= b ensures TiesDown(n) && cs[i] == b {
      BucketsAdjacent(n, cs[i]);
    }
  }

  lemma HalfwayPrefix(n: Prefix)
    requires n == 5404319552844594 * 128 + 64
    ensures TWO_53 * GoBucket(n) == 5404319552844594.0
    ensures TWO_53 * PythonBucket(n) == 5404319552844595.0
  {
    HalfwaySpacing(n);
    HalfwayRounded(n);
    GoBucketExactDivision(n);
    BucketsEqualIff(n);
    hide Round, GoBucket, PythonBucket;
  }

  lemma HalfwaySpacing(n: Prefix)
    requires n == 5404319552844594 * 128 + 64
    ensures Spacing(n) == 128 && TiesDown(n)
  {
    SpacingScale(n);
  }

  lemma HalfwayRounded(n: Prefix)
    requires n == 5404319552844594 * 128 + 64
    ensures Round(n as real) == 5404319552844594.0 * 128.0
  {
    assert n as real / 128.0 == 5404319552844594.5;
    assert RoundHalfEven(5404319552844594.5) == 5404319552844594;
    RoundInBinade(n as real, 128);
    hide Round, RoundHalfEven;
  }

  /** A 60/40 rollout, and a prefix for which Go serves the first entry and Python the second. */
  lemma SixtyFortyDisagreement(n: Prefix)
    requires n == 5404319552844594 * 128 + 64
    ensures GoPick(n, [60000, 40000]) == 0 && PythonPick(n, [60000, 40000]) == 1
  {
    var ws := [60000, 40000];
    SixtyPercent(ws);
    HalfwayPrefix(n);
    SameShares(ws);
    assert Cums(GoShare, ws)[0] == Cum(GoShare, ws, 1);
  }

  lemma SixtyPercent(ws: seq<int>)
    requires ws == [60000, 40000]
    ensures TWO_53 * Cum(GoShare, ws, 1) == 5404319552844595.0
  {
    SharesEqual(60000);
    var x := 60000.0 / 100000.0;
    RoundTimes2To52(x);
    RoundDoubles(TWO_52 * x);
    assert RoundHalfEven(TWO_53 * x) == 5404319552844595;
    RoundIdempotent(x);
    assert Cum(GoShare, ws, 1) == Float(0.0 + GoShare(60000));
  }
}
