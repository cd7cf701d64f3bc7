/** How the 2^60 hash prefixes are shared out among the entries of a rollout, and what re-weighting moves. */
module RolloutShares {
  import opened Values
  import opened Binary64
  import opened Bucketing
  import opened BucketAgreement
  import opened PickAgreement
  import opened Graph

  // ---- Exact arithmetic: every entry gets an interval of prefixes ----

  /** How many prefixes lie below the boundary at a cumulative weight of `c`. */
  function Threshold(c: nat): nat {
    (c * DENOM + WHOLE - 1) / WHOLE
  }

  lemma ThresholdIff(n: nat, c: nat)
    ensures n < Threshold(c) <==> n * WHOLE < c * DENOM
    ensures 0 <= Threshold(c) * WHOLE - c * DENOM < WHOLE
  {
  }

  ghost function Cumulative(ws: seq<int>, i: nat): nat
    requires Weighted(ws) && i <= |ws|
  {
    PrefixSum(ws, i);
    Sum(ws[..i])
  }

  ghost function Low(ws: seq<int>, i: nat): nat
    requires Weighted(ws) && i < |ws|
  {
    Threshold(Cumulative(ws, i))
  }

  /** The last entry also takes what is left over. */
  ghost function High(ws: seq<int>, i: nat): nat
    requires Weighted(ws) && i < |ws|
  {
    if i == |ws| - 1 then TWO_60 else Threshold(Cumulative(ws, i + 1))
  }

  lemma BelowBoundaryIff(n: nat, ws: seq<int>, i: nat)
    requires Weighted(ws) && i < |ws|
    ensures n as real / DENOM as real < Boundaries(ws)[i] <==> n < Threshold(Cumulative(ws, i + 1))
  {
    var s, x := Sum(ws[..i + 1]), n as real / DENOM as real;
    assert x * DENOM as real == n as real;
    assert (n * WHOLE) as real == n as real * 100000.0;
    assert (s * DENOM) as real == s as real * DENOM as real;
    assert x < s as real / 100000.0 <==> (n * WHOLE) as real < (s * DENOM) as real;
    ThresholdIff(n, Cumulative(ws, i + 1));
  }

  lemma {:induction false} ThresholdsSorted(ws: seq<int>, i: nat, j: nat)
    requires Weighted(ws) && i <= j <= |ws|
    ensures Cumulative(ws, i) <= Cumulative(ws, j) && Threshold(Cumulative(ws, i)) <= Threshold(Cumulative(ws, j))
    decreases j
  {
    if i < j {
      ThresholdsSorted(ws, i, j - 1);
      PrefixSum(ws, j);
      ThresholdIff(Threshold(Cumulative(ws, j - 1)), Cumulative(ws, j));
      ThresholdIff(0, Cumulative(ws, j - 1));
    }
  }

  lemma PickIffInterval(n: nat, ws: seq<int>, i: nat)
    requires Weighted(ws) && i < |ws| && n < TWO_60
    ensures ExactPick(n, ws) == i <==> Low(ws, i) <= n < High(ws, i)
  {
    var p := ExactPick(n, ws);
    forall j | 0 <= j < |ws|
      ensures n as real / DENOM as real < Boundaries(ws)[j] <==> n < Threshold(Cumulative(ws, j + 1))
    {
      BelowBoundaryIff(n, ws, j);
    }
    if p < i {
      ThresholdsSorted(ws, p + 1, i);
    } else if p > i {
      assert Boundaries(ws)[i] <= n as real / DENOM as real;
    } else if i > 0 {
      assert Boundaries(ws)[i - 1] <= n as real / DENOM as real;
    }
  }

  ghost function PrefixesOf(ws: seq<int>, i: nat): set<nat> {
    set n: nat | n < TWO_60 && ExactPick(n, ws) == i
  }

  predicate Within(n: nat, lo: nat, hi: nat) {
    lo <= n < hi
  }

  ghost function Interval(lo: nat, hi: nat): set<nat> {
    set n: nat | n < hi && Within(n, lo, hi)
  }

  lemma {:induction false} IntervalSize(lo: nat, hi: nat)
    requires lo <= hi
    ensures |Interval(lo, hi)| == hi - lo
    decreases hi
  {
    if lo < hi {
      IntervalSize(lo, hi - 1);
      assert Interval(lo, hi) == Interval(lo, hi - 1) + {hi - 1};
    }
  }

  /** An entry of weight w gets within 2 of w * (2^60 - 1) / 100000 prefixes; within 1 if it is not last. */
  lemma ShareOfEntry(ws: seq<int>, i: nat)
    requires Weighted(ws) && i < |ws|
    ensures var off := |PrefixesOf(ws, i)| * WHOLE - ws[i] * DENOM;
            -WHOLE < off < 2 * WHOLE && (i < |ws| - 1 ==> off < WHOLE)
  {
    var lo, hi := Low(ws, i), High(ws, i);
    PrefixSum(ws, i + 1);
    ThresholdsSorted(ws, i, i + 1);
    ThresholdIff(0, Cumulative(ws, i));
    ThresholdIff(0, Cumulative(ws, i + 1));
    if i == |ws| - 1 {
      assert ws[..|ws|] == ws;
    }
    assert lo <= hi <= TWO_60 by {
      ThresholdsSorted(ws, i + 1, |ws|);
      assert ws[..|ws|] == ws;
    }
    forall n: nat | n < TWO_60 ensures ExactPick(n, ws) == i <==> lo <= n < hi {
      PickIffInterval(n, ws, i);
    }
    assert PrefixesOf(ws, i) == Interval(lo, hi);
    IntervalSize(lo, hi);
  }

  // ---- The same shares in the arithmetic of the code ----

  /** The boundary after entry `i`, in prefixes, rounded down. */
  ghost function Center(ws: seq<int>, i: nat): nat
    requires Weighted(ws) && i < |ws|
  {
    PrefixSum(ws, i + 1);
    (Boundaries(ws)[i] * DENOM as real).Floor
  }

  /** Prefixes within about (k + 1) * 2^8 of the boundary after entry `i`, of k entries. */
  ghost function Band(ws: seq<int>, i: nat): set<nat>
    requires Weighted(ws) && i < |ws|
  {
    var c, r := Center(ws, i), 256 * (|ws| + 1);
    Interval(if c < r then 0 else c - r, c + r + 2)
  }

  lemma BandSize(ws: seq<int>, i: nat)
    requires Weighted(ws) && i < |ws|
    ensures |Band(ws, i)| <= 512 * (|ws| + 1) + 2
  {
    var c, r := Center(ws, i), 256 * (|ws| + 1);
    IntervalSize(if c < r then 0 else c - r, c + r + 2);
  }

  lemma NearIsInBand(n: Prefix, ws: seq<int>, i: nat)
    requires Weighted(ws) && i < |ws|
    requires Abs(n as real / DENOM as real - Boundaries(ws)[i]) <= 2.0 * (|ws| + 1) as real / TWO_53
    ensures n in Band(ws, i)
  {
    var x, b, r := n as real / DENOM as real, Boundaries(ws)[i], 256 * (|ws| + 1);
    var c := Center(ws, i);
    ScaledDistance(x, b, |ws| + 1);
    assert x * DENOM as real == n as real && r as real == 256.0 * (|ws| + 1) as real;
    assert c as real - r as real <= n as real < c as real + r as real + 2.0;
    assert (c - r) as real == c as real - r as real && (c + r + 2) as real == c as real + r as real + 2.0;
    assert Within(n, if c < r then 0 else c - r, c + r + 2);
  }

  lemma ScaledDistance(x: real, b: real, k: nat)
    requires Abs(x - b) <= 2.0 * k as real / TWO_53
    ensures Abs(x * DENOM as real - b * DENOM as real) <= 256.0 * k as real
  {
    assert x * DENOM as real - b * DENOM as real == (x - b) * DENOM as real;
  }

  ghost function Bands(ws: seq<int>, m: nat): set<nat>
    requires Weighted(ws) && m <= |ws|
  {
    if m == 0 then {} else Bands(ws, m - 1) + Band(ws, m - 1)
  }

  lemma {:induction false} BandsSize(ws: seq<int>, m: nat)
    requires Weighted(ws) && m <= |ws|
    ensures |Bands(ws, m)| <= m * (512 * (|ws| + 1) + 2)
    ensures forall n, i :: 0 <= i < m && n in Band(ws, i) ==> n in Bands(ws, m)
    decreases m
  {
    hide Band;
    if m > 0 {
      BandsSize(ws, m - 1);
      BandSize(ws, m - 1);
      UnionSize(Bands(ws, m - 1), Band(ws, m - 1));
      var size := 512 * (|ws| + 1) + 2;
      assert m * size == (m - 1) * size + size;
    }
  }

  lemma UnionSize(a: set<nat>, b: set<nat>)
    ensures |a + b| <= |a| + |b|
  {
    assert a + b == a + (b - a);
    CardinalityMonotone(b - a, b);
  }

  ghost function GoPrefixesOf(ws: seq<int>, i: nat): set<nat> {
    set n: nat | n < TWO_60 && GoPick(n, ws) == i
  }

  lemma DisagreementIsInBands(n: Prefix, ws: seq<int>)
    requires Weighted(ws) && GoPick(n, ws) != ExactPick(n, ws)
    ensures |ws| > 0 && n in Bands(ws, |ws| - 1)
  {
    hide Round, GoBucket, GoPick, ExactPick;
    if ClearOfBoundaries(n, ws) {
      PicksAreExact(n, ws);
    }
    var i :| 0 <= i < |ws| - 1 && Abs(n as real / DENOM as real - Boundaries(ws)[i]) <= 2.0 * (|ws| + 1) as real / TWO_53;
    NearIsInBand(n, ws, i);
    BandsSize(ws, |ws| - 1);
  }

  lemma SizesApart(a: set<nat>, b: set<nat>, c: set<nat>)
    requires forall n :: n in a && n !in b ==> n in c
    ensures |a| <= |b| + |c|
  {
    assert a == (a * b) + (a - b);
    CardinalityMonotone(a * b, b);
    CardinalityMonotone(a - b, c);
  }

  /** Rounding moves few prefixes. */
  lemma GoShareNearExact(ws: seq<int>, i: nat)
    requires Weighted(ws) && i < |ws|
    ensures var slack := (|ws| - 1) * (512 * (|ws| + 1) + 2);
            |PrefixesOf(ws, i)| - slack <= |GoPrefixesOf(ws, i)| <= |PrefixesOf(ws, i)| + slack
  {
    hide Bands, GoPick, ExactPick;
    var bands := Bands(ws, |ws| - 1);
    BandsSize(ws, |ws| - 1);
    forall n: Prefix | GoPick(n, ws) != ExactPick(n, ws) ensures n in bands {
      DisagreementIsInBands(n, ws);
    }
    SizesApart(PrefixesOf(ws, i), GoPrefixesOf(ws, i), bands);
    SizesApart(GoPrefixesOf(ws, i), PrefixesOf(ws, i), bands);
  }

  lemma SharesAdd(count: nat, exact: nat, slack: nat, share: int)
    requires exact - slack <= count <= exact + slack && -WHOLE < exact * WHOLE - share < 2 * WHOLE
    ensures -(slack + 1) * WHOLE < count * WHOLE - share < (slack + 2) * WHOLE
  {
  }

  /** In the code's arithmetic an entry of weight w gets w * (2^60 - 1) / 100000 prefixes up to 2 and, with k
      entries, up to another (k - 1) * (512 * (k + 1) + 2) that rounding moves. */
  lemma GoShareOfEntry(ws: seq<int>, i: nat)
    requires Weighted(ws) && i < |ws|
    ensures var slack := (|ws| - 1) * (512 * (|ws| + 1) + 2);
            -(slack + 1) * WHOLE < |GoPrefixesOf(ws, i)| * WHOLE - ws[i] * DENOM < (slack + 2) * WHOLE
  {
    hide GoPrefixesOf, PrefixesOf;
    GoShareNearExact(ws, i);
    ShareOfEntry(ws, i);
    SharesAdd(|GoPrefixesOf(ws, i)|, |PrefixesOf(ws, i)|, (|ws| - 1) * (512 * (|ws| + 1) + 2), ws[i] * DENOM);
  }

  // ---- Entries of weight 0 ----

  /** An entry of weight 0 is served for no prefix, except that the last entry takes the very last one. */
  lemma ZeroWeightIff(n: nat, ws: seq<int>, i: nat)
    requires Weighted(ws) && i < |ws| && ws[i] == 0 && n < TWO_60
    ensures ExactPick(n, ws) == i <==> i == |ws| - 1 && n == DENOM
  {
    PickIffInterval(n, ws, i);
    PrefixSum(ws, i + 1);
    if i == |ws| - 1 {
      assert ws[..|ws|] == ws;
      ThresholdIff(n, WHOLE);
    }
  }

  /** In the Go arithmetic an entry of weight 0 is served exactly if it is last and the bucket is not below the
      float sum of the other weights; for all weights, whatever they sum to. */
  lemma ZeroWeightServedIff(n: Prefix, ws: seq<int>, i: nat)
    requires (forall j :: 0 <= j < |ws| ==> 0 <= ws[j] <= WHOLE) && i < |ws| && ws[i] == 0
    ensures GoPick(n, ws) == i <==> i == |ws| - 1 && Cum(GoShare, ws, i) <= GoBucket(n)
  {
    var b, cs := GoBucket(n), Cums(GoShare, ws);
    CumsSorted(ws);
    CumIsFloat(ws, i);
    SharesEqual(0);
    RoundIdempotent(Cum(GoShare, ws, i));
    assert cs[i] == Cum(GoShare, ws, i);
    BucketNotNegative(n);
    hide Round, GoBucket, GoShare;
    if i > 0 {
      assert cs[i - 1] == Cum(GoShare, ws, i);
    }
  }

  lemma BucketNotNegative(n: Prefix)
    ensures GoBucket(n) >= 0.0
  {
    GoBucketExactDivision(n);
    hide GoBucket;
  }

  /** In a 100/0 rollout these are the last 64 prefixes. */
  lemma ZeroPercentServedIff(n: Prefix)
    ensures GoPick(n, [WHOLE, 0]) == 1 <==> n >= TWO_60 - 64
  {
    ZeroWeightServedIff(n, [WHOLE, 0], 1);
    BucketBelowOneIff(n);
    FirstCum([WHOLE, 0]);
    SmallInteger(1);
    assert Cums(GoShare, [WHOLE, 0])[0] == Cum(GoShare, [WHOLE, 0], 1);
    hide Round, GoBucket, GoShare, Cum;
  }

  // ---- Re-weighting ----

  /** The thresholds between neighbouring entries. */
  ghost function Thresholds(ws: seq<int>): (ts: seq<nat>)
    requires Weighted(ws) && |ws| > 0
    ensures |ts| == |ws| - 1 && forall i :: 0 <= i < |ts| ==> ts[i] == Threshold(Cumulative(ws, i + 1))
  {
    seq(|ws| - 1, i requires 0 <= i < |ws| - 1 => Threshold(Cumulative(ws, i + 1)))
  }

  /** The prefixes that lie between a threshold of `ts` and the one that replaces it. */
  ghost function Crossed(ts: seq<nat>, us: seq<nat>): set<nat>
    requires |ts| == |us|
  {
    if ts == [] then {}
    else Interval(ts[0], us[0]) + Interval(us[0], ts[0]) + Crossed(ts[1..], us[1..])
  }

  ghost function Distance(a: int, b: int): nat {
    if a < b then b - a else a - b
  }

  ghost function TotalDistance(ts: seq<nat>, us: seq<nat>): nat
    requires |ts| == |us|
  {
    if ts == [] then 0 else Distance(ts[0], us[0]) + TotalDistance(ts[1..], us[1..])
  }

  lemma {:induction false} CrossedSize(ts: seq<nat>, us: seq<nat>)
    requires |ts| == |us|
    ensures |Crossed(ts, us)| <= TotalDistance(ts, us)
  {
    if ts != [] {
      var a, b := ts[0], us[0];
      if a <= b {
        IntervalSize(a, b);
        assert Interval(b, a) == {};
      } else {
        IntervalSize(b, a);
        assert Interval(a, b) == {};
      }
      CrossedSize(ts[1..], us[1..]);
    }
  }

  lemma {:induction false} InCrossed(n: nat, ts: seq<nat>, us: seq<nat>, i: nat)
    requires i < |ts| == |us| && (Within(n, ts[i], us[i]) || Within(n, us[i], ts[i]))
    ensures n in Crossed(ts, us)
  {
    if i > 0 {
      InCrossed(n, ts[1..], us[1..], i - 1);
    }
  }

  /** A prefix changes entry only if some threshold moves across it. */
  lemma MovedIsCrossed(n: nat, before: seq<int>, after: seq<int>)
    requires Weighted(before) && Weighted(after) && |before| == |after| > 0 && n < TWO_60
    requires ExactPick(n, before) != ExactPick(n, after)
    ensures n in Crossed(Thresholds(before), Thresholds(after))
  {
    var p, r := ExactPick(n, before), ExactPick(n, after);
    PickIffInterval(n, before, p);
    PickIffInterval(n, after, r);
    if p < r {
      ThresholdsSorted(after, p + 1, r);
      InCrossed(n, Thresholds(before), Thresholds(after), p);
    } else {
      ThresholdsSorted(before, r + 1, p);
      InCrossed(n, Thresholds(before), Thresholds(after), r);
    }
  }

  /** At most |change| * (2^60 - 1) / 100000 + 1 prefixes lie between an old threshold and its new place. */
  lemma ThresholdMoves(before: seq<int>, after: seq<int>, i: nat)
    requires Weighted(before) && Weighted(after) && |before| == |after| && i < |before| - 1
    ensures Distance(Thresholds(before)[i], Thresholds(after)[i]) * WHOLE <
            Distance(Cumulative(before, i + 1), Cumulative(after, i + 1)) * DENOM + WHOLE
  {
    ThresholdIff(0, Cumulative(before, i + 1));
    ThresholdIff(0, Cumulative(after, i + 1));
  }

  /** How far each boundary between two entries moves, in weight. */
  ghost function Changes(before: seq<int>, after: seq<int>): (ds: seq<nat>)
    requires Weighted(before) && Weighted(after) && |before| == |after| > 0
    ensures |ds| == |before| - 1
    ensures forall i :: 0 <= i < |ds| ==> ds[i] == Distance(Cumulative(before, i + 1), Cumulative(after, i + 1))
  {
    seq(|before| - 1, i requires 0 <= i < |before| - 1 => Distance(Cumulative(before, i + 1), Cumulative(after, i + 1)))
  }

  /** 100000 times the sum of |change| * (2^60 - 1) / 100000 + 1 over the changes. */
  ghost function ChangeBound(ds: seq<nat>): nat {
    if ds == [] then 0 else ds[0] * DENOM + WHOLE + ChangeBound(ds[1..])
  }

  lemma {:induction false} DistanceBound(ts: seq<nat>, us: seq<nat>, ds: seq<nat>)
    requires |ts| == |us| == |ds|
    requires forall i :: 0 <= i < |ds| ==> Distance(ts[i], us[i]) * WHOLE < ds[i] * DENOM + WHOLE
    ensures TotalDistance(ts, us) * WHOLE <= ChangeBound(ds)
  {
    if ds != [] {
      DistanceBound(ts[1..], us[1..], ds[1..]);
    }
  }

  ghost function Moved(before: seq<int>, after: seq<int>): set<nat> {
    set n: nat | n < TWO_60 && ExactPick(n, before) != ExactPick(n, after)
  }

  /** Re-weighting moves at most as many prefixes as the sum, over the boundaries between entries, of
      |change| * (2^60 - 1) / 100000 + 1. */
  lemma MovedAtMost(before: seq<int>, after: seq<int>)
    requires Weighted(before) && Weighted(after) && |before| == |after| > 0
    ensures |Moved(before, after)| * WHOLE <= ChangeBound(Changes(before, after))
  {
    var ts, us := Thresholds(before), Thresholds(after);
    forall n | n in Moved(before, after) ensures n in Crossed(ts, us) {
      MovedIsCrossed(n, before, after);
    }
    CardinalityMonotone(Moved(before, after), Crossed(ts, us));
    CrossedSize(ts, us);
    forall i | 0 <= i < |ts| ensures Distance(ts[i], us[i]) * WHOLE < Changes(before, after)[i] * DENOM + WHOLE {
      ThresholdMoves(before, after, i);
    }
    DistanceBound(ts, us, Changes(before, after));
  }

  // ---- The same in the arithmetic of the code ----

  lemma GoBucketsAscend(n: Prefix, m: Prefix)
    requires n <= m
    ensures GoBucket(n) <= GoBucket(m)
  {
    GoBucketExactDivision(n);
    GoBucketExactDivision(m);
    RoundMonotone(n as real, m as real);
    hide GoBucket, Round;
  }

  /** Every prefix gets a position and larger prefixes never a smaller one: each position owns one interval. */
  lemma GoPicksAscend(n: Prefix, m: Prefix, ws: seq<int>)
    requires |ws| > 0 && n <= m && forall i :: 0 <= i < |ws| ==> 0 <= ws[i] <= WHOLE
    ensures 0 <= GoPick(n, ws) <= GoPick(m, ws) < |ws|
  {
    GoBucketsAscend(n, m);
    CumsSorted(ws);
    PicksApartIff(GoBucket(n), GoBucket(m), Cums(GoShare, ws));
    hide GoBucket;
  }

  /** A prefix changes position only if the float sum at some boundary between entries moves across its bucket. */
  lemma GoMovedIsCrossed(n: Prefix, before: seq<int>, after: seq<int>)
    requires |before| == |after| && GoPick(n, before) != GoPick(n, after)
    ensures exists i :: 0 <= i < |before| - 1 &&
              (GoBucket(n) < Cums(GoShare, before)[i] <==> Cums(GoShare, after)[i] <= GoBucket(n))
  {
    hide GoBucket, GoShare;
    var b, cs, ds := GoBucket(n), Cums(GoShare, before), Cums(GoShare, after);
    if forall i :: 0 <= i < |cs| - 1 ==> (b < cs[i] <==> b < ds[i]) {
      SamePick(b, cs, b, ds, 0);
    }
    var i :| 0 <= i < |cs| - 1 && !(b < cs[i] <==> b < ds[i]);
    assert b < cs[i] <==> ds[i] <= b;
  }

  ghost function GoMoved(before: seq<int>, after: seq<int>): set<nat> {
    set n: nat | n < TWO_60 && GoPick(n, before) != GoPick(n, after)
  }

  lemma GoMovedInBands(n: Prefix, before: seq<int>, after: seq<int>)
    requires Weighted(before) && Weighted(after) && |before| == |after| > 0
    requires n in GoMoved(before, after) && n !in Moved(before, after)
    ensures n in Bands(before, |before| - 1) + Bands(after, |before| - 1)
  {
    hide Bands, GoPick, ExactPick;
    if GoPick(n, before) != ExactPick(n, before) {
      DisagreementIsInBands(n, before);
    } else {
      DisagreementIsInBands(n, after);
    }
  }

  lemma WholeTimes(moved: nat, exact: nat, slack: nat, bound: nat)
    requires moved <= exact + 2 * slack && exact * WHOLE <= bound
    ensures moved * WHOLE <= bound + 2 * slack * WHOLE
  {
  }

  /** Rounding adds at most what it moves under either weighting. */
  lemma GoMovedAtMost(before: seq<int>, after: seq<int>)
    requires Weighted(before) && Weighted(after) && |before| == |after| > 0
    ensures var slack := (|before| - 1) * (512 * (|before| + 1) + 2);
            |GoMoved(before, after)| * WHOLE <= ChangeBound(Changes(before, after)) + 2 * slack * WHOLE
  {
    hide Bands, GoMoved, Moved, ChangeBound;
    var m := |before| - 1;
    var bands := Bands(before, m) + Bands(after, m);
    BandsSize(before, m);
    BandsSize(after, m);
    UnionSize(Bands(before, m), Bands(after, m));
    forall n | n in GoMoved(before, after) && n !in Moved(before, after) ensures n in bands {
      MovedArePrefixes(n, before, after);
      GoMovedInBands(n, before, after);
    }
    SizesApart(GoMoved(before, after), Moved(before, after), bands);
    MovedAtMost(before, after);
    WholeTimes(|GoMoved(before, after)|, |Moved(before, after)|, m * (512 * (|before| + 1) + 2),
           ChangeBound(Changes(before, after)));
  }

  lemma MovedArePrefixes(n: nat, before: seq<int>, after: seq<int>)
    requires n in GoMoved(before, after)
    ensures n < TWO_60
  {
  }

  lemma FirstCum(ws: seq<int>)
    requires |ws| > 0 && 0 <= ws[0] <= WHOLE
    ensures Cums(GoShare, ws)[0] == Round(ws[0] as real / 100000.0)
  {
    SharesEqual(ws[0]);
    RoundIdempotent(ws[0] as real / 100000.0);
    assert Cum(GoShare, ws, 1) == Float(0.0 + GoShare(ws[0]));
  }

  /** Growing the first entry keeps everyone in it, in the arithmetic that the Go code uses. */
  lemma FirstEntryKeeps(n: Prefix, before: seq<int>, after: seq<int>)
    requires |before| > 1 && |after| > 1 && 0 <= before[0] <= after[0] <= WHOLE
    requires GoPick(n, before) == 0
    ensures GoPick(n, after) == 0
  {
    FirstCum(before);
    FirstCum(after);
    RoundMonotone(before[0] as real / 100000.0, after[0] as real / 100000.0);
    hide Round, GoBucket, GoShare, Cum;
  }
}
