/** Percentage rollouts: hash prefix to bucket, bucket to position in the list of weights
    (sdk/go/flageval/bucket.go, and its second implementation conformance/reference_bucket.py). */
module Bucketing {
  import opened Wrappers
  import opened Types
  import opened Values
  import opened Clauses
  import opened Binary64

  const TWO_60: int := 0x1000_0000_0000_0000
  const DENOM: int := 0xFFF_FFFF_FFFF_FFFF
  const WHOLE: int := 100_000

  /** `float64(n) / denom`: two conversions and a division, each rounded. */
  function GoBucket(n: Prefix): real {
    assert Round(DENOM as real) >= 1.0 by { RoundDenom(); }
    Float(Float(n as real) / Float(DENOM as real))
  }

  /** `int / int` in Python: the true quotient, rounded once. */
  function PythonBucket(n: Prefix): real {
    Float(n as real / DENOM as real)
  }

  lemma RoundDenom()
    ensures Round(DENOM as real) == TWO_60 as real
  {
    var x := DENOM as real / 128.0;
    assert RoundHalfEven(x) == 0x20_0000_0000_0000;
    RoundTimes16(8.0 * x);
    RoundDoubles(x);
    RoundDoubles(2.0 * x);
    RoundDoubles(4.0 * x);
  }

  /** `float64(w) / 100000.0` in Go. */
  function GoShare(w: int): real {
    assert Round(100000.0) == 100000.0 by { SmallInteger(WHOLE); }
    Float(Float(w as real) / Float(100000.0))
  }

  /** `w / 100_000` in Python. */
  function PythonShare(w: int): real {
    Float(w as real / 100000.0)
  }

  /** Integers below 2^53 are binary64 numbers. */
  lemma SmallInteger(n: nat)
    requires n < 0x20_0000_0000_0000
    ensures IsFloat(n as real)
  {
    IntegerIsExact(n as real, n);
  }

  /** The value of `cum` after `k` entries. */
  function Cum(share: int -> real, ws: seq<int>, k: nat): real
    requires k <= |ws|
  {
    if k == 0 then 0.0 else Float(Cum(share, ws, k - 1) + share(ws[k - 1]))
  }

  function Cums(share: int -> real, ws: seq<int>): (cs: seq<real>)
    ensures |cs| == |ws| && forall i :: 0 <= i < |ws| ==> cs[i] == Cum(share, ws, i + 1)
  {
    seq(|ws|, i requires 0 <= i < |ws| => Cum(share, ws, i + 1))
  }

  /** The first position at or after `from` whose cumulative share is above `b`, or else the last one. */
  function Pick(b: real, cs: seq<real>, from: nat): (p: int)
    requires from <= |cs|
    ensures from <= p < |cs| || p == |cs| - 1
    ensures 0 <= p < |cs| - 1 ==> b < cs[p]
    ensures forall j :: from <= j < p ==> cs[j] <= b
    decreases |cs| - from
  {
    if from == |cs| then |cs| - 1
    else if b < cs[from] then from
    else Pick(b, cs, from + 1)
  }

  function Sum(ws: seq<int>): int {
    if ws == [] then 0 else Sum(ws[..|ws| - 1]) + ws[|ws| - 1]
  }

  /** The exact cumulative share of the first `k` entries. */
  function Boundary(ws: seq<int>, k: nat): real
    requires k <= |ws|
  {
    Sum(ws[..k]) as real / 100000.0
  }

  function Boundaries(ws: seq<int>): (cs: seq<real>)
    ensures |cs| == |ws| && forall i :: 0 <= i < |ws| ==> cs[i] == Boundary(ws, i + 1)
  {
    seq(|ws|, i requires 0 <= i < |ws| => Boundary(ws, i + 1))
  }

  /** The positions the two implementations choose, and the one of exact arithmetic. */
  function GoPick(n: Prefix, ws: seq<int>): int {
    Pick(GoBucket(n), Cums(GoShare, ws), 0)
  }

  function PythonPick(n: Prefix, ws: seq<int>): int {
    Pick(PythonBucket(n), Cums(PythonShare, ws), 0)
  }

  function ExactPick(n: nat, ws: seq<int>): int {
    Pick(n as real / DENOM as real, Boundaries(ws), 0)
  }

  function Weights(vs: seq<WeightedVariation>): (ws: seq<int>)
    ensures |ws| == |vs| && forall i :: 0 <= i < |vs| ==> ws[i] == vs[i].weight
  {
    seq(|vs|, i requires 0 <= i < |vs| => vs[i].weight)
  }

  /** The string that is hashed: key, salt and the bucket-by value, empty when the context lacks it. */
  function HashInput(flag: Flag, r: Rollout, q: Request): string {
    var value := match q.ctx.Attr(r.contextKind, if r.bucketBy == "" then "key" else r.bucketBy)
                 case Some(v) => AsString(v, q.lib)
                 case None => "";
    flag.key + "." + flag.salt + "." + value
  }

  /** The variation a rollout serves; an empty list of weights is an index error. */
  function RolloutVariation(flag: Flag, r: Rollout, q: Request): Outcome<int> {
    var p := GoPick(q.lib.sha1Prefix(HashInput(flag, r, q)), Weights(r.variations));
    if p < 0 then Panic else Done(r.variations[p].variation)
  }

  // ---- The loops of the two implementations ----

  method BucketVariation(flag: Flag, r: Rollout, q: Request) returns (v: Outcome<int>)
    ensures v == RolloutVariation(flag, r, q)
  {
    var bucketBy := r.bucketBy;
    if bucketBy == "" {
      bucketBy := "key";
    }
    var value := "";
    var attr := q.ctx.Attr(r.contextKind, bucketBy);
    if attr.Some? {
      value := AsString(attr.value, q.lib);
    }
    var b := GoBucket(q.lib.sha1Prefix(flag.key + "." + flag.salt + "." + value));

    var p := PickPosition(b, r.variations);
    if p < 0 {
      return Panic;
    }
    v := Done(r.variations[p].variation);
  }

  method PickPosition(b: real, vs: seq<WeightedVariation>) returns (p: int)
    ensures p == Pick(b, Cums(GoShare, Weights(vs)), 0)
  {
    hide Round, GoShare;
    var cum := 0.0;
    ghost var cs := Cums(GoShare, Weights(vs));
    for i := 0 to |vs|
      invariant cum == Cum(GoShare, Weights(vs), i)
      invariant Pick(b, cs, 0) == Pick(b, cs, i)
    {
      cum := Float(cum + GoShare(vs[i].weight));
      assert cum == cs[i];
      if b < cum {
        return i;
      }
    }
    p := |vs| - 1;
  }

  method ReferenceRolloutVariation(b: real, weights: seq<int>) returns (p: int)
    ensures p == Pick(b, Cums(PythonShare, weights), 0)
  {
    hide Round, PythonShare;
    var cum := 0.0;
    ghost var cs := Cums(PythonShare, weights);
    for i := 0 to |weights|
      invariant cum == Cum(PythonShare, weights, i)
      invariant Pick(b, cs, 0) == Pick(b, cs, i)
    {
      cum := Float(cum + PythonShare(weights[i]));
      assert cum == cs[i];
      if b < cum {
        return i;
      }
    }
    p := |weights| - 1;
  }
}
