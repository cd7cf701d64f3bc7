/** What the control plane accepts as targeting (control-plane/app/schemas/flag.py, segment.py, and
    `_validate_indices` of control-plane/app/api/flags.py). */
module Schemas {
  import opened Wrappers
  import opened Types
  import opened Bucketing
  import opened BucketAgreement
  import opened Evaluator
  import opened Prerequisites
  import opened JsonBoundary

  predicate IsOperator(op: string) {
    op in {"in", "endsWith", "startsWith", "matches", "contains", "lessThan", "greaterThan", "before", "after",
           "semVerEqual", "semVerLess", "semVerGreater", "segmentMatch"}
  }

  predicate AcceptsClauses(cs: seq<Clause>) {
    |cs| > 0 && forall i :: 0 <= i < |cs| ==> IsOperator(cs[i].op)
  }

  predicate AcceptsRollout(r: Rollout) {
    && (forall i :: 0 <= i < |r.variations| ==> 0 <= r.variations[i].variation && 0 <= r.variations[i].weight <= WHOLE)
    && Sum(Weights(r.variations)) == WHOLE
  }

  /** Exactly one of variation and rollout, and that one in order. */
  predicate AcceptsPayload(p: Payload) {
    && p.variation.None? != p.rollout.None?
    && (p.variation.Some? ==> 0 <= p.variation.value)
    && (p.rollout.Some? ==> AcceptsRollout(p.rollout.value))
  }

  predicate AcceptsConfig(c: Config) {
    && (forall i :: 0 <= i < |c.targets| ==> 0 <= c.targets[i].variation)
    && (forall i :: 0 <= i < |c.rules| ==> AcceptsClauses(c.rules[i].clauses) && AcceptsPayload(c.rules[i].serve))
    && AcceptsPayload(c.fallthrough)
    && 0 <= c.offVariation
    && forall i :: 0 <= i < |c.prerequisites| ==> 0 <= c.prerequisites[i].variation
  }

  predicate AcceptsSegmentRules(rules: seq<SegmentRule>) {
    forall i :: 0 <= i < |rules| ==> AcceptsClauses(rules[i].clauses)
  }

  /** KEY_PATTERN: a lower-case letter or digit, then any of these and `.`, `_`, `-`; at most 64 in all. */
  predicate AcceptsKey(key: string) {
    && 0 < |key| <= 64
    && (forall i :: 0 <= i < |key| ==> 'a' <= key[i] <= 'z' || '0' <= key[i] <= '9' || key[i] in "._-")
    && key[0] !in "._-"
  }

  predicate AcceptsVariations(kind: string, vs: seq<Variation>) {
    && (kind == "boolean" || kind == "multivariate")
    && |vs| >= 2 && (kind == "boolean" ==> |vs| == 2)
    && forall i :: 0 <= i < |vs| ==> |vs[i].name| <= 128
  }

  // ---- The index check ----

  ghost predicate PayloadInRange(p: Payload, count: nat) {
    && (p.variation.Some? ==> 0 <= p.variation.value < count)
    && (p.rollout.Some? ==>
          forall i :: 0 <= i < |p.rollout.value.variations| ==> 0 <= p.rollout.value.variations[i].variation < count)
  }

  ghost predicate IndicesInRange(c: Config, count: nat) {
    && 0 <= c.offVariation < count
    && (forall i :: 0 <= i < |c.targets| ==> 0 <= c.targets[i].variation < count)
    && (forall i :: 0 <= i < |c.rules| ==> PayloadInRange(c.rules[i].serve, count))
    && PayloadInRange(c.fallthrough, count)
  }

  /** Where a reference to a variation that does not exist was found. */
  datatype Complaint = Complaint(place: string, index: int)

  method CheckPayload(p: Payload, count: nat, place: string) returns (bad: seq<Complaint>)
    ensures |bad| == 0 <==> PayloadInRange(p, count)
    ensures forall b :: b in bad ==> !(0 <= b.index < count)
  {
    bad := [];
    if p.variation.Some? && !(0 <= p.variation.value < count) {
      bad := bad + [Complaint(place, p.variation.value)];
    }
    if p.rollout.Some? {
      var vs := p.rollout.value.variations;
      for i := 0 to |vs|
        invariant |bad| == 0 <==> (p.variation.Some? ==> 0 <= p.variation.value < count)
                                  && forall j :: 0 <= j < i ==> 0 <= vs[j].variation < count
        invariant forall b :: b in bad ==> !(0 <= b.index < count)
      {
        if !(0 <= vs[i].variation < count) {
          bad := bad + [Complaint(place + ".rollout", vs[i].variation)];
        }
      }
    }
  }

  /** Nothing is complained about exactly when every index is in range; prerequisites are not looked at. */
  method ValidateIndices(c: Config, count: nat) returns (bad: seq<Complaint>)
    ensures |bad| == 0 <==> IndicesInRange(c, count)
    ensures forall b :: b in bad ==> !(0 <= b.index < count)
  {
    bad := if 0 <= c.offVariation < count then [] else [Complaint("offVariation", c.offVariation)];
    for i := 0 to |c.targets|
      invariant |bad| == 0 <==> 0 <= c.offVariation < count
                                && forall j :: 0 <= j < i ==> 0 <= c.targets[j].variation < count
      invariant forall b :: b in bad ==> !(0 <= b.index < count)
    {
      if !(0 <= c.targets[i].variation < count) {
        bad := bad + [Complaint("target", c.targets[i].variation)];
      }
    }
    for i := 0 to |c.rules|
      invariant |bad| == 0 <==> 0 <= c.offVariation < count
                                && (forall j :: 0 <= j < |c.targets| ==> 0 <= c.targets[j].variation < count)
                                && forall j :: 0 <= j < i ==> PayloadInRange(c.rules[j].serve, count)
      invariant forall b :: b in bad ==> !(0 <= b.index < count)
    {
      var more := CheckPayload(c.rules[i].serve, count, "rule");
      bad := bad + more;
    }
    var more := CheckPayload(c.fallthrough, count, "fallthrough");
    bad := bad + more;
  }

  // ---- What acceptance gives the evaluator ----

  lemma RolloutNotEmpty(r: Rollout)
    requires AcceptsRollout(r)
    ensures |r.variations| > 0
  {
  }

  lemma PayloadIsValid(p: Payload, flag: Flag)
    requires AcceptsPayload(p) && PayloadInRange(p, |flag.variations|)
    ensures ValidPayload(p, flag) && HasPayload(p)
  {
    if p.rollout.Some? {
      RolloutNotEmpty(p.rollout.value);
    }
  }

  ghost predicate WholePayload(p: Payload) {
    p.rollout.Some? ==> Weighted(Weights(p.rollout.value.variations))
  }

  /** The weights of all rollouts of the flag add up. */
  ghost predicate WholeRollouts(flag: Flag) {
    WholePayload(flag.config.fallthrough) && forall r :: r in flag.config.rules ==> WholePayload(r.serve)
  }

  lemma AcceptedIsWhole(flag: Flag)
    requires AcceptsConfig(flag.config)
    ensures WholeRollouts(flag)
  {
  }

  /** A config that passes the schema and the index check cannot take the evaluator out of range. */
  lemma AcceptedIsValid(flag: Flag)
    requires AcceptsConfig(flag.config) && IndicesInRange(flag.config, |flag.variations|)
    ensures ValidFlag(flag)
  {
    forall i | 0 <= i < |flag.config.rules| ensures ValidPayload(flag.config.rules[i].serve, flag) {
      PayloadIsValid(flag.config.rules[i].serve, flag);
    }
    PayloadIsValid(flag.config.fallthrough, flag);
  }

  // ---- What acceptance gives the data plane ----

  lemma PayloadIsReadable(p: Payload, count: nat)
    requires AcceptsPayload(p) && PayloadInRange(p, count) && count <= 0x8000_0000_0000_0000
    ensures ReadablePayload(p)
  {
  }

  /** Nothing bounds the variation that a prerequisite asks for, and nothing looks at clause values.  An accepted
      config, of a flag with at most 2^63 variations, comes back from the database as it was put there exactly
      when the former fit 64 bits and the numbers in the latter are binary64 numbers. */
  lemma AcceptedRoundTripIff(c: Config, count: nat)
    requires AcceptsConfig(c) && IndicesInRange(c, count) && count <= 0x8000_0000_0000_0000
    ensures ReadConfig(DumpConfig(c)).Some? <==>
            && (forall i :: 0 <= i < |c.prerequisites| ==> c.prerequisites[i].variation < 0x8000_0000_0000_0000)
            && forall i :: 0 <= i < |c.rules| ==> ReadableClauses(c.rules[i].clauses)
    ensures ReadConfig(DumpConfig(c)) == Some(c) <==>
            && ReadConfig(DumpConfig(c)).Some?
            && forall i :: 0 <= i < |c.rules| ==> ExactClauses(c.rules[i].clauses)
  {
    ConfigReads(c);
    ConfigRoundTripIff(c);
    forall i | 0 <= i < |c.rules| ensures ReadablePayload(c.rules[i].serve) {
      PayloadIsReadable(c.rules[i].serve, count);
    }
    PayloadIsReadable(c.fallthrough, count);
    hide ReadConfig, DumpConfig, ReadableClauses, ExactClauses, AcceptsClauses, AcceptsPayload, ReadablePayload;
  }

  /** Asks another flag for a variation beyond 64 bits. */
  const HUGE_PREREQUISITE: Config :=
    Config(true, [], [], Payload(Some(0), None), 0, [Prerequisite("x", 0x1_0000_0000_0000_0000)])

  /** It is accepted for every flag, and cannot be read. */
  lemma HugePrerequisiteUnreadable(count: nat)
    requires count > 0
    ensures AcceptsConfig(HUGE_PREREQUISITE) && IndicesInRange(HUGE_PREREQUISITE, count)
    ensures ReadConfig(DumpConfig(HUGE_PREREQUISITE)).None?
  {
    ConfigReads(HUGE_PREREQUISITE);
    assert !InInt64(HUGE_PREREQUISITE.prerequisites[0].variation);
  }
}
