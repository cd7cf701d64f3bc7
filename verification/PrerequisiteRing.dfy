/** Flags that require each other in a ring: exactly when the ring fails closed. */
module PrerequisiteRing {
  import opened Wrappers
  import opened Types
  import opened Clauses
  import opened Graph
  import opened Evaluator
  import opened Prerequisites

  /** Enabled flags, each with the next one as its only prerequisite, and the first one after the last. */
  ghost predicate IsRing(ks: seq<string>, q: Request) {
    && |ks| > 0
    && (forall i, j :: 0 <= i < j < |ks| ==> ks[i] != ks[j])
    && forall i :: 0 <= i < |ks| ==>
         && ks[i] in q.store.flags
         && var cfg := q.store.flags[ks[i]].config;
         && cfg.enabled && |cfg.prerequisites| == 1
         && cfg.prerequisites[0].flagKey == Closed(ks)[i + 1]
  }

  ghost function Closed(ks: seq<string>): (ring: seq<string>)
    requires |ks| > 0
    ensures |ring| == |ks| + 1 && ring[|ks|] == ks[0] && forall i :: 0 <= i < |ks| ==> ring[i] == ks[i]
  {
    ks + [ks[0]]
  }

  ghost function At(ks: seq<string>, i: nat, q: Request): Flag
    requires IsRing(ks, q) && i <= |ks|
  {
    q.store.flags[Closed(ks)[i]]
  }

  /** The variation that flag `i` requires of the next one. */
  ghost function Wanted(ks: seq<string>, i: nat, q: Request): int
    requires IsRing(ks, q) && i < |ks|
  {
    At(ks, i, q).config.prerequisites[0].variation
  }

  ghost predicate WantsOff(ks: seq<string>, i: nat, q: Request)
    requires IsRing(ks, q) && i < |ks|
  {
    Wanted(ks, i, q) == At(ks, i + 1, q).config.offVariation
  }

  ghost predicate WantsVariation(ks: seq<string>, i: nat, q: Request)
    requires IsRing(ks, q) && i < |ks|
  {
    InRange(Wanted(ks, i, q), At(ks, i + 1, q))
  }

  /** At or after flag `i` some link asks for an off variation, and every link before that one asks for
      a variation that exists. */
  ghost predicate OpenFrom(ks: seq<string>, i: nat, q: Request)
    requires IsRing(ks, q)
    decreases |ks| - i
  {
    i < |ks| && (WantsOff(ks, i, q) || (WantsVariation(ks, i, q) && OpenFrom(ks, i + 1, q)))
  }

  /** Requests that agree on everything about flags but targets, rules and fallthrough. */
  ghost predicate SameSkeleton(q: Request, r: Request) {
    && r.store.flags.Keys == q.store.flags.Keys
    && forall k :: k in q.store.flags ==> SameFlagSkeleton(q.store.flags[k], r.store.flags[k])
  }

  ghost predicate SameFlagSkeleton(f: Flag, g: Flag) {
    && g.variations == f.variations && g.config.enabled == f.config.enabled
    && g.config.offVariation == f.config.offVariation && g.config.prerequisites == f.config.prerequisites
  }

  // ---- Evaluation around the ring ----

  /** What is being visited when evaluation has come to flag `i` of the ring. */
  ghost function Visited(ks: seq<string>, i: nat): set<string>
    requires 0 < |ks| && i <= |ks|
  {
    if i == 0 then {} else Visited(ks, i - 1) + {Closed(ks)[i]}
  }

  ghost function Answer(ks: seq<string>, i: nat, q: Request, depth: nat): Outcome<Result>
    requires IsRing(ks, q) && i <= |ks|
  {
    Eval(At(ks, i, q), q, depth, Visited(ks, i))
  }

  lemma {:induction false} VisitedIff(ks: seq<string>, i: nat, x: string)
    requires 0 < |ks| && i <= |ks|
    ensures x in Visited(ks, i) <==> exists j :: 0 < j <= i && Closed(ks)[j] == x
  {
    if i > 0 {
      VisitedIff(ks, i - 1, x);
    }
  }

  lemma NextIsNew(ks: seq<string>, i: nat, q: Request)
    requires IsRing(ks, q) && i < |ks|
    ensures Closed(ks)[i + 1] !in Visited(ks, i)
  {
    VisitedIff(ks, i, Closed(ks)[i + 1]);
  }

  /** A flag with a single prerequisite goes by whether that flag's answer is the wanted one. */
  lemma SinglePrerequisite(f: Flag, q: Request, depth: nat, visiting: set<string>)
    requires f.config.enabled && |f.config.prerequisites| == 1
    ensures var p := f.config.prerequisites[0];
            if p.flagKey !in q.store.flags || p.flagKey in visiting then
              Eval(f, q, depth, visiting) == Off(f, PREREQUISITE_FAILED)
            else
              var pf := q.store.flags[p.flagKey];
              var a := Eval(pf, q, depth, visiting + {p.flagKey});
              pf.config.enabled ==>
                && (a.Done? ==>
                      Eval(f, q, depth, visiting) == if a.value.variationIndex == p.variation then Own(f, q, depth)
                                                     else Off(f, PREREQUISITE_FAILED))
                && (!a.Done? ==> !Eval(f, q, depth, visiting).Done?)
  {
    hide Own, Off;
    var ps := f.config.prerequisites;
    assert PrerequisitesHold(ps[1..], q, depth, visiting) == Done(true);
  }

  lemma RingMember(ks: seq<string>, i: nat, q: Request)
    requires IsRing(ks, q) && i <= |ks|
    ensures At(ks, i, q).config.enabled && |At(ks, i, q).config.prerequisites| == 1
    ensures Closed(ks)[i] in q.store.flags
    ensures At(ks, i, q).config.prerequisites[0].flagKey == Closed(ks)[if i == |ks| then 1 else i + 1]
  {
    assert ks[0] in q.store.flags;
  }

  /** One step along the ring: the next flag answers if this one does, and decides what this one answers. */
  lemma AnswerStep(ks: seq<string>, i: nat, q: Request, depth: nat)
    requires IsRing(ks, q) && i < |ks|
    ensures var here, next := Answer(ks, i, q, depth), Answer(ks, i + 1, q, depth);
            && (here.Done? ==> next.Done?)
            && (next.Done? ==>
                  && IsVariation(next, At(ks, i + 1, q))
                  && here == if next.value.variationIndex == Wanted(ks, i, q) then Own(At(ks, i, q), q, depth)
                             else Off(At(ks, i, q), PREREQUISITE_FAILED))
  {
    hide Own, Off, Eval;
    NextIsNew(ks, i, q);
    RingMember(ks, i, q);
    RingMember(ks, i + 1, q);
    EvalInRange(At(ks, i + 1, q), q, depth, Visited(ks, i + 1));
    SinglePrerequisite(At(ks, i, q), q, depth, Visited(ks, i));
  }

  /** Coming back to the first flag, evaluation finds the flag after it being visited. */
  lemma AnswerAtClosing(ks: seq<string>, q: Request, depth: nat)
    requires IsRing(ks, q)
    ensures Answer(ks, |ks|, q, depth) == Off(At(ks, |ks|, q), PREREQUISITE_FAILED)
  {
    var ring := Closed(ks);
    VisitedIff(ks, |ks|, ring[1]);
    RingMember(ks, |ks|, q);
    SinglePrerequisite(At(ks, |ks|, q), q, depth, Visited(ks, |ks|));
  }

  lemma {:induction false} ClosedRingFails(ks: seq<string>, i: nat, q: Request, depth: nat)
    requires IsRing(ks, q) && i <= |ks| && !OpenFrom(ks, i, q) && Answer(ks, i, q, depth).Done?
    ensures Answer(ks, i, q, depth) == Off(At(ks, i, q), PREREQUISITE_FAILED)
    decreases |ks| - i
  {
    if i == |ks| {
      AnswerAtClosing(ks, q, depth);
    } else {
      AnswerStep(ks, i, q, depth);
      if !OpenFrom(ks, i + 1, q) {
        ClosedRingFails(ks, i + 1, q, depth);
      }
    }
  }

  // ---- A way to fill in the rest of the flags that lets an open ring pass ----

  /** The flag serves `idx` to everyone, or its off variation when there is no variation `idx`. */
  ghost function Serving(f: Flag, idx: int): Flag {
    f.(config := f.config.(targets := [], rules := [],
                           fallthrough := Payload(Some(if InRange(idx, f) then idx else f.config.offVariation), None)))
  }

  ghost function WantedOf(ks: seq<string>, k: string, q: Request): int
    requires IsRing(ks, q) && k in q.store.flags
  {
    if i :| 0 < i < |ks| && ks[i] == k then Wanted(ks, i - 1, q) else q.store.flags[k].config.offVariation
  }

  ghost function Obliging(ks: seq<string>, q: Request): Request
    requires IsRing(ks, q)
  {
    var flags := map k | k in q.store.flags :: Serving(q.store.flags[k], WantedOf(ks, k, q));
    q.(store := q.store.(flags := flags))
  }

  /** The off variations of the ring's flags exist. */
  ghost predicate OffsInRange(ks: seq<string>, q: Request)
    requires IsRing(ks, q)
  {
    forall i :: 0 <= i <= |ks| ==> InRange(At(ks, i, q).config.offVariation, At(ks, i, q))
  }

  lemma SkeletonKeepsRing(ks: seq<string>, q: Request, r: Request)
    requires IsRing(ks, q) && SameSkeleton(q, r)
    ensures IsRing(ks, r)
    ensures forall i :: 0 <= i <= |ks| ==> SameFlagSkeleton(At(ks, i, q), At(ks, i, r))
  {
    forall i | 0 <= i <= |ks| ensures Closed(ks)[i] in q.store.flags {
      assert i < |ks| ==> ks[i] in q.store.flags;
      assert ks[0] in q.store.flags;
    }
  }

  lemma {:induction false} SkeletonKeepsOpen(ks: seq<string>, i: nat, q: Request, r: Request)
    requires IsRing(ks, q) && SameSkeleton(q, r) && IsRing(ks, r)
    ensures OpenFrom(ks, i, q) == OpenFrom(ks, i, r)
    decreases |ks| - i
  {
    if i < |ks| {
      SkeletonKeepsRing(ks, q, r);
      assert SameFlagSkeleton(At(ks, i, q), At(ks, i, r)) && SameFlagSkeleton(At(ks, i + 1, q), At(ks, i + 1, r));
      SkeletonKeepsOpen(ks, i + 1, q, r);
    }
  }

  lemma ObligingKeepsSkeleton(ks: seq<string>, q: Request)
    requires IsRing(ks, q)
    ensures SameSkeleton(q, Obliging(ks, q))
  {
  }

  lemma ObligingIsSound(ks: seq<string>, i: nat, q: Request, depth: nat, visiting: set<string>)
    requires IsRing(ks, q) && OffsInRange(ks, q) && i <= |ks|
    ensures IsRing(ks, Obliging(ks, q)) && Eval(At(ks, i, Obliging(ks, q)), Obliging(ks, q), depth, visiting).Done?
  {
    var r, members := Obliging(ks, q), Elements(ks);
    ObligingKeepsSkeleton(ks, q);
    SkeletonKeepsRing(ks, q, r);
    forall k | k in members ensures k in r.store.flags && Answers(r.store.flags[k], members, r, depth) {
      var j: nat :| j < |ks| && ks[j] == k;
      ObligingAnswers(ks, j, q, depth);
    }
    assert Closed(ks)[i] in members;
    hide IsRing, Answers, Obliging, Eval;
    EvalAnswers(At(ks, i, r), r, depth, visiting, members);
  }

  lemma ObligingAt(ks: seq<string>, j: nat, q: Request)
    requires IsRing(ks, q) && j < |ks|
    ensures ks[j] in q.store.flags && ks[j] in Obliging(ks, q).store.flags
    ensures Obliging(ks, q).store.flags[ks[j]] == Serving(At(ks, j, q), WantedOf(ks, ks[j], q))
  {
    hide WantedOf, Serving;
  }

  lemma RequiresRing(ks: seq<string>, j: nat, q: Request)
    requires IsRing(ks, q) && j < |ks|
    ensures forall p :: p in At(ks, j, q).config.prerequisites ==> p.flagKey in Elements(ks)
  {
    hide IsRing;
    RingMember(ks, j, q);
    assert Closed(ks)[j + 1] in ks;
  }

  lemma ObligingAnswers(ks: seq<string>, j: nat, q: Request, depth: nat)
    requires IsRing(ks, q) && OffsInRange(ks, q) && j < |ks|
    ensures var r := Obliging(ks, q); ks[j] in r.store.flags && Answers(r.store.flags[ks[j]], Elements(ks), r, depth)
  {
    hide Obliging, WantedOf, Serving, Answers, IsRing;
    ObligingAt(ks, j, q);
    RequiresRing(ks, j, q);
    ServingAnswers(At(ks, j, q), WantedOf(ks, ks[j], q), Elements(ks), Obliging(ks, q), depth);
  }

  lemma ServingAnswers(f: Flag, idx: int, members: set<string>, q: Request, depth: nat)
    requires InRange(f.config.offVariation, f) && forall p :: p in f.config.prerequisites ==> p.flagKey in members
    ensures Answers(Serving(f, idx), members, q, depth)
  {
    var i := if InRange(idx, f) then idx else f.config.offVariation;
    assert Serving(f, idx) == Serving(f, i);
    ServingServes(f, i, q, depth);
    hide Own;
  }

  /** Every flag after the first serves what the flag before it wants, if it can. */
  lemma ObligingServes(ks: seq<string>, i: nat, q: Request, depth: nat)
    requires IsRing(ks, q) && OffsInRange(ks, q) && 0 < i < |ks| && WantsVariation(ks, i - 1, q)
    ensures var r := Obliging(ks, q);
            IsRing(ks, r) && var o := Own(At(ks, i, r), r, depth); o.Done? && o.value.variationIndex == Wanted(ks, i - 1, q)
  {
    var r := Obliging(ks, q);
    ObligingKeepsSkeleton(ks, q);
    SkeletonKeepsRing(ks, q, r);
    assert ks[i] in q.store.flags && WantedOf(ks, ks[i], q) == Wanted(ks, i - 1, q);
    ServingServes(At(ks, i, q), Wanted(ks, i - 1, q), r, depth);
    hide Own, IsRing;
  }

  lemma ServingServes(f: Flag, idx: int, q: Request, depth: nat)
    requires InRange(idx, f)
    ensures Own(Serving(f, idx), q, depth) == Done(Result(idx, f.variations[idx].value, FALLTHROUGH))
  {
  }

  lemma OffAtNext(ks: seq<string>, i: nat, q: Request)
    requires IsRing(ks, q) && OffsInRange(ks, q) && i < |ks|
    ensures WantsOff(ks, i, q) ==> WantsVariation(ks, i, q)
  {
    RingMember(ks, i + 1, q);
  }

  lemma {:induction false} OpenRingPasses(ks: seq<string>, i: nat, q: Request, depth: nat)
    requires IsRing(ks, q) && OffsInRange(ks, q) && i < |ks| && OpenFrom(ks, i, q)
    ensures IsRing(ks, Obliging(ks, q))
    ensures Answer(ks, i, Obliging(ks, q), depth) == Own(At(ks, i, Obliging(ks, q)), Obliging(ks, q), depth)
    decreases |ks| - i
  {
    hide Own, Eval, IsRing, OffsInRange, Obliging, SameSkeleton;
    var r := Obliging(ks, q);
    ObligingKeepsSkeleton(ks, q);
    SkeletonKeepsRing(ks, q, r);
    assert SameFlagSkeleton(At(ks, i, q), At(ks, i, r)) && SameFlagSkeleton(At(ks, i + 1, q), At(ks, i + 1, r));
    OffAtNext(ks, i, q);
    ObligingIsSound(ks, i + 1, q, depth, Visited(ks, i + 1));
    assert Answer(ks, i + 1, r, depth).Done?;
    AnswerStep(ks, i, r, depth);
    if i + 1 == |ks| {
      AnswerAtClosing(ks, r, depth);
    } else {
      AnswerStep(ks, i + 1, r, depth);
      if !WantsOff(ks, i, q) {
        OpenRingPasses(ks, i + 1, q, depth);
      }
      ObligingServes(ks, i + 1, q, depth);
    }
  }

  // ---- Main results ----

  /** The flag's evaluation answers nothing but its off variation, as a failure. */
  ghost predicate OnlyFails(k: string, q: Request, depth: nat)
    requires k in q.store.flags
  {
    var flag := q.store.flags[k];
    Evaluation(flag, q, depth).Done? ==> Evaluation(flag, q, depth) == Off(flag, PREREQUISITE_FAILED)
  }

  /** A ring of prerequisites fails closed, whatever the flags' targets, rules and fallthroughs are, exactly
      when no link that evaluation can come to asks for the off variation of the flag it names. */
  lemma RingFailsClosedIff(ks: seq<string>, q: Request)
    requires IsRing(ks, q) && OffsInRange(ks, q)
    ensures !OpenFrom(ks, 0, q) <==> forall r: Request, depth :: SameSkeleton(q, r) ==> OnlyFails(ks[0], r, depth)
  {
    if !OpenFrom(ks, 0, q) {
      forall r: Request, depth | SameSkeleton(q, r) ensures OnlyFails(ks[0], r, depth) {
        SkeletonKeepsRing(ks, q, r);
        SkeletonKeepsOpen(ks, 0, q, r);
        if Evaluation(r.store.flags[ks[0]], r, depth).Done? {
          ClosedRingFails(ks, 0, r, depth);
        }
      }
    } else {
      var r := Obliging(ks, q);
      ObligingKeepsSkeleton(ks, q);
      OpenRingPasses(ks, 0, q, 0);
      ServesNormally(ks, q);
      assert !OnlyFails(ks[0], r, 0);
    }
  }

  lemma ServesNormally(ks: seq<string>, q: Request)
    requires IsRing(ks, q) && OffsInRange(ks, q)
    ensures var r := Obliging(ks, q); var f := r.store.flags[ks[0]];
            Own(f, r, 0).Done? && Own(f, r, 0) != Off(f, PREREQUISITE_FAILED)
  {
    ObligingAnswers(ks, 0, q, 0);
  }

  // ---- A concrete ring that does not fail closed ----

  /** On or off; off variation 0, fallthrough 1; requires one other flag. */
  function OneOfTwo(key: string, other: string, wanted: int): Flag {
    var cfg := Config(true, [], [], Payload(Some(1), None), 0, [Prerequisite(other, wanted)]);
    Flag(key, "", "boolean", [Variation("Off", Bool(false)), Variation("On", Bool(true))], cfg)
  }

  /** `a` wants the off variation of `b`, and `b` requires `a`.  Evaluating `a` goes once around the cycle
      and serves the fallthrough; on the way, `a` as a prerequisite of `b` answers something else. */
  lemma CycleCanPass(q: Request, depth: nat)
    requires q.store.flags == map["a" := OneOfTwo("a", "b", 0), "b" := OneOfTwo("b", "a", 1)]
    ensures var a := q.store.flags["a"];
            && Evaluation(a, q, depth) == Done(Result(1, Bool(true), FALLTHROUGH))
            && Eval(a, q, depth, {"b", "a"}) == Done(Result(0, Bool(false), PREREQUISITE_FAILED))
  {
    var a, b := q.store.flags["a"], q.store.flags["b"];
    assert {"b"} + {"a"} == {"b", "a"} && {} + {"b"} == {"b"};
    SinglePrerequisite(a, q, depth, {"b", "a"});
    SinglePrerequisite(b, q, depth, {"b"});
    SinglePrerequisite(a, q, depth, {});
  }
}
