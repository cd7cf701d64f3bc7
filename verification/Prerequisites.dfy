/** What prerequisites mean: evaluation through the shared `visiting` map against a plain reading in which
    every prerequisite is the other flag's own answer. */
module Prerequisites {
  import opened Wrappers
  import opened Types
  import opened Clauses
  import opened Graph
  import opened Evaluator

  // ---- Flags that cannot fail to answer ----

  ghost predicate InRange(idx: int, flag: Flag) {
    0 <= idx < |flag.variations|
  }

  ghost predicate ValidPayload(p: Payload, flag: Flag) {
    && (p.variation.Some? ==> InRange(p.variation.value, flag))
    && (p.rollout.Some? ==>
          var vs := p.rollout.value.variations;
          |vs| > 0 && forall i :: 0 <= i < |vs| ==> InRange(vs[i].variation, flag))
  }

  /** Every index the evaluator may take from the flag names a variation. */
  ghost predicate ValidFlag(flag: Flag) {
    && InRange(flag.config.offVariation, flag)
    && (forall i :: 0 <= i < |flag.config.targets| ==> InRange(flag.config.targets[i].variation, flag))
    && (forall i :: 0 <= i < |flag.config.rules| ==> ValidPayload(flag.config.rules[i].serve, flag))
    && ValidPayload(flag.config.fallthrough, flag)
  }

  /** Every clause list of the flag is answered within `depth` segments. */
  ghost predicate Settled(flag: Flag, q: Request, depth: nat) {
    forall i :: 0 <= i < |flag.config.rules| ==> AllClauses(flag.config.rules[i].clauses, q, depth).Some?
  }

  ghost predicate Answering(flag: Flag, q: Request, depth: nat) {
    ValidFlag(flag) && Settled(flag, q, depth)
  }

  /** The answer is one of the flag's variations, with the value of that variation. */
  ghost predicate IsVariation(r: Outcome<Result>, flag: Flag) {
    r.Done? && InRange(r.value.variationIndex, flag) && r.value.value == flag.variations[r.value.variationIndex].value
  }

  lemma PayloadAnswers(flag: Flag, p: Payload, q: Request)
    requires ValidPayload(p, flag) && HasPayload(p)
    ensures var v := PayloadVariation(flag, p, q); v.Done? && InRange(v.value, flag)
  {
  }

  lemma OwnNeverPanics(flag: Flag, q: Request, depth: nat)
    requires ValidFlag(flag)
    ensures !Own(flag, q, depth).Panic?
  {
    var rule := FirstRule(flag.config.rules, q, depth, 0);
    if rule.Done? && rule.value.Some? {
      PayloadAnswers(flag, flag.config.rules[rule.value.value].serve, q);
    }
    if HasPayload(flag.config.fallthrough) {
      PayloadAnswers(flag, flag.config.fallthrough, q);
    }
  }

  /** A valid flag whose clause lists are answered has an answer of its own. */
  lemma OwnAnswers(flag: Flag, q: Request, depth: nat)
    requires Answering(flag, q, depth)
    ensures Own(flag, q, depth).Done?
  {
    OwnNeverPanics(flag, q, depth);
  }

  /** An answer is always a variation of the flag, since anything else is an index error. */
  lemma EvalInRange(flag: Flag, q: Request, depth: nat, visiting: set<string>)
    ensures Own(flag, q, depth).Done? ==> IsVariation(Own(flag, q, depth), flag)
    ensures Eval(flag, q, depth, visiting).Done? ==> IsVariation(Eval(flag, q, depth, visiting), flag)
  {
    hide PrerequisitesHold, FirstRule, FirstTarget, PayloadVariation;
  }

  /** The flag can serve its off variation; if it is enabled it has an answer of its own, and requires only
      flags of `ks`. */
  ghost predicate Answers(flag: Flag, ks: set<string>, q: Request, depth: nat) {
    && InRange(flag.config.offVariation, flag)
    && (flag.config.enabled ==>
          Own(flag, q, depth).Done? && forall p :: p in flag.config.prerequisites ==> p.flagKey in ks)
  }

  /** So does every flag of the store in `ks`; flags outside do not matter. */
  ghost predicate SoundOn(ks: set<string>, q: Request, depth: nat) {
    forall k :: k in ks && k in q.store.flags ==> Answers(q.store.flags[k], ks, q, depth)
  }

  /** Where every flag that prerequisites lead to has an answer of its own, so has their evaluation, whatever
      is being visited. */
  lemma {:induction false} EvalAnswers(flag: Flag, q: Request, depth: nat, visiting: set<string>, ks: set<string>)
    requires SoundOn(ks, q, depth) && Answers(flag, ks, q, depth)
    ensures IsVariation(Eval(flag, q, depth, visiting), flag)
    decreases q.store.flags.Keys - visiting, 1, 0
  {
    if flag.config.enabled {
      PrerequisitesAnswer(flag.config.prerequisites, q, depth, visiting, ks);
    }
    EvalInRange(flag, q, depth, visiting);
  }

  lemma {:induction false} PrerequisitesAnswer(ps: seq<Prerequisite>, q: Request, depth: nat, visiting: set<string>,
                                               ks: set<string>)
    requires SoundOn(ks, q, depth) && forall p :: p in ps ==> p.flagKey in ks
    ensures PrerequisitesHold(ps, q, depth, visiting).Done?
    decreases q.store.flags.Keys - visiting, 0, |ps|
  {
    if ps != [] && ps[0].flagKey in q.store.flags && ps[0].flagKey !in visiting {
      EvalAnswers(q.store.flags[ps[0].flagKey], q, depth, visiting + {ps[0].flagKey}, ks);
      PrerequisitesAnswer(ps[1..], q, depth, visiting, ks);
    }
  }

  /** With valid flags an index is never out of range, even where segments keep it from answering. */
  lemma {:induction false} EvalNeverPanics(flag: Flag, q: Request, depth: nat, visiting: set<string>)
    requires ValidFlag(flag) && forall k :: k in q.store.flags ==> ValidFlag(q.store.flags[k])
    ensures !Eval(flag, q, depth, visiting).Panic?
    ensures Eval(flag, q, depth, visiting).Done? ==> IsVariation(Eval(flag, q, depth, visiting), flag)
    decreases q.store.flags.Keys - visiting, 1, 0
  {
    if flag.config.enabled {
      PrerequisitesNeverPanic(flag.config.prerequisites, q, depth, visiting);
      OwnNeverPanics(flag, q, depth);
    }
    EvalInRange(flag, q, depth, visiting);
  }

  lemma {:induction false} PrerequisitesNeverPanic(ps: seq<Prerequisite>, q: Request, depth: nat, visiting: set<string>)
    requires forall k :: k in q.store.flags ==> ValidFlag(q.store.flags[k])
    ensures !PrerequisitesHold(ps, q, depth, visiting).Panic?
    decreases q.store.flags.Keys - visiting, 0, |ps|
  {
    if ps != [] && ps[0].flagKey in q.store.flags && ps[0].flagKey !in visiting {
      EvalNeverPanics(q.store.flags[ps[0].flagKey], q, depth, visiting + {ps[0].flagKey});
      PrerequisitesNeverPanic(ps[1..], q, depth, visiting);
    }
  }

  // ---- The plain reading ----

  /** The flag's answer when chains of prerequisites are followed for `n` steps, each prerequisite
      counting for what its flag answers, and nothing remembers which flags are being visited. */
  ghost function Meaning(flag: Flag, q: Request, depth: nat, n: nat): Outcome<Result>
    decreases n, 1
  {
    if !flag.config.enabled then Off(flag, OFF)
    else if forall p :: p in flag.config.prerequisites ==> Met(p, q, depth, n) then Own(flag, q, depth)
    else Off(flag, PREREQUISITE_FAILED)
  }

  ghost predicate Met(p: Prerequisite, q: Request, depth: nat, n: nat)
    decreases n, 0
  {
    && n > 0 && p.flagKey in q.store.flags
    && var pf := q.store.flags[p.flagKey];
    && pf.config.enabled
    && var r := Meaning(pf, q, depth, n - 1);
    && r.Done? && r.value.variationIndex == p.variation
  }

  // ---- Prerequisites as a graph ----

  ghost function Required(ps: seq<Prerequisite>): set<string> {
    set p | p in ps :: p.flagKey
  }

  /** Enabled flags and the flags they require; a chain leaves this graph at a missing or disabled flag. */
  ghost function FlagGraph(q: Request): Graph {
    map k | k in q.store.flags && q.store.flags[k].config.enabled :: Required(q.store.flags[k].config.prerequisites)
  }

  /** Enabled flags and the enabled flags they require; a chain that does not end closes a cycle. */
  ghost function LoopGraph(q: Request): Graph {
    map k | k in FlagGraph(q) :: FlagGraph(q)[k] * FlagGraph(q).Keys
  }

  /** An enabled flag whose prerequisites lead, by way of enabled flags, into a cycle. */
  ghost predicate Looping(k: string, q: Request) {
    k in LoopGraph(q) && !Grounded(LoopGraph(q), k)
  }

  lemma LoopingIff(k: string, q: Request)
    requires k in LoopGraph(q)
    ensures Looping(k, q) <==>
            exists walk :: IsWalk(LoopGraph(q), walk) && walk[0] == k && walk[|walk| - 1] in walk[..|walk| - 1]
  {
    var g := LoopGraph(q);
    GroundedIff(g, k);
    if walk :| IsWalk(g, walk) && walk[0] == k && EndsBadly(g, walk) {
      if |walk| > 1 {
        assert walk[|walk| - 1] in g[walk[|walk| - 2]];
      }
    }
    if walk :| IsWalk(g, walk) && walk[0] == k && walk[|walk| - 1] in walk[..|walk| - 1] {
      assert EndsBadly(g, walk);
    }
  }

  ghost predicate LoopFree(ps: seq<Prerequisite>, q: Request) {
    forall p :: p in ps ==> !Looping(p.flagKey, q)
  }

  // ---- Sets of flags that fail together ----

  /** The prerequisite does not hold if the flags of `failing` fail: its flag is missing or disabled or does
      not have the variation, or is one of them and asked for something else than its off variation. */
  ghost predicate FailsWith(p: Prerequisite, failing: set<string>, q: Request) {
    p.flagKey in FlagGraph(q) ==>
      || !InRange(p.variation, q.store.flags[p.flagKey])
      || (p.flagKey in failing && p.variation != q.store.flags[p.flagKey].config.offVariation)
  }

  ghost predicate Blocked(ps: seq<Prerequisite>, failing: set<string>, q: Request) {
    exists p :: p in ps && FailsWith(p, failing, q)
  }

  /** Each of these flags has a prerequisite that does not hold if all of them fail. */
  ghost predicate FailTogether(failing: set<string>, q: Request) {
    forall k :: k in failing ==> k in FlagGraph(q) && Blocked(q.store.flags[k].config.prerequisites, failing, q)
  }

  /** Some prerequisite is bound not to hold. */
  ghost predicate BoundToFail(ps: seq<Prerequisite>, q: Request) {
    exists failing: set<string> :: FailTogether(failing, q) && Blocked(ps, failing, q)
  }

  /** The flag's prerequisites lead into no cycle, or it fails whatever the flags on the cycle do. */
  ghost predicate Steady(flag: Flag, q: Request) {
    flag.config.enabled ==> LoopFree(flag.config.prerequisites, q) || BoundToFail(flag.config.prerequisites, q)
  }

  /** No prerequisite asks a flag that leads into a cycle for the variation it serves when it fails. */
  ghost predicate NoOffWanted(ps: seq<Prerequisite>, q: Request) {
    forall p :: p in ps && Looping(p.flagKey, q) ==> p.variation != q.store.flags[p.flagKey].config.offVariation
  }

  lemma LoopingPrerequisite(k: string, q: Request)
    requires Looping(k, q)
    ensures !LoopFree(q.store.flags[k].config.prerequisites, q)
  {
    var s := UngroundedSuccessor(LoopGraph(q), k);
  }

  /** Where nobody asks a flag that leads into a cycle for its off variation, every flag is steady. */
  lemma NoOffWantedIsSteady(flag: Flag, q: Request)
    requires NoOffWanted(flag.config.prerequisites, q)
    requires forall k :: k in q.store.flags ==> NoOffWanted(q.store.flags[k].config.prerequisites, q)
    ensures Steady(flag, q)
  {
    var failing := set k | k in q.store.flags && Looping(k, q);
    hide Looping;
    forall k | k in failing ensures k in FlagGraph(q) && Blocked(q.store.flags[k].config.prerequisites, failing, q) {
      LoopingIsEnabled(k, q);
      LoopingIsBlocked(k, failing, q);
    }
    assert FailTogether(failing, q);
    if p :| p in flag.config.prerequisites && Looping(p.flagKey, q) {
      LoopingIsEnabled(p.flagKey, q);
      assert FailsWith(p, failing, q);
    }
  }

  lemma LoopingIsEnabled(k: string, q: Request)
    requires Looping(k, q)
    ensures k in FlagGraph(q)
  {
  }

  lemma LoopingIsBlocked(k: string, failing: set<string>, q: Request)
    requires Looping(k, q) && NoOffWanted(q.store.flags[k].config.prerequisites, q)
    requires forall j :: j in q.store.flags && Looping(j, q) ==> j in failing
    ensures Blocked(q.store.flags[k].config.prerequisites, failing, q)
  {
    LoopingPrerequisite(k, q);
    hide Looping;
    var p :| p in q.store.flags[k].config.prerequisites && Looping(p.flagKey, q);
    LoopingIsEnabled(p.flagKey, q);
    assert FailsWith(p, failing, q);
  }

  // ---- They do fail ----

  /** Whatever is being visited, the only answer of a flag with a blocked prerequisite is its failure. */
  lemma {:induction false} BlockedFails(flag: Flag, q: Request, depth: nat, failing: set<string>, visiting: set<string>)
    requires FailTogether(failing, q) && flag.config.enabled && Blocked(flag.config.prerequisites, failing, q)
    ensures Eval(flag, q, depth, visiting).Done? ==> Eval(flag, q, depth, visiting) == Off(flag, PREREQUISITE_FAILED)
    decreases q.store.flags.Keys - visiting, 1, 0
  {
    BlockedPrerequisites(flag.config.prerequisites, q, depth, failing, visiting);
  }

  lemma {:induction false} BlockedPrerequisites(ps: seq<Prerequisite>, q: Request, depth: nat, failing: set<string>,
                                                visiting: set<string>)
    requires FailTogether(failing, q) && Blocked(ps, failing, q)
    ensures PrerequisitesHold(ps, q, depth, visiting) != Done(true)
    decreases q.store.flags.Keys - visiting, 0, |ps|
  {
    var p, k := ps[0], ps[0].flagKey;
    if k in q.store.flags && k !in visiting {
      var pf := q.store.flags[k];
      EvalInRange(pf, q, depth, visiting + {k});
      if !FailsWith(p, failing, q) {
        BlockedPrerequisites(ps[1..], q, depth, failing, visiting);
      } else if k in failing && pf.config.enabled {
        BlockedFails(pf, q, depth, failing, visiting + {k});
      }
    }
  }

  lemma MeaningInRange(flag: Flag, q: Request, depth: nat, n: nat)
    ensures Meaning(flag, q, depth, n).Done? ==> IsVariation(Meaning(flag, q, depth, n), flag)
  {
    EvalInRange(flag, q, depth, {});
    hide Own, Met, Eval;
  }

  lemma {:induction false} BlockedMeansFailure(flag: Flag, q: Request, depth: nat, failing: set<string>, n: nat)
    requires FailTogether(failing, q) && flag.config.enabled && Blocked(flag.config.prerequisites, failing, q)
    ensures Meaning(flag, q, depth, n) == Off(flag, PREREQUISITE_FAILED)
    decreases n
  {
    var p :| p in flag.config.prerequisites && FailsWith(p, failing, q);
    if n > 0 && p.flagKey in FlagGraph(q) {
      var pf := q.store.flags[p.flagKey];
      MeaningInRange(pf, q, depth, n - 1);
      if p.flagKey in failing {
        BlockedMeansFailure(pf, q, depth, failing, n - 1);
      }
    }
    assert !Met(p, q, depth, n);
  }

  // ---- Flags that lead into no cycle never notice `visiting` ----

  /** Every enabled flag that is required has rank at most `n`, and nothing being visited has. */
  ghost predicate Apart(ps: seq<Prerequisite>, q: Request, n: nat, visiting: set<string>) {
    && (forall p :: p in ps && p.flagKey in LoopGraph(q) ==> Ranked(LoopGraph(q), p.flagKey, n))
    && (forall v :: v in visiting ==> !Ranked(LoopGraph(q), v, n))
  }

  lemma RanksBelow(k: string, q: Request, n: nat)
    requires Ranked(LoopGraph(q), k, n)
    ensures forall p :: p in q.store.flags[k].config.prerequisites && p.flagKey in LoopGraph(q) ==>
              Ranked(LoopGraph(q), p.flagKey, n - 1)
  {
    var g, ps := LoopGraph(q), q.store.flags[k].config.prerequisites;
    forall p | p in ps && p.flagKey in g ensures Ranked(g, p.flagKey, n - 1) {
      assert p.flagKey in g[k];
    }
  }

  /** Visiting one more flag keeps its own prerequisites apart. */
  lemma ApartBelow(k: string, q: Request, n: nat, visiting: set<string>) returns (r: nat)
    requires Ranked(LoopGraph(q), k, n) && forall v :: v in visiting ==> !Ranked(LoopGraph(q), v, n)
    ensures r < n && Apart(q.store.flags[k].config.prerequisites, q, r, visiting + {k})
  {
    var g := LoopGraph(q);
    var rank, _ := LeastRank(g, k, n);
    r := rank - 1;
    forall v | v in visiting ensures !Ranked(g, v, r) {
      if Ranked(g, v, r) {
        RankedMonotone(g, v, r, n);
      }
    }
    RanksBelow(k, q, rank);
  }

  lemma MetHead(ps: seq<Prerequisite>, q: Request, depth: nat, m: nat)
    requires ps != []
    ensures (forall p :: p in ps ==> Met(p, q, depth, m)) <==>
            Met(ps[0], q, depth, m) && forall p :: p in ps[1..] ==> Met(p, q, depth, m)
  {
    hide Met;
    assert ps == [ps[0]] + ps[1..];
  }

  lemma {:induction false} LoopFreeAgrees(flag: Flag, q: Request, depth: nat, n: nat, visiting: set<string>, m: nat)
    requires Apart(flag.config.prerequisites, q, n, visiting) && n <= m
    ensures Eval(flag, q, depth, visiting).Done? ==> Eval(flag, q, depth, visiting) == Meaning(flag, q, depth, m)
    decreases n, 1, 0
  {
    if flag.config.enabled {
      PrerequisitesAgree(flag.config.prerequisites, q, depth, n, visiting, m);
    }
  }

  /** The loop over prerequisites found that all of them are met, or not. */
  ghost predicate Told(r: Outcome<bool>, ps: seq<Prerequisite>, q: Request, depth: nat, m: nat) {
    r.Done? ==> (r.value <==> forall p :: p in ps ==> Met(p, q, depth, m))
  }

  lemma {:induction false} PrerequisitesAgree(ps: seq<Prerequisite>, q: Request, depth: nat, n: nat,
                                              visiting: set<string>, m: nat)
    requires Apart(ps, q, n, visiting) && n <= m
    ensures Told(PrerequisitesHold(ps, q, depth, visiting), ps, q, depth, m)
    decreases n, 0, |ps|
  {
    hide Ranked, Own, Eval, Meaning, Met, PrerequisitesHold, Told;
    if ps == [] {
      HoldsNothing(q, depth, visiting, m);
    } else if ps[0].flagKey !in LoopGraph(q) {
      AbsentFails(ps, q, depth, visiting, m);
    } else {
      var k := ps[0].flagKey;
      RankedAtAll(LoopGraph(q), k, n);
      var pf := q.store.flags[k];
      var r := ApartBelow(k, q, n, visiting);
      LoopFreeAgrees(pf, q, depth, r, visiting + {k}, m - 1);
      PrerequisitesAgree(ps[1..], q, depth, n, visiting, m);
      HoldsStep(ps, q, depth, visiting, m);
    }
  }

  lemma RankedAtAll(g: Graph, k: string, n: nat)
    requires Ranked(g, k, n)
    ensures n > 0
  {
  }

  lemma HoldsNothing(q: Request, depth: nat, visiting: set<string>, m: nat)
    ensures Told(PrerequisitesHold([], q, depth, visiting), [], q, depth, m)
  {
  }

  /** A missing or disabled flag ends the loop over prerequisites. */
  lemma AbsentFails(ps: seq<Prerequisite>, q: Request, depth: nat, visiting: set<string>, m: nat)
    requires ps != [] && ps[0].flagKey !in LoopGraph(q)
    ensures Told(PrerequisitesHold(ps, q, depth, visiting), ps, q, depth, m)
  {
    assert !Met(ps[0], q, depth, m);
    hide Eval, Met;
  }

  /** If the first prerequisite's flag answers what it means, and the rest hold when they are met, all do. */
  lemma HoldsStep(ps: seq<Prerequisite>, q: Request, depth: nat, visiting: set<string>, m: nat)
    requires ps != [] && m > 0 && ps[0].flagKey in q.store.flags && ps[0].flagKey !in visiting
    requires var k := ps[0].flagKey; var pf := q.store.flags[k];
             Eval(pf, q, depth, visiting + {k}).Done? ==>
               Eval(pf, q, depth, visiting + {k}) == Meaning(pf, q, depth, m - 1)
    requires Told(PrerequisitesHold(ps[1..], q, depth, visiting), ps[1..], q, depth, m)
    ensures Told(PrerequisitesHold(ps, q, depth, visiting), ps, q, depth, m)
  {
    hide Eval, Meaning;
    MetHead(ps, q, depth, m);
  }

  // ---- The same with two sets of visited flags ----

  /** Nothing that is visited in either way is a flag of small rank, so the two ways cannot differ. */
  lemma {:induction false} LoopFreeIgnores(flag: Flag, q: Request, depth: nat, n: nat, all: set<string>,
                                           v: set<string>, w: set<string>)
    requires Apart(flag.config.prerequisites, q, n, all) && v <= all && w <= all && all <= LoopGraph(q).Keys
    ensures Eval(flag, q, depth, v) == Eval(flag, q, depth, w)
    decreases n, 1, 0
  {
    if flag.config.enabled {
      PrerequisitesIgnore(flag.config.prerequisites, q, depth, n, all, v, w);
    }
  }

  lemma {:induction false} PrerequisitesIgnore(ps: seq<Prerequisite>, q: Request, depth: nat, n: nat, all: set<string>,
                                               v: set<string>, w: set<string>)
    requires Apart(ps, q, n, all) && v <= all && w <= all && all <= LoopGraph(q).Keys
    ensures PrerequisitesHold(ps, q, depth, v) == PrerequisitesHold(ps, q, depth, w)
    decreases n, 0, |ps|
  {
    hide Ranked, Own, Eval, PrerequisitesHold;
    if ps != [] {
      var k := ps[0].flagKey;
      if k in LoopGraph(q) {
        var r := ApartBelow(k, q, n, all);
        LoopFreeIgnores(q.store.flags[k], q, depth, r, all + {k}, v + {k}, w + {k});
      } else if k in q.store.flags {
        DisabledAnswer(q.store.flags[k], q, depth, v + {k}, w + {k});
      }
      PrerequisitesIgnore(ps[1..], q, depth, n, all, v, w);
      HoldsAlike(ps, q, depth, v, w);
    } else {
      NothingHolds(q, depth, v, w);
    }
  }

  lemma DisabledAnswer(flag: Flag, q: Request, depth: nat, v: set<string>, w: set<string>)
    requires !flag.config.enabled
    ensures Eval(flag, q, depth, v) == Eval(flag, q, depth, w)
  {
  }

  lemma NothingHolds(q: Request, depth: nat, v: set<string>, w: set<string>)
    ensures PrerequisitesHold([], q, depth, v) == PrerequisitesHold([], q, depth, w)
  {
  }

  lemma HoldsAlike(ps: seq<Prerequisite>, q: Request, depth: nat, v: set<string>, w: set<string>)
    requires ps != [] && ps[0].flagKey !in v && ps[0].flagKey !in w
    requires var k := ps[0].flagKey; k in q.store.flags ==>
               Eval(q.store.flags[k], q, depth, v + {k}) == Eval(q.store.flags[k], q, depth, w + {k})
    requires PrerequisitesHold(ps[1..], q, depth, v) == PrerequisitesHold(ps[1..], q, depth, w)
    ensures PrerequisitesHold(ps, q, depth, v) == PrerequisitesHold(ps, q, depth, w)
  {
    hide Eval;
  }

  // ---- Main results ----

  lemma GraphSize(q: Request)
    ensures |LoopGraph(q)| <= |q.store.flags|
  {
    assert LoopGraph(q).Keys <= q.store.flags.Keys;
    CardinalityMonotone(LoopGraph(q).Keys, q.store.flags.Keys);
  }

  /** What evaluation of a steady flag answers is the plain reading: of every flag on a store without cycles, and
      on other stores of every flag that leads into no cycle or that fails whatever happens there. */
  lemma EvaluationIsMeaning(flag: Flag, q: Request, depth: nat)
    requires Evaluation(flag, q, depth).Done? && Steady(flag, q)
    ensures Evaluation(flag, q, depth) == Meaning(flag, q, depth, |q.store.flags|)
  {
    var ps := flag.config.prerequisites;
    if flag.config.enabled {
      if LoopFree(ps, q) {
        GraphSize(q);
        LoopFreeAgrees(flag, q, depth, |LoopGraph(q)|, {}, |q.store.flags|);
      } else {
        var failing: set<string> :| FailTogether(failing, q) && Blocked(ps, failing, q);
        BlockedFails(flag, q, depth, failing, {});
        BlockedMeansFailure(flag, q, depth, failing, |q.store.flags|);
      }
    }
  }

  /** A chain as evaluation follows it: enabled flags, each requiring the next one; `k` is the last. */
  ghost predicate IsPath(path: seq<string>, k: string, q: Request) {
    && |path| > 0 && path[|path| - 1] == k && k in q.store.flags
    && forall i :: 0 <= i < |path| - 1 ==> path[i] in FlagGraph(q) && path[i + 1] in FlagGraph(q)[path[i]]
  }

  lemma {:induction false} RankOnPath(path: seq<string>, k: string, q: Request, i: nat, n: nat)
    requires IsPath(path, k, q) && i < |path| && Ranked(LoopGraph(q), path[i], n) && k in LoopGraph(q)
    ensures Ranked(LoopGraph(q), k, n)
    decreases |path| - i
  {
    if i < |path| - 1 {
      assert path[i + 1] in LoopGraph(q)[path[i]];
      RankOnPath(path, k, q, i + 1, n - 1);
      RankedMonotone(LoopGraph(q), k, n - 1, n);
    }
  }

  lemma ApartOnPath(path: seq<string>, k: string, q: Request) returns (n: nat)
    requires IsPath(path, k, q) && Grounded(LoopGraph(q), k)
    ensures n <= |q.store.flags| && Apart(q.store.flags[k].config.prerequisites, q, n, Elements(path))
  {
    var g := LoopGraph(q);
    GraphSize(q);
    var rank, _ := LeastRank(g, k, |g|);
    n := rank - 1;
    forall v | v in Elements(path) ensures !Ranked(g, v, n) {
      var i :| 0 <= i < |path| && path[i] == v;
      if Ranked(g, v, n) {
        RankOnPath(path, k, q, i, n);
      }
    }
    RanksBelow(k, q, rank);
  }

  lemma PathInGraph(path: seq<string>, k: string, q: Request)
    requires IsPath(path, k, q) && k in LoopGraph(q)
    ensures Elements(path) <= LoopGraph(q).Keys
  {
    forall v | v in Elements(path) ensures v in LoopGraph(q) {
      var i :| 0 <= i < |path| && path[i] == v;
    }
  }

  /** How evaluation of a flag that leads into no cycle ends does not depend on the path by which it was
      reached: it ends as it does at top level, an index error or a missing answer included. */
  lemma PathNeverMatters(path: seq<string>, k: string, q: Request, depth: nat)
    requires IsPath(path, k, q) && !Looping(k, q)
    ensures Eval(q.store.flags[k], q, depth, Elements(path)) == Evaluation(q.store.flags[k], q, depth)
  {
    var flag := q.store.flags[k];
    if flag.config.enabled {
      PathInGraph(path, k, q);
      var n := ApartOnPath(path, k, q);
      LoopFreeIgnores(flag, q, depth, n, Elements(path), Elements(path), {});
    } else {
      DisabledAnswer(flag, q, depth, Elements(path), {});
    }
  }

  /** The answer of a steady flag as a prerequisite is the one it gives on its own. */
  lemma PrerequisiteIsItsOwnAnswer(path: seq<string>, k: string, q: Request, depth: nat)
    requires IsPath(path, k, q) && Steady(q.store.flags[k], q)
    ensures var here, alone := Eval(q.store.flags[k], q, depth, Elements(path)), Evaluation(q.store.flags[k], q, depth);
            (here.Done? && alone.Done?) || !Looping(k, q) ==> here == alone
  {
    var flag := q.store.flags[k];
    if Looping(k, q) {
      LoopingPrerequisite(k, q);
      var failing: set<string> :| FailTogether(failing, q) && Blocked(flag.config.prerequisites, failing, q);
      BlockedFails(flag, q, depth, failing, Elements(path));
      BlockedFails(flag, q, depth, failing, {});
    } else {
      PathNeverMatters(path, k, q, depth);
    }
  }

  // ---- Cycles ----

  /** Among `ps` there is a prerequisite on `k`, and none of them asks `k` for its off variation. */
  ghost predicate AsksClosed(ps: seq<Prerequisite>, k: string, q: Request) {
    && k in Required(ps)
    && forall p :: p in ps && p.flagKey == k && k in FlagGraph(q) ==>
         p.variation != q.store.flags[k].config.offVariation
  }

  lemma AskedIsBlocked(ps: seq<Prerequisite>, k: string, failing: set<string>, q: Request)
    requires AsksClosed(ps, k, q) && (k in FlagGraph(q) ==> k in failing)
    ensures Blocked(ps, failing, q)
  {
    var p :| p in ps && p.flagKey == k;
    assert FailsWith(p, failing, q);
  }

  /** The enabled flags on a walk that ends badly fail together, if no link asks for an off variation. */
  lemma BadWalkFails(walk: seq<string>, q: Request) returns (failing: set<string>)
    requires IsWalk(FlagGraph(q), walk) && EndsBadly(FlagGraph(q), walk)
    requires forall i :: 0 <= i < |walk| - 1 ==>
               AsksClosed(q.store.flags[walk[i]].config.prerequisites, walk[i + 1], q)
    ensures FailTogether(failing, q) && (walk[0] in FlagGraph(q) ==> walk[0] in failing)
  {
    var g := FlagGraph(q);
    failing := set k | k in walk && k in g;
    forall k | k in failing ensures Blocked(q.store.flags[k].config.prerequisites, failing, q) {
      var i :| 0 <= i < |walk| - 1 && walk[i] == k;
      AskedIsBlocked(q.store.flags[k].config.prerequisites, walk[i + 1], failing, q);
    }
  }

  /** Cycles fail closed: an enabled flag from which prerequisites lead to a missing flag, a disabled
      flag or a flag already passed answers nothing but its off variation, wherever the walk starts and
      however long it is, if no prerequisite along the walk asks for the off variation of its flag.  It does
      answer if the flags that its prerequisites lead to have answers. */
  lemma CyclesFailClosed(flag: Flag, q: Request, depth: nat, walk: seq<string>, visiting: set<string>, ks: set<string>)
    requires flag.config.enabled && IsWalk(FlagGraph(q), walk) && EndsBadly(FlagGraph(q), walk)
    requires AsksClosed(flag.config.prerequisites, walk[0], q)
    requires forall i :: 0 <= i < |walk| - 1 ==>
               AsksClosed(q.store.flags[walk[i]].config.prerequisites, walk[i + 1], q)
    ensures var r, off := Eval(flag, q, depth, visiting), flag.config.offVariation;
            && (r.Done? ==>
                  InRange(off, flag) && r == Done(Result(off, flag.variations[off].value, PREREQUISITE_FAILED)))
            && (SoundOn(ks, q, depth) && Answers(flag, ks, q, depth) ==> r.Done?)
  {
    var failing := BadWalkFails(walk, q);
    AskedIsBlocked(flag.config.prerequisites, walk[0], failing, q);
    BlockedFails(flag, q, depth, failing, visiting);
    if SoundOn(ks, q, depth) && Answers(flag, ks, q, depth) {
      EvalAnswers(flag, q, depth, visiting, ks);
    }
    hide Eval, SoundOn, Answers;
  }
}
