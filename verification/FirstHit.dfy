/** Evaluation order, stated with quantifiers: off, prerequisites, targets, rules, fallthrough; first hit wins. */
module FirstHit {
  import opened Wrappers
  import opened Types
  import opened Clauses
  import opened Segments
  import opened Bucketing
  import opened Graph
  import opened Evaluator
  import opened Prerequisites

  /** The prerequisite names an enabled flag of the store, not being visited, that answers the required
      variation where evaluation comes to it. */
  ghost predicate Granted(p: Prerequisite, q: Request, depth: nat, visiting: set<string>) {
    && p.flagKey in q.store.flags && p.flagKey !in visiting
    && q.store.flags[p.flagKey].config.enabled
    && var r := Eval(q.store.flags[p.flagKey], q, depth, visiting + {p.flagKey});
    && r.Done? && r.value.variationIndex == p.variation
  }

  /** The prerequisite names an enabled flag of the store that answers, on its own, the required variation. */
  ghost predicate Satisfied(p: Prerequisite, q: Request, depth: nat) {
    && p.flagKey in q.store.flags
    && q.store.flags[p.flagKey].config.enabled
    && var r := Evaluation(q.store.flags[p.flagKey], q, depth);
    && r.Done? && r.value.variationIndex == p.variation
  }

  ghost predicate ServesPayload(idx: int, flag: Flag, p: Payload, q: Request) {
    match p
    case Payload(Some(v), _) => idx == v
    case Payload(None, Some(r)) => RolloutVariation(flag, r, q) == Done(idx)
    case Payload(None, None) => false
  }

  /** The target lists the text that the context has for its key of the target's kind. */
  ghost predicate Targeted(t: Target, q: Request) {
    && t.contextKind in q.ctx.kinds && "key" in q.ctx.kinds[t.contextKind]
    && exists k :: k in t.keys && q.ctx.kinds[t.contextKind]["key"] == Text(k)
  }

  /** `members` has the segments that evaluation finds the context in, and none that it finds it not in. */
  ghost predicate TellsAnswers(members: set<string>, q: Request, depth: nat) {
    members <= q.store.segments.Keys && Agrees(members, q, depth)
  }

  /** Every solution of the membership equations does that, whatever the depth. */
  lemma MembershipTells(members: set<string>, q: Request, depth: nat)
    requires IsMembership(members, q)
    ensures TellsAnswers(members, q, depth)
  {
    SegmentSound(q, depth, members);
  }

  /** All clauses of the rule hold, `segmentMatch` clauses by the segments in `members`. */
  ghost predicate RuleHolds(rule: Rule, q: Request, members: set<string>) {
    HasPayload(rule.serve) && forall c :: c in rule.clauses ==> ClauseHolds(c, q, members)
  }

  ghost predicate TargetDecides(idx: int, cfg: Config, q: Request) {
    exists i :: 0 <= i < |cfg.targets| && Targeted(cfg.targets[i], q) && idx == cfg.targets[i].variation
                && forall j :: 0 <= j < i ==> !Targeted(cfg.targets[j], q)
  }

  ghost predicate RuleDecides(idx: int, flag: Flag, q: Request, members: set<string>) {
    var rules := flag.config.rules;
    exists i :: 0 <= i < |rules| && RuleHolds(rules[i], q, members) && ServesPayload(idx, flag, rules[i].serve, q)
                && forall j :: 0 <= j < i ==> !RuleHolds(rules[j], q, members)
  }

  ghost predicate NoTarget(cfg: Config, q: Request) {
    forall i :: 0 <= i < |cfg.targets| ==> !Targeted(cfg.targets[i], q)
  }

  ghost predicate NoRule(cfg: Config, q: Request, members: set<string>) {
    forall i :: 0 <= i < |cfg.rules| ==> !RuleHolds(cfg.rules[i], q, members)
  }

  /** Variation `idx` for reason `why` is what the evaluation order prescribes, given whether all
      prerequisites hold. */
  ghost predicate Prescribed(idx: int, why: Reason, flag: Flag, q: Request, members: set<string>, allowed: bool) {
    var cfg := flag.config;
    match why
    case OFF => !cfg.enabled && idx == cfg.offVariation
    case PREREQUISITE_FAILED => cfg.enabled && !allowed && idx == cfg.offVariation
    case TARGET_MATCH => cfg.enabled && allowed && TargetDecides(idx, cfg, q)
    case RULE_MATCH => cfg.enabled && allowed && NoTarget(cfg, q) && RuleDecides(idx, flag, q, members)
    case FALLTHROUGH =>
      && cfg.enabled && allowed && NoTarget(cfg, q) && NoRule(cfg, q, members)
      && if HasPayload(cfg.fallthrough) then ServesPayload(idx, flag, cfg.fallthrough, q) else idx == cfg.offVariation
  }

  lemma RuleHoldsAsFound(rule: Rule, q: Request, depth: nat, members: set<string>)
    requires AllClauses(rule.clauses, q, depth).Some? && TellsAnswers(members, q, depth)
    ensures Applies(rule, q, depth) <==> RuleHolds(rule, q, members)
  {
    ClausesSound(rule.clauses, q, depth, members);
  }

  lemma RuleStage(flag: Flag, q: Request, depth: nat, members: set<string>)
    requires FirstRule(flag.config.rules, q, depth, 0).Done? && TellsAnswers(members, q, depth)
    ensures match FirstRule(flag.config.rules, q, depth, 0).value
            case Some(j) => RuleHolds(flag.config.rules[j], q, members)
                            && forall m :: 0 <= m < j ==> !RuleHolds(flag.config.rules[m], q, members)
            case None => NoRule(flag.config, q, members)
  {
    hide RuleHolds, Applies, TellsAnswers;
    var rules := flag.config.rules;
    forall m | 0 <= m < |rules| && AllClauses(rules[m].clauses, q, depth).Some?
      ensures Applies(rules[m], q, depth) <==> RuleHolds(rules[m], q, members)
    {
      RuleHoldsAsFound(rules[m], q, depth, members);
    }
    if j :| FirstRule(rules, q, depth, 0).value == Some(j) {
      AppliesIsAnswered(rules[j], q, depth);
    }
  }

  lemma AppliesIsAnswered(rule: Rule, q: Request, depth: nat)
    requires Applies(rule, q, depth)
    ensures AllClauses(rule.clauses, q, depth).Some?
  {
  }

  /** What the loops of the flag's own stages return, declaratively. */
  lemma OwnPrescribed(flag: Flag, q: Request, depth: nat, members: set<string>)
    requires Own(flag, q, depth).Done? && TellsAnswers(members, q, depth)
    ensures var r := Own(flag, q, depth).value;
            match r.reason
            case TARGET_MATCH => TargetDecides(r.variationIndex, flag.config, q)
            case RULE_MATCH => NoTarget(flag.config, q) && RuleDecides(r.variationIndex, flag, q, members)
            case FALLTHROUGH =>
              NoTarget(flag.config, q) && NoRule(flag.config, q, members)
              && (if HasPayload(flag.config.fallthrough)
                  then ServesPayload(r.variationIndex, flag, flag.config.fallthrough, q)
                  else r.variationIndex == flag.config.offVariation)
            case _ => false
  {
    hide RuleHolds, TellsAnswers, RolloutVariation;
    if FirstTarget(flag.config.targets, q, 0).None? {
      RuleStage(flag, q, depth, members);
    }
  }

  lemma GrantedHead(ps: seq<Prerequisite>, q: Request, depth: nat, visiting: set<string>)
    requires ps != []
    ensures (forall p :: p in ps ==> Granted(p, q, depth, visiting)) <==>
            Granted(ps[0], q, depth, visiting) && forall p :: p in ps[1..] ==> Granted(p, q, depth, visiting)
  {
    hide Granted;
    assert ps == [ps[0]] + ps[1..];
  }

  lemma {:induction false} PrerequisiteStage(ps: seq<Prerequisite>, q: Request, depth: nat, visiting: set<string>)
    ensures var ok := PrerequisitesHold(ps, q, depth, visiting);
            ok.Done? ==> (ok.value <==> forall p :: p in ps ==> Granted(p, q, depth, visiting))
  {
    hide Eval;
    if ps != [] {
      PrerequisiteStage(ps[1..], q, depth, visiting);
      GrantedHead(ps, q, depth, visiting);
    }
  }

  lemma PrescribedUnique(i: int, v: Reason, j: int, w: Reason, flag: Flag, q: Request, members: set<string>,
                         allowed: bool)
    requires Prescribed(i, v, flag, q, members, allowed) && Prescribed(j, w, flag, q, members, allowed)
    ensures i == j && v == w
  {
    hide RuleHolds, Targeted, RolloutVariation;
  }

  lemma ResultPrescribed(flag: Flag, q: Request, depth: nat, visiting: set<string>, members: set<string>)
    requires Eval(flag, q, depth, visiting).Done? && TellsAnswers(members, q, depth)
    ensures var r := Eval(flag, q, depth, visiting).value;
            var allowed := forall p :: p in flag.config.prerequisites ==> Granted(p, q, depth, visiting);
            Prescribed(r.variationIndex, r.reason, flag, q, members, allowed)
  {
    hide Own, TellsAnswers, PrerequisitesHold, TargetDecides, RuleDecides, Granted;
    PrerequisiteStage(flag.config.prerequisites, q, depth, visiting);
    if Own(flag, q, depth).Done? {
      OwnPrescribed(flag, q, depth, members);
    }
  }

  /** Wherever in the recursion a flag is evaluated and on whatever store: if evaluation answers, the answer is
      the prescribed one, and nothing else is prescribed. */
  lemma FirstHitWins(flag: Flag, q: Request, depth: nat, visiting: set<string>, members: set<string>,
                     idx: int, why: Reason)
    requires Eval(flag, q, depth, visiting).Done? && TellsAnswers(members, q, depth)
    ensures var allowed := forall p :: p in flag.config.prerequisites ==> Granted(p, q, depth, visiting);
            Prescribed(idx, why, flag, q, members, allowed) <==>
            InRange(idx, flag) && Eval(flag, q, depth, visiting) == Done(Result(idx, flag.variations[idx].value, why))
  {
    hide Eval, Granted, Prescribed, TellsAnswers;
    EvalInRange(flag, q, depth, visiting);
    ResultPrescribed(flag, q, depth, visiting, members);
    var r := Eval(flag, q, depth, visiting);
    var allowed := forall p :: p in flag.config.prerequisites ==> Granted(p, q, depth, visiting);
    if Prescribed(idx, why, flag, q, members, allowed) {
      PrescribedUnique(idx, why, r.value.variationIndex, r.value.reason, flag, q, members, allowed);
    }
  }

  // ---- Prerequisites as their flags answer on their own ----

  lemma GrantedIsSatisfied(p: Prerequisite, q: Request, depth: nat)
    requires !Looping(p.flagKey, q)
    ensures Granted(p, q, depth, {}) <==> Satisfied(p, q, depth)
  {
    hide Eval, Looping;
    if p.flagKey in q.store.flags {
      assert Elements([p.flagKey]) == {p.flagKey} == {} + {p.flagKey};
      PathNeverMatters([p.flagKey], p.flagKey, q, depth);
    }
  }

  lemma BlockedByBoth(p: Prerequisite, q: Request, depth: nat, failing: set<string>)
    requires FailTogether(failing, q) && FailsWith(p, failing, q)
    ensures !Granted(p, q, depth, {}) && !Satisfied(p, q, depth)
  {
    hide Eval;
    if p.flagKey in FlagGraph(q) {
      var pf := q.store.flags[p.flagKey];
      EvalInRange(pf, q, depth, {});
      EvalInRange(pf, q, depth, {} + {p.flagKey});
      if p.flagKey in failing {
        BlockedFails(pf, q, depth, failing, {});
        BlockedFails(pf, q, depth, failing, {} + {p.flagKey});
      }
    }
  }

  lemma AllowedAlike(flag: Flag, q: Request, depth: nat)
    requires Steady(flag, q) && flag.config.enabled
    ensures (forall p :: p in flag.config.prerequisites ==> Granted(p, q, depth, {})) <==>
            forall p :: p in flag.config.prerequisites ==> Satisfied(p, q, depth)
  {
    hide Granted, Satisfied;
    var ps := flag.config.prerequisites;
    if LoopFree(ps, q) {
      forall p | p in ps ensures Granted(p, q, depth, {}) <==> Satisfied(p, q, depth) {
        GrantedIsSatisfied(p, q, depth);
      }
    } else {
      var failing: set<string> :| FailTogether(failing, q) && Blocked(ps, failing, q);
      var p :| p in ps && FailsWith(p, failing, q);
      BlockedByBoth(p, q, depth, failing);
    }
  }

  /** For a steady flag at top level the prerequisites count by what their flags answer on their own. */
  lemma FirstHitOnOwnAnswers(flag: Flag, q: Request, depth: nat, members: set<string>, idx: int, why: Reason)
    requires Evaluation(flag, q, depth).Done? && TellsAnswers(members, q, depth) && Steady(flag, q)
    ensures var allowed := forall p :: p in flag.config.prerequisites ==> Satisfied(p, q, depth);
            Prescribed(idx, why, flag, q, members, allowed) <==>
            InRange(idx, flag) && Evaluation(flag, q, depth) == Done(Result(idx, flag.variations[idx].value, why))
  {
    hide Granted, Satisfied, Eval, TellsAnswers, Steady, TargetDecides, RuleDecides, NoTarget, NoRule;
    FirstHitWins(flag, q, depth, {}, members, idx, why);
    if flag.config.enabled {
      AllowedAlike(flag, q, depth);
    }
  }
}
