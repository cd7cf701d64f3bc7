/** Evaluation of one flag for one context (sdk/go/flageval/eval.go). */
module Evaluator {
  import opened Wrappers
  import opened Types
  import opened Clauses
  import opened Bucketing
  import opened Graph

  // ---- Stages ----

  function Hit(flag: Flag, idx: int, reason: Reason): Outcome<Result> {
    if 0 <= idx < |flag.variations| then Done(Result(idx, flag.variations[idx].value, reason)) else Panic
  }

  function Off(flag: Flag, reason: Reason): Outcome<Result> {
    Hit(flag, flag.config.offVariation, reason)
  }

  /** The context's key, for the target's kind, is listed. */
  predicate Lists(t: Target, q: Request) {
    var k := q.ctx.Key(t.contextKind);
    k.Some? && k.value in t.keys
  }

  /** The least target at or after `i` that lists the context. */
  function FirstTarget(ts: seq<Target>, q: Request, i: nat): (r: Option<nat>)
    requires i <= |ts|
    ensures match r
            case Some(j) => i <= j < |ts| && Lists(ts[j], q) && forall m :: i <= m < j ==> !Lists(ts[m], q)
            case None => forall m :: i <= m < |ts| ==> !Lists(ts[m], q)
    decreases |ts| - i
  {
    if i == |ts| then None else if Lists(ts[i], q) then Some(i) else FirstTarget(ts, q, i + 1)
  }

  predicate HasPayload(p: Payload) {
    p.variation.Some? || p.rollout.Some?
  }

  predicate Applies(rule: Rule, q: Request, depth: nat) {
    AllClauses(rule.clauses, q, depth) == Some(true) && HasPayload(rule.serve)
  }

  /** The least rule at or after `i` whose clauses all match and that has something to serve. */
  function FirstRule(rules: seq<Rule>, q: Request, depth: nat, i: nat): (r: Outcome<Option<nat>>)
    requires i <= |rules|
    ensures match r
            case Done(Some(j)) =>
              && i <= j < |rules| && Applies(rules[j], q, depth)
              && forall m :: i <= m < j ==> !Applies(rules[m], q, depth) && AllClauses(rules[m].clauses, q, depth).Some?
            case Done(None) =>
              forall m :: i <= m < |rules| ==> !Applies(rules[m], q, depth) && AllClauses(rules[m].clauses, q, depth).Some?
            case Stuck =>
              exists j :: i <= j < |rules| && AllClauses(rules[j].clauses, q, depth).None?
            case Panic => false
    decreases |rules| - i
  {
    if i == |rules| then Done(None)
    else
      match AllClauses(rules[i].clauses, q, depth)
      case None => Stuck
      case Some(b) => if b && HasPayload(rules[i].serve) then Done(Some(i)) else FirstRule(rules, q, depth, i + 1)
  }

  /** The variation of a payload: the fixed one if there is one, or else the rollout's. */
  function PayloadVariation(flag: Flag, p: Payload, q: Request): Outcome<int>
    requires HasPayload(p)
  {
    if p.variation.Some? then Done(p.variation.value) else RolloutVariation(flag, p.rollout.value, q)
  }

  /** Targets, rules and fallthrough of a flag whose prerequisites hold. */
  function Own(flag: Flag, q: Request, depth: nat): Outcome<Result> {
    match FirstTarget(flag.config.targets, q, 0)
    case Some(t) => Hit(flag, flag.config.targets[t].variation, TARGET_MATCH)
    case None =>
      var rule :- FirstRule(flag.config.rules, q, depth, 0);
      match rule
      case Some(r) =>
        var idx :- PayloadVariation(flag, flag.config.rules[r].serve, q);
        Hit(flag, idx, RULE_MATCH)
      case None =>
        if HasPayload(flag.config.fallthrough) then
          var idx :- PayloadVariation(flag, flag.config.fallthrough, q);
          Hit(flag, idx, FALLTHROUGH)
        else Off(flag, FALLTHROUGH)
  }

  // ---- The recursion through prerequisites ----

  function Eval(flag: Flag, q: Request, depth: nat, visiting: set<string>): Outcome<Result>
    decreases q.store.flags.Keys - visiting, 1, 0
  {
    if !flag.config.enabled then Off(flag, OFF)
    else
      var ok :- PrerequisitesHold(flag.config.prerequisites, q, depth, visiting);
      if ok then Own(flag, q, depth) else Off(flag, PREREQUISITE_FAILED)
  }

  function PrerequisitesHold(ps: seq<Prerequisite>, q: Request, depth: nat, visiting: set<string>): Outcome<bool>
    decreases q.store.flags.Keys - visiting, 0, |ps|
  {
    if ps == [] then Done(true)
    else
      var p := ps[0];
      if p.flagKey !in q.store.flags || p.flagKey in visiting then Done(false)
      else
        var pf := q.store.flags[p.flagKey];
        var res :- Eval(pf, q, depth, visiting + {p.flagKey});
        if !pf.config.enabled || res.variationIndex != p.variation then Done(false)
        else PrerequisitesHold(ps[1..], q, depth, visiting)
  }

  /** `Evaluate` starts with nothing being visited, the flag itself included. */
  function Evaluation(flag: Flag, q: Request, depth: nat): Outcome<Result> {
    Eval(flag, q, depth, {})
  }

  // ---- The code of the source ----

  /** Go's `map[string]bool`, shared by the whole recursion. */
  class Visiting {
    var marks: map<string, bool>

    constructor ()
      ensures marks == map[]
    {
      marks := map[];
    }

    function Marked(): set<string>
      reads this
    {
      set k | k in marks && marks[k]
    }
  }

  method Evaluate(flag: Flag, q: Request, depth: nat) returns (r: Outcome<Result>)
    ensures r == Evaluation(flag, q, depth)
  {
    var visiting := new Visiting();
    assert Elements<string>([]) == {};
    r := EvaluateVisiting(flag, q, depth, visiting, []);
  }

  /** `path` is the chain of prerequisite keys from the root to this flag.  The shared map marks exactly
      these keys, so the recursion is never deeper than the number of flags, and whoever gets an answer
      back finds the map as it was. */
  method EvaluateVisiting(flag: Flag, q: Request, depth: nat, visiting: Visiting, ghost path: seq<string>)
    returns (r: Outcome<Result>)
    requires visiting.marks.Keys == visiting.Marked() == Elements(path)
    requires Elements(path) <= q.store.flags.Keys
    requires forall i, j :: 0 <= i < j < |path| ==> path[i] != path[j]
    modifies visiting
    ensures r == Eval(flag, q, depth, Elements(path))
    ensures r.Done? ==> visiting.marks == old(visiting.marks)
    ensures |path| <= |q.store.flags|
    decreases |q.store.flags| - |path|
  {
    PathLength(path, q.store.flags.Keys);
    hide Own, Off;
    var cfg := flag.config;
    if !cfg.enabled {
      return Off(flag, OFF);
    }

    ghost var seen := Elements(path);
    for i := 0 to |cfg.prerequisites|
      invariant visiting.marks == old(visiting.marks)
      invariant PrerequisitesHold(cfg.prerequisites, q, depth, seen)
             == PrerequisitesHold(cfg.prerequisites[i..], q, depth, seen)
    {
      var p := cfg.prerequisites[i];
      assert cfg.prerequisites[i..][1..] == cfg.prerequisites[i + 1..];
      if p.flagKey !in q.store.flags || (p.flagKey in visiting.marks && visiting.marks[p.flagKey]) {
        return Off(flag, PREREQUISITE_FAILED);
      }
      var pf := q.store.flags[p.flagKey];
      ghost var longer := path + [p.flagKey];
      assert Elements(longer) == seen + {p.flagKey};
      PathLength(longer, q.store.flags.Keys);
      visiting.marks := visiting.marks[p.flagKey := true];
      var res := EvaluateVisiting(pf, q, depth, visiting, longer);
      if !res.Done? {
        return res;
      }
      visiting.marks := visiting.marks - {p.flagKey};
      if !pf.config.enabled || res.value.variationIndex != p.variation {
        return Off(flag, PREREQUISITE_FAILED);
      }
    }

    r := EvaluateOwn(flag, q, depth);
  }

  lemma PathLength(path: seq<string>, keys: set<string>)
    requires Elements(path) <= keys && forall i, j :: 0 <= i < j < |path| ==> path[i] != path[j]
    ensures |path| <= |keys|
  {
    DistinctSize(path);
    CardinalityMonotone(Elements(path), keys);
  }

  lemma {:induction false} DistinctSize(path: seq<string>)
    requires forall i, j :: 0 <= i < j < |path| ==> path[i] != path[j]
    ensures |Elements(path)| == |path|
  {
    if path != [] {
      var m := |path| - 1;
      DistinctSize(path[..m]);
      assert Elements(path) == Elements(path[..m]) + {path[m]};
    }
  }

  method EvaluateOwn(flag: Flag, q: Request, depth: nat) returns (r: Outcome<Result>)
    ensures r == Own(flag, q, depth)
  {
    var cfg := flag.config;
    for i := 0 to |cfg.targets|
      invariant FirstTarget(cfg.targets, q, 0) == FirstTarget(cfg.targets, q, i)
    {
      var t := cfg.targets[i];
      var k := q.ctx.Key(t.contextKind);
      if k.Some? {
        for j := 0 to |t.keys|
          invariant k.value !in t.keys[..j]
        {
          if t.keys[j] == k.value {
            return Hit(flag, t.variation, TARGET_MATCH);
          }
        }
        assert t.keys[..|t.keys|] == t.keys;
      }
    }
    for i := 0 to |cfg.rules|
      invariant FirstRule(cfg.rules, q, depth, 0) == FirstRule(cfg.rules, q, depth, i)
    {
      var rule := cfg.rules[i];
      var b := MatchClauses(rule.clauses, q, depth);
      if b.None? {
        return Stuck;
      }
      if b.value {
        if rule.serve.variation.Some? {
          return Hit(flag, rule.serve.variation.value, RULE_MATCH);
        }
        if rule.serve.rollout.Some? {
          var v :- BucketVariation(flag, rule.serve.rollout.value, q);
          return Hit(flag, v, RULE_MATCH);
        }
      }
    }
    if cfg.fallthrough.variation.Some? {
      return Hit(flag, cfg.fallthrough.variation.value, FALLTHROUGH);
    }
    if cfg.fallthrough.rollout.Some? {
      var v :- BucketVariation(flag, cfg.fallthrough.rollout.value, q);
      return Hit(flag, v, FALLTHROUGH);
    }
    r := Off(flag, FALLTHROUGH);
  }
}
