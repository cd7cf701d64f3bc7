/** When the API accepts a request and how it refuses one, in the API's own words and apart from the code that
    decides it (control-plane/app/api/flags.py, segments.py, projects.py; app/schemas). */
module Requests {
  import opened Wrappers
  import opened Types
  import opened Bucketing
  import opened Schemas
  import opened ControlPlane

  // ---- The rules ----

  /** Not negative, and below the bound if there is one. */
  ghost predicate IsIndex(i: int, bound: Option<nat>) {
    0 <= i && (bound.Some? ==> i < bound.value)
  }

  function TotalWeight(vs: seq<WeightedVariation>): int {
    if vs == [] then 0 else vs[0].weight + TotalWeight(vs[1..])
  }

  /** Weights between 0 and 100000 that add up to 100000. */
  ghost predicate IsWhole(r: Rollout) {
    (forall wv :: wv in r.variations ==> 0 <= wv.weight <= 100_000) && TotalWeight(r.variations) == 100_000
  }

  /** A variation or a rollout, and not both. */
  ghost predicate ServesOne(p: Payload, bound: Option<nat>) {
    || (p.variation.Some? && p.rollout.None? && IsIndex(p.variation.value, bound))
    || (p.variation.None? && p.rollout.Some? && IsWhole(p.rollout.value)
        && forall wv :: wv in p.rollout.value.variations ==> IsIndex(wv.variation, bound))
  }

  ghost predicate IsKnown(op: string) {
    || op == "in" || op == "startsWith" || op == "endsWith" || op == "contains" || op == "matches"
    || op == "lessThan" || op == "greaterThan" || op == "before" || op == "after"
    || op == "semVerEqual" || op == "semVerLess" || op == "semVerGreater" || op == "segmentMatch"
  }

  /** At least one clause, all with operators that are known. */
  ghost predicate HasClauses(cs: seq<Clause>) {
    cs != [] && forall c :: c in cs ==> IsKnown(c.op)
  }

  /** The config is in order, for a flag with that many variations if the number is given. */
  ghost predicate InOrder(c: Config, bound: Option<nat>) {
    && IsIndex(c.offVariation, bound)
    && (forall t :: t in c.targets ==> IsIndex(t.variation, bound))
    && (forall r :: r in c.rules ==> HasClauses(r.clauses) && ServesOne(r.serve, bound))
    && ServesOne(c.fallthrough, bound)
    && forall p :: p in c.prerequisites ==> p.variation >= 0
  }

  predicate IsLowerOrDigit(c: char) {
    'a' <= c <= 'z' || '0' <= c <= '9'
  }

  /** Up to 64 lower-case letters, digits, dots, underscores and hyphens, the first one a letter or a digit. */
  ghost predicate IsKey(k: string) {
    && 1 <= |k| <= 64 && IsLowerOrDigit(k[0])
    && forall c :: c in k ==> IsLowerOrDigit(c) || c == '.' || c == '_' || c == '-'
  }

  /** Two variations for a boolean flag, two or more for a multivariate one, with names of up to 128 characters. */
  ghost predicate HasVariations(def: FlagDef) {
    && ((def.kind == "boolean" && |def.variations| == 2) || (def.kind == "multivariate" && |def.variations| >= 2))
    && forall v :: v in def.variations ==> |v.name| <= 128
  }

  // ---- The rules are what the schemas and the index check accept ----

  lemma {:induction false} SumFromFront(ws: seq<int>)
    requires ws != []
    ensures Sum(ws) == ws[0] + Sum(ws[1..])
  {
    if |ws| > 1 {
      SumFromFront(ws[..|ws| - 1]);
      assert ws[..|ws| - 1][1..] == ws[1..][..|ws| - 2];
    }
  }

  lemma {:induction false} TotalIsSum(vs: seq<WeightedVariation>)
    ensures TotalWeight(vs) == Sum(Weights(vs))
  {
    if vs != [] {
      TotalIsSum(vs[1..]);
      SumFromFront(Weights(vs));
      assert Weights(vs)[1..] == Weights(vs[1..]);
    }
  }

  lemma RolloutIff(r: Rollout)
    ensures AcceptsRollout(r) <==> IsWhole(r) && forall wv :: wv in r.variations ==> wv.variation >= 0
  {
    TotalIsSum(r.variations);
    var vs := r.variations;
    hide Sum, TotalWeight, Weights;
    if AcceptsRollout(r) {
      forall wv | wv in vs ensures 0 <= wv.variation && 0 <= wv.weight <= WHOLE {
        var i :| 0 <= i < |vs| && vs[i] == wv;
      }
    }
    if IsWhole(r) && forall wv :: wv in vs ==> wv.variation >= 0 {
      forall i | 0 <= i < |vs| ensures 0 <= vs[i].variation && 0 <= vs[i].weight <= WHOLE {
        assert vs[i] in vs;
      }
    }
  }

  lemma PayloadIff(p: Payload, bound: Option<nat>)
    ensures ServesOne(p, bound) <==>
            AcceptsPayload(p) && (bound.Some? ==> PayloadInRange(p, bound.value))
  {
    if p.rollout.Some? {
      RolloutIff(p.rollout.value);
      var vs := p.rollout.value.variations;
      assert forall i :: 0 <= i < |vs| ==> vs[i] in vs;
    }
    hide AcceptsRollout, IsWhole;
  }

  lemma ClausesIff(cs: seq<Clause>)
    ensures HasClauses(cs) <==> AcceptsClauses(cs)
  {
    assert forall i :: 0 <= i < |cs| ==> cs[i] in cs;
  }

  /** Without a number of variations these are the rules of the schema; with one, of schema and index check. */
  lemma InOrderIff(c: Config, bound: Option<nat>)
    ensures InOrder(c, bound) <==> AcceptsConfig(c) && (bound.Some? ==> IndicesInRange(c, bound.value))
  {
    forall p ensures ServesOne(p, bound) <==> AcceptsPayload(p) && (bound.Some? ==> PayloadInRange(p, bound.value)) {
      PayloadIff(p, bound);
    }
    forall cs ensures HasClauses(cs) <==> AcceptsClauses(cs) {
      ClausesIff(cs);
    }
    hide ServesOne, AcceptsPayload, PayloadInRange, HasClauses, AcceptsClauses;
    assert forall i :: 0 <= i < |c.rules| ==> c.rules[i] in c.rules;
    assert forall i :: 0 <= i < |c.targets| ==> c.targets[i] in c.targets;
    assert forall i :: 0 <= i < |c.prerequisites| ==> c.prerequisites[i] in c.prerequisites;
  }

  lemma KeyIff(k: string)
    ensures IsKey(k) <==> AcceptsKey(k)
  {
    if IsKey(k) {
      assert forall i :: 0 <= i < |k| ==> k[i] in k;
    }
  }

  lemma VariationsIff(def: FlagDef)
    ensures HasVariations(def) <==> AcceptsVariations(def.kind, def.variations)
  {
    assert forall i :: 0 <= i < |def.variations| ==> def.variations[i] in def.variations;
  }

  // ---- Main results: status codes ----

  /** A PUT of a config: 422 for a body that is not in order, then 404 for a row that is not there, then 422 for
      indices beyond the flag's variations. */
  lemma PutFlagStatus(db: Db, p: string, k: string, e: string, c: Config)
    ensures var there := p in db.projects && Id(p, k) in db.flags && Id(p, e) in db.envs
                         && ConfigKey(Id(p, k), Id(p, e)) in db.flagConfigs;
            var status := StatusOf(db, PutFlagConfig(p, k, e, c));
            && (there ==> (status == Fine <==> InOrder(c, Some(|db.flags[Id(p, k)].variations|))))
            && (status == NotFound <==> InOrder(c, None) && !there)
            && status != Conflict
  {
    InOrderIff(c, None);
    if Id(p, k) in db.flags {
      InOrderIff(c, Some(|db.flags[Id(p, k)].variations|));
    }
    hide InOrder, AcceptsConfig, IndicesInRange;
  }

  /** A PUT of a segment needs clauses in all its rules, the segment and the environment, but no row. */
  lemma PutSegmentStatus(db: Db, p: string, k: string, e: string, s: SegmentConfig)
    ensures var there := p in db.projects && Id(p, k) in db.segments && Id(p, e) in db.envs;
            var good := forall r :: r in s.rules ==> HasClauses(r.clauses);
            var status := StatusOf(db, PutSegmentConfig(p, k, e, s));
            && (status == Fine <==> good && there)
            && (status == NotFound <==> good && !there)
            && (status == Unprocessable <==> !good)
  {
    forall cs ensures HasClauses(cs) <==> AcceptsClauses(cs) {
      ClausesIff(cs);
    }
    hide HasClauses, AcceptsClauses;
    assert forall i :: 0 <= i < |s.rules| ==> s.rules[i] in s.rules;
  }

  /** Creating a project, an environment, a flag or a segment: 422 for a key or a definition that is not in
      order, then 404 for a project that is not there, then 409 for a key that is taken. */
  lemma CreateStatus(db: Db, op: Op)
    requires !op.PutFlagConfig? && !op.PutSegmentConfig?
    ensures var key := if op.CreateProject? then op.project else op.key;
            var good := IsKey(key) && (op.CreateFlag? ==> HasVariations(op.def));
            var home := op.CreateProject? || op.project in db.projects;
            var taken := match op
                         case CreateProject(k) => k in db.projects
                         case CreateEnvironment(p, k) => Id(p, k) in db.envs
                         case CreateFlag(p, k, _) => Id(p, k) in db.flags
                         case CreateSegment(p, k) => Id(p, k) in db.segments;
            && (StatusOf(db, op) == Unprocessable <==> !good)
            && (StatusOf(db, op) == NotFound <==> good && !home)
            && (StatusOf(db, op) == Conflict <==> good && home && taken)
  {
    KeyIff(if op.CreateProject? then op.project else op.key);
    if op.CreateFlag? {
      VariationsIff(op.def);
    }
    hide IsKey, AcceptsKey, HasVariations, AcceptsVariations;
  }

  // ---- Environments that come after a flag ----

  /** A new environment is empty for the data plane, and no other environment changes. */
  lemma NewEnvironmentIsEmpty(db: Db, p: string, k: string, env: Id)
    requires DbOk(db) && StatusOf(db, CreateEnvironment(p, k)) == Fine
    ensures var d := After(db, CreateEnvironment(p, k));
            && FlagTable(d, env) == FlagTable(db, env) && SegmentTable(d, env) == SegmentTable(db, env)
            && (env == Id(p, k) ==> env !in db.envs && env in d.envs && FlagTable(d, env) == map[])
  {
    SameFlags(db, After(db, CreateEnvironment(p, k)), env);
    hide GoodConfig, AcceptsKey;
  }

  ghost function AfterAll(db: Db, ops: seq<Op>): Db
    decreases |ops|
  {
    if ops == [] then db else AfterAll(After(db, ops[0]), ops[1..])
  }

  /** The flag is there, and has no row in the environment. */
  ghost predicate HasNoRow(db: Db, flag: Id, env: Id) {
    flag in db.flags && ConfigKey(flag, env) !in db.flagConfigs
  }

  lemma NoRowStays(db: Db, op: Op, flag: Id, env: Id)
    requires HasNoRow(db, flag, env)
    ensures HasNoRow(After(db, op), flag, env)
  {
    hide Accepts, IndicesInRange, Seeds;
  }

  /** A flag that has no row in an environment, as when the flag was there first, never gets one: whatever is
      written, it stays unknown to the environment's rulesets and its config there cannot be set. */
  lemma {:induction false} EarlierFlagsStayOut(db: Db, ops: seq<Op>, p: string, k: string, e: string, c: Config)
    requires HasNoRow(db, Id(p, k), Id(p, e))
    ensures k !in FlagTable(AfterAll(db, ops), Id(p, e))
    ensures StatusOf(AfterAll(db, ops), PutFlagConfig(p, k, e, c)) != Fine
    decreases |ops|
  {
    if ops != [] {
      hide FlagTable, After, StatusOf;
      NoRowStays(db, ops[0], Id(p, k), Id(p, e));
      EarlierFlagsStayOut(After(db, ops[0]), ops[1..], p, k, e, c);
    }
  }
}
