/** What SDK streams have received, and what evaluation makes of it (data-plane/internal/server/server.go). */
module Streams {
  import opened Wrappers
  import opened Types
  import opened Contexts
  import opened Values
  import opened Versions
  import opened Clauses
  import opened Segments
  import opened Evaluator
  import opened Prerequisites
  import opened ControlPlane
  import opened RulesetStore
  import opened Propagation

  // ---- After writes have stopped ----

  /** Whatever a loader holds for the environment is what the database holds. */
  ghost predicate QuietLoader(l: Loader, db: Db, env: Id) {
    match l
    case HoldsFlags(todo, t) => |todo| > 0 && todo[0] == env ==> t == FlagTable(db, env)
    case Holds(todo, c) => |todo| > 0 && todo[0] == env ==> Current(c, db, env)
    case _ => true
  }

  ghost predicate Quiet(w: World, env: Id) {
    forall l :: l in w.loaders ==> QuietLoader(w.loaders[l], w.db, env)
  }

  /** The query came through to its end. */
  ghost predicate Complete(w: World, step: Step)
    requires Enabled(w, step)
  {
    match step
    case QueryFlags(l, t) => t == FlagTable(w.db, w.loaders[l].todo[0])
    case QuerySegments(l, c) => c.segments == SegmentTable(w.db, w.loaders[l].todo[0])
    case _ => true
  }

  ghost predicate CalmRun(w: World, steps: seq<Step>)
    requires CanRun(w, steps)
    decreases |steps|
  {
    steps != [] ==> !steps[0].Write? && Complete(w, steps[0]) && CalmRun(Do(w, steps[0]), steps[1..])
  }

  lemma CalmStep(w: World, step: Step, env: Id)
    requires Enabled(w, step) && !step.Write? && Complete(w, step) && CacheCurrent(w, env) && Quiet(w, env)
    ensures CacheCurrent(Do(w, step), env) && Quiet(Do(w, step), env) && Do(w, step).db == w.db
  {
    hide FlagTable, SegmentTable, IsCopy, After, FlagsCome, SegmentsCome, Sent;
    match step
    case Install(l) =>
      assert QuietLoader(w.loaders[l], w.db, env);
    case QuerySegments(l, c) =>
      assert QuietLoader(w.loaders[l], w.db, env);
    case _ =>
  }

  lemma QuietStep(w: World, step: Step, env: Id)
    requires Enabled(w, step) && !step.Write? && Complete(w, step) && Quiet(w, env)
    ensures Quiet(Do(w, step), env) && Do(w, step).db == w.db
  {
    hide FlagTable, SegmentTable, IsCopy, After, FlagsCome, SegmentsCome, Sent, InstalledCopy;
    match step
    case QuerySegments(l, c) =>
      assert QuietLoader(w.loaders[l], w.db, env);
    case _ =>
  }

  lemma {:induction false} QuietPersists(w: World, steps: seq<Step>, env: Id)
    requires CanRun(w, steps) && CalmRun(w, steps) && Quiet(w, env)
    ensures Quiet(Run(w, steps), env) && Run(w, steps).db == w.db
    decreases |steps|
  {
    if steps != [] {
      hide Quiet;
      QuietStep(w, steps[0], env);
      QuietPersists(Do(w, steps[0]), steps[1..], env);
    }
  }

  /** Without writes, and once no loader holds anything outdated, the cache goes on agreeing. */
  lemma {:induction false} AgreementPersists(w: World, steps: seq<Step>, env: Id)
    requires CanRun(w, steps) && CalmRun(w, steps) && CacheCurrent(w, env) && Quiet(w, env)
    ensures CacheCurrent(Run(w, steps), env) && Quiet(Run(w, steps), env) && Run(w, steps).db == w.db
    decreases |steps|
  {
    if steps != [] {
      hide CacheCurrent, Quiet;
      CalmStep(w, steps[0], env);
      AgreementPersists(Do(w, steps[0]), steps[1..], env);
    }
  }

  lemma StreamIsOld(w: World, s: nat)
    requires s in w.streams && Inv(w)
    ensures GoodStream(w.streams[s], w.db)
  {
  }

  /** When the cache agrees with the database, so does what a stream has received by its next tick. */
  lemma TickDelivers(w: World, s: nat)
    requires s in w.streams && CacheCurrent(w, w.streams[s].env)
    requires Inv(w)
    ensures var v := Sent(w.streams[s], w.cache);
            v.env == w.streams[s].env && |v.sent| > 0 && Current(Last(v.sent), w.db, v.env)
  {
    hide Inv, FlagTable, SegmentTable, IsCopy, OldCopy;
    var stream := w.streams[s];
    StreamIsOld(w, s);
    CacheIsOld(w, stream.env);
    OldCopyVersion(w.cache[stream.env], w.db, stream.env);
    if |stream.sent| > 0 {
      assert OldCopy(Last(stream.sent), w.db, stream.env);
      OldCopyVersion(Last(stream.sent), w.db, stream.env);
    }
  }

  /** The store that evaluating straight from the database would use. */
  ghost function DbStore(db: Db, env: Id): Types.Store {
    Types.Store(FlagsIn(FlagTable(db, env)), SegmentsIn(SegmentTable(db, env)))
  }

  /** What a reader of a store gets for a flag key: nothing, or the evaluation of the flag the store has there. */
  ghost function KeyAnswer(store: Types.Store, k: string, ctx: Context, lib: Externals, depth: nat)
    : Option<Outcome<Result>>
  {
    if k in store.flags then Some(Evaluation(store.flags[k], Request(store, ctx, lib), depth)) else None
  }

  ghost predicate IsClientFlag(db: Db, env: Id, k: string) {
    k in FlagTable(db, env) && FlagTable(db, env)[k].content.clientSide
  }

  /** Ruleset and database give one answer for every flag key, and agree on which flags are client-side. */
  ghost predicate AnswersLike(rs: Ruleset, db: Db, env: Id, ctx: Context, lib: Externals, depth: nat) {
    && (forall k :: KeyAnswer(rs.AsStore(), k, ctx, lib, depth) == KeyAnswer(DbStore(db, env), k, ctx, lib, depth))
    && forall k :: k in rs.clientFlags <==> IsClientFlag(db, env, k)
  }

  lemma CurrentAnswers(c: Copy, db: Db, env: Id, ctx: Context, lib: Externals, depth: nat)
    requires Current(c, db, env)
    ensures AnswersLike(c.rs, db, env, ctx, lib, depth)
  {
    hide Evaluation, FlagTable, SegmentTable;
    assert c.rs.AsStore() == DbStore(db, env);
  }

  /** The map is what `/eval` answers: every client-side flag of the database, with the database's answer. */
  ghost predicate IsDirectMap(out: map<string, Result>, db: Db, env: Id, ctx: Context, lib: Externals, depth: nat) {
    && (forall k :: k in out <==> IsClientFlag(db, env, k))
    && forall k :: k in out ==> KeyAnswer(DbStore(db, env), k, ctx, lib, depth) == Some(Done(out[k]))
  }

  lemma EvalMapIsDirect(c: Copy, out: map<string, Result>, db: Db, env: Id, ctx: Context, lib: Externals, depth: nat)
    requires Current(c, db, env) && IsEvalMap(out, c.rs, ctx, lib, depth)
    ensures IsDirectMap(out, db, env, ctx, lib, depth)
  {
    hide Evaluation, FlagTable, SegmentTable, Current, IsClientFlag, DbStore;
    CurrentAnswers(c, db, env, ctx, lib, depth);
    forall k | k in out ensures KeyAnswer(DbStore(db, env), k, ctx, lib, depth) == Some(Done(out[k])) {
      assert KeyAnswer(c.rs.AsStore(), k, ctx, lib, depth) == Some(Done(out[k]));
    }
  }

  /** End to end: once a load has converged, whatever calm steps follow, the SDK that reads the stream after
      its next tick, `/eval` on the cache, and the database give one answer for every flag key and context. */
  lemma EndToEnd(w: World, steps: seq<Step>, v: World, s: nat, ctx: Context, lib: Externals, depth: nat)
    requires CanRun(w, steps) && CalmRun(w, steps) && v == Run(w, steps)
    requires s in v.streams && CacheCurrent(w, v.streams[s].env) && Quiet(w, v.streams[s].env)
    requires Inv(w)
    ensures var env, sent := v.streams[s].env, Sent(v.streams[s], v.cache).sent;
            && |sent| > 0 && AnswersLike(Last(sent).rs, w.db, env, ctx, lib, depth)
            && env in v.cache && AnswersLike(v.cache[env].rs, w.db, env, ctx, lib, depth)
            && forall out :: IsEvalMap(out, v.cache[env].rs, ctx, lib, depth) ==>
                 IsDirectMap(out, w.db, env, ctx, lib, depth)
  {
    var env := v.streams[s].env;
    hide Inv, AnswersLike, Current, Run, CanRun, CalmRun, Quiet, Sent, IsEvalMap, IsDirectMap;
    AgreementPersists(w, steps, env);
    RunKeepsInv(w, steps);
    TickDelivers(v, s);
    CurrentAnswers(Last(Sent(v.streams[s], v.cache).sent), w.db, env, ctx, lib, depth);
    CurrentAnswers(v.cache[env], w.db, env, ctx, lib, depth);
    forall out | IsEvalMap(out, v.cache[env].rs, ctx, lib, depth) ensures IsDirectMap(out, w.db, env, ctx, lib, depth) {
      EvalMapIsDirect(v.cache[env], out, w.db, env, ctx, lib, depth);
    }
  }

  /** The whole way: from a state in which no loader holds outdated reads of the environment, through a run
      without writes in which one load of it completes, to the next tick of a stream. */
  lemma AfterWritesStop(w: World, before: seq<Step>, u: World, l: nat, after: seq<Step>, v: World, s: nat,
                        ctx: Context, lib: Externals, depth: nat)
    requires CanRun(w, before) && CalmRun(w, before) && u == Run(w, before)
    requires Enabled(u, Install(l)) && CanRun(Do(u, Install(l)), after) && CalmRun(Do(u, Install(l)), after)
    requires v == Run(Do(u, Install(l)), after) && s in v.streams && v.streams[s].env == u.loaders[l].todo[0]
    requires Quiet(w, v.streams[s].env)
    requires Inv(w)
    ensures var env, sent := v.streams[s].env, Sent(v.streams[s], v.cache).sent;
            && |sent| > 0 && AnswersLike(Last(sent).rs, w.db, env, ctx, lib, depth)
            && env in v.cache && AnswersLike(v.cache[env].rs, w.db, env, ctx, lib, depth)
            && forall out :: IsEvalMap(out, v.cache[env].rs, ctx, lib, depth) ==>
                 IsDirectMap(out, w.db, env, ctx, lib, depth)
  {
    var env := v.streams[s].env;
    hide Inv, AnswersLike, IsEvalMap, IsDirectMap, Current, Run, CanRun, CalmRun, Sent, InstalledCopy;
    QuietPersists(w, before, env);
    RunKeepsInv(w, before);
    assert QuietLoader(u.loaders[l], u.db, env);
    QuietStep(u, Install(l), env);
    StepKeepsInv(u, Install(l));
    InstallConverges(u, l);
    hide Quiet, Enabled, Do;
    EndToEnd(Do(u, Install(l)), after, v, s, ctx, lib, depth);
  }

  // ---- Reachable rulesets and the evaluator ----

  /** The flags of `ks` require only flags of `ks`, and their clauses name no segment that reaches itself or
      one that does. */
  ghost predicate GroundedFlags(ks: set<string>, q: Request) {
    forall k :: k in ks && k in q.store.flags ==>
      && (forall p :: p in q.store.flags[k].config.prerequisites ==> p.flagKey in ks)
      && forall r :: r in q.store.flags[k].config.rules ==> GroundedRefs(r.clauses, q)
  }

  lemma GroundedFlagsAnswer(ks: set<string>, q: Request, depth: nat)
    requires GroundedFlags(ks, q) && depth >= |q.store.segments|
    requires forall k :: k in q.store.flags ==> ValidFlag(q.store.flags[k])
    ensures SoundOn(ks, q, depth)
  {
    hide GroundedRefs, Own, ValidPayload;
    forall k | k in ks && k in q.store.flags ensures Answers(q.store.flags[k], ks, q, depth) {
      var rules := q.store.flags[k].config.rules;
      forall i | 0 <= i < |rules| ensures AllClauses(rules[i].clauses, q, depth).Some? {
        GroundedAnswers(rules[i].clauses, q, depth);
      }
      OwnAnswers(q.store.flags[k], q, depth);
    }
  }

  /** In every run, evaluating any cached flag takes no index out of range, and if it ends, it ends in one of the
      flag's variations with that variation's value.  It does end if the flags that its prerequisites lead to
      name no segment that leads into a cycle. */
  lemma CachedRulesetsAreSafe(w: World, steps: seq<Step>, env: Id, k: string, ks: set<string>,
                              ctx: Context, lib: Externals, depth: nat)
    requires Initial(w) && CanRun(w, steps) && env in Run(w, steps).cache
    requires k in Run(w, steps).cache[env].rs.flags && k in ks
    ensures var rs := Run(w, steps).cache[env].rs;
            var q := Request(rs.AsStore(), ctx, lib);
            && !Evaluation(rs.flags[k], q, depth).Panic?
            && (Evaluation(rs.flags[k], q, depth).Done? ==> IsVariation(Evaluation(rs.flags[k], q, depth), rs.flags[k]))
            && (GroundedFlags(ks, q) && depth >= |rs.segments| ==> Evaluation(rs.flags[k], q, depth).Done?)
  {
    InitialInv(w);
    RunKeepsInv(w, steps);
    CacheIsOld(Run(w, steps), env);
    var c := Run(w, steps).cache[env];
    var q := Request(c.rs.AsStore(), ctx, lib);
    hide Run, CanRun, Inv, Older, Eval, ValidFlag, GroundedFlags;
    assert forall j :: j in c.rs.flags ==> ValidFlag(c.rs.flags[j]);
    EvalNeverPanics(c.rs.flags[k], q, depth, {});
    if GroundedFlags(ks, q) && depth >= |c.rs.segments| {
      GroundedFlagsAnswer(ks, q, depth);
      EvalAnswers(c.rs.flags[k], q, depth, {}, ks);
    }
  }

  // ---- The handlers ----

  /** One connection of `handleSDKStream`; `puts` is what has been written to it. */
  class SdkStream {
    var lastVersion: int
    var puts: seq<Ruleset>

    constructor ()
      ensures lastVersion == -1 && puts == []
    {
      lastVersion, puts := -1, [];
    }

    method Send(store: RulesetStore.Store, env: Id) returns (sent: bool)
      modifies this
      ensures sent <==> env in store.envs && store.envs[env].version != old(lastVersion)
      ensures (lastVersion, puts) ==
              SendNext(old(lastVersion), old(puts), if env in store.envs then Some(store.envs[env]) else None)
    {
      var rs := store.Get(env);
      if rs.None? || rs.value.version == lastVersion {
        return false;
      }
      lastVersion := rs.value.version;
      puts := puts + [rs.value];
      sent := true;
    }
  }

  /** The connection's state after `send`: as it was, or with the ruleset sent and its version remembered. */
  function SendNext(last: int, puts: seq<Ruleset>, rs: Option<Ruleset>): (int, seq<Ruleset>) {
    if rs.None? || rs.value.version == last then (last, puts) else (rs.value.version, puts + [rs.value])
  }

  ghost function RulesetsSent(s: Stream): (puts: seq<Ruleset>)
    ensures |puts| == |s.sent| && forall i :: 0 <= i < |puts| ==> puts[i] == s.sent[i].rs
  {
    seq(|s.sent|, i requires 0 <= i < |s.sent| => s.sent[i].rs)
  }

  /** The tick step of the runs is the `send` of the connection. */
  lemma TickIsSend(s: Stream, cache: map<Id, Copy>)
    ensures var rs := if s.env in cache then Some(Rulesets(cache)[s.env]) else None;
            (Sent(s, cache).lastVersion, RulesetsSent(Sent(s, cache))) == SendNext(s.lastVersion, RulesetsSent(s), rs)
  {
    var t := Sent(s, cache);
    if s.env in cache && cache[s.env].rs.version != s.lastVersion {
      assert RulesetsSent(t) == RulesetsSent(s) + [cache[s.env].rs];
    }
  }

  /** The flag-state map of a ruleset: exactly the client-side flags, each with its own evaluation. */
  ghost predicate IsEvalMap(out: map<string, Result>, rs: Ruleset, ctx: Context, lib: Externals, depth: nat) {
    && (forall k :: k in out <==> k in rs.clientFlags)
    && forall k :: k in out ==>
         k in rs.flags && Done(out[k]) == Evaluation(rs.flags[k], Request(rs.AsStore(), ctx, lib), depth)
  }

  /** `handleEval`. */
  method HandleEval(rs: Ruleset, raw: map<string, Value>, lib: Externals, depth: nat)
    returns (out: Outcome<map<string, Result>>)
    requires forall k :: k in rs.clientFlags ==> k in rs.flags
    ensures out.Done? ==> IsEvalMap(out.value, rs, Context(Parsed(raw)), lib, depth)
    ensures !out.Done? ==>
              exists k :: k in rs.clientFlags &&
                !Evaluation(rs.flags[k], Request(rs.AsStore(), Context(Parsed(raw)), lib), depth).Done?
  {
    hide Evaluation, Parsed;
    var ctx := ParseContext(raw);
    var q := Request(rs.AsStore(), ctx, lib);
    var results: map<string, Result> := map[];
    for i := 0 to |rs.clientFlags|
      invariant forall k :: k in results <==> k in rs.clientFlags[..i]
      invariant forall k :: k in results ==> Done(results[k]) == Evaluation(rs.flags[k], q, depth)
    {
      var k := rs.clientFlags[i];
      var r := Evaluate(rs.flags[k], q, depth);
      if !r.Done? {
        return if r.Stuck? then Stuck else Panic;
      }
      results := results[k := r.value];
    }
    assert rs.clientFlags[..|rs.clientFlags|] == rs.clientFlags;
    out := Done(results);
  }
}
