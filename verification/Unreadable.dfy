/** Configs that the control plane accepts and the data plane cannot decode, and what they do to loads
    (control-plane/app/schemas/flag.py; data-plane/internal/store/store.go). */
module Unreadable {
  import opened Types
  import opened Binary64
  import opened Bucketing
  import opened JsonBoundary
  import opened Schemas
  import opened ControlPlane
  import opened Propagation
  import opened Streams
  import opened Interleavings

  /** The PUT of a prerequisite beyond 64 bits succeeds on every flag, and leaves a row that cannot be decoded. */
  lemma HugePutIsAccepted(db: Db, p: string, k: string, e: string)
    requires DbOk(db) && p in db.projects && Id(p, e) in db.envs && ConfigKey(Id(p, k), Id(p, e)) in db.flagConfigs
    ensures StatusOf(db, PutFlagConfig(p, k, e, HUGE_PREREQUISITE)) == Fine
    ensures !ReadableFlags(After(db, PutFlagConfig(p, k, e, HUGE_PREREQUISITE)), Id(p, e))
  {
    hide AcceptsConfig, IndicesInRange, ReadableConfig, ReadConfig, DumpConfig, GoodConfig, ReadableFlags;
    assert |db.flags[Id(p, k)].variations| > 0;
    HugePrerequisiteUnreadable(|db.flags[Id(p, k)].variations|);
    ConfigReads(HUGE_PREREQUISITE);
    hide DbOk;
    UnreadableRow(After(db, PutFlagConfig(p, k, e, HUGE_PREREQUISITE)), p, k, e);
  }

  lemma UnreadableRow(db: Db, p: string, k: string, e: string)
    requires Id(p, k) in db.flags && ConfigKey(Id(p, k), Id(p, e)) in db.flagConfigs
    requires !ReadableConfig(db.flagConfigs[ConfigKey(Id(p, k), Id(p, e))].content)
    ensures !ReadableFlags(db, Id(p, e))
  {
    hide ReadableConfig;
    assert HasFlag(db, Id(p, e), k) && !ReadableFlag(db, Id(p, e), k);
  }

  lemma LimitIsNotRepresentable()
    ensures !Representable(Number(TWO_1024))
  {
    RoundTimes2To1024(1.0);
    SmallInteger(1);
    hide Round;
  }

  /** One rule that compares an attribute with 2^1024. */
  function HugeSegment(): SegmentConfig {
    SegmentConfig("user", [], [], [SegmentRule([Clause("user", "n", "in", [Number(TWO_1024)], false)])])
  }

  /** The PUT of a number beyond float64 succeeds on every segment, and leaves a row that cannot be decoded. */
  lemma HugeSegmentIsAccepted(db: Db, p: string, k: string, e: string)
    requires p in db.projects && Id(p, k) in db.segments && Id(p, e) in db.envs
    ensures StatusOf(db, PutSegmentConfig(p, k, e, HugeSegment())) == Fine
    ensures !ReadableSegments(After(db, PutSegmentConfig(p, k, e, HugeSegment())), Id(p, e))
  {
    LimitIsNotRepresentable();
    hide Representable;
    var rule := HugeSegment().rules[0];
    assert !Representable(rule.clauses[0].values[0]);
    assert !ReadableClause(rule.clauses[0]);
    assert !ReadableSegmentRules(HugeSegment().rules);
    var d := After(db, PutSegmentConfig(p, k, e, HugeSegment()));
    hide ReadableSegmentRules;
    assert HasSegment(d, Id(p, e), k) && !ReadableSegment(d, Id(p, e), k);
  }

  function Todo(l: Loader): seq<Id> {
    match l
    case Idle => []
    case Ready(todo) => todo
    case HoldsFlags(todo, _) => todo
    case Holds(todo, _) => todo
  }

  /** `e` does not come before `env`; the two may be the same. */
  ghost predicate NotBefore(todo: seq<Id>, env: Id, e: Id) {
    forall j :: 0 <= j < |todo| && todo[j] == e ==> env in todo[..j + 1]
  }

  /** Where the row is that cannot be decoded. */
  datatype Side = FlagRows | SegmentRows

  ghost predicate ReadableSide(db: Db, env: Id, side: Side) {
    match side
    case FlagRows => ReadableFlags(db, env)
    case SegmentRows => ReadableSegments(db, env)
  }

  /** The load has not come past the rows of `env`, and comes to `e` no earlier than to `env`. */
  ghost predicate StillBefore(l: Loader, env: Id, e: Id, side: Side) {
    && NotBefore(Todo(l), env, e)
    && (l.Holds? || (l.HoldsFlags? && side.FlagRows?) ==> |l.todo| > 0 && l.todo[0] != env)
  }

  ghost predicate AllStillBefore(loaders: map<nat, Loader>, env: Id, e: Id, side: Side) {
    forall l :: l in loaders ==> StillBefore(loaders[l], env, e, side)
  }

  /** At every state of the run some row of `env` on that side cannot be decoded; listings have `env` no later
      than `e`. */
  ghost predicate StaysUnreadable(w: World, steps: seq<Step>, env: Id, e: Id, side: Side)
    requires CanRun(w, steps)
    decreases |steps|
  {
    steps != [] ==>
      && !ReadableSide(w.db, env, side)
      && (steps[0].ListEnvs? ==> NotBefore(steps[0].refs, env, e))
      && StaysUnreadable(Do(w, steps[0]), steps[1..], env, e, side)
  }

  ghost predicate SameEntry(v: map<Id, Copy>, u: map<Id, Copy>, e: Id) {
    (e in v <==> e in u) && (e in u ==> v[e] == u[e])
  }

  lemma RowsDoNotCome(db: Db, env: Id)
    ensures !ReadableFlags(db, env) ==> !FlagsCome(FlagTable(db, env), db, env)
    ensures !ReadableSegments(db, env) ==> !SegmentsCome(SegmentTable(db, env), db, env)
  {
  }

  lemma NextTodo(todo: seq<Id>, env: Id, e: Id)
    requires |todo| > 0 && NotBefore(todo, env, e) && todo[0] != env
    ensures NotBefore(todo[1..], env, e) && todo[0] != e
  {
    forall j | 0 <= j < |todo| - 1 && todo[1..][j] == e ensures env in todo[1..][..j + 1] {
      assert todo[j + 1] == e;
      var i :| 0 <= i < j + 2 && todo[i] == env;
      assert todo[1..][..j + 1][i - 1] == env;
    }
  }

  lemma NothingBefore(env: Id, e: Id)
    ensures NotBefore([], env, e)
  {
  }

  lemma LoaderSteps(loaders: map<nat, Loader>, l: nat, x: Loader, env: Id, e: Id, side: Side)
    requires AllStillBefore(loaders, env, e, side) && StillBefore(x, env, e, side)
    ensures AllStillBefore(loaders[l := x], env, e, side)
  {
    hide StillBefore;
  }

  lemma QueryElsewhere(w: World, step: Step, env: Id, e: Id, side: Side)
    requires Enabled(w, step) && (step.QueryFlags? || step.QuerySegments?) && Complete(w, step)
    requires AllStillBefore(w.loaders, env, e, side) && !ReadableSide(w.db, env, side)
    ensures AllStillBefore(Do(w, step).loaders, env, e, side)
  {
    RowsDoNotCome(w.db, env);
    assert StillBefore(w.loaders[step.loader], env, e, side);
    hide FlagTable, SegmentTable, IsCopy, FlagsCome, SegmentsCome, NotBefore, ReadableFlags, ReadableSegments,
         AllStillBefore;
    var todo := w.loaders[step.loader].todo;
    var x := if step.QueryFlags? then HoldsFlags(todo, step.flags) else Holds(todo, step.copy);
    LoaderSteps(w.loaders, step.loader, x, env, e, side);
  }

  lemma InstallElsewhere(w: World, l: nat, env: Id, e: Id, side: Side)
    requires Enabled(w, Install(l)) && AllStillBefore(w.loaders, env, e, side)
    ensures AllStillBefore(Do(w, Install(l)).loaders, env, e, side) && SameEntry(Do(w, Install(l)).cache, w.cache, e)
  {
    assert StillBefore(w.loaders[l], env, e, side);
    hide NotBefore, AllStillBefore;
    NextTodo(w.loaders[l].todo, env, e);
    LoaderSteps(w.loaders, l, Ready(w.loaders[l].todo[1..]), env, e, side);
  }

  lemma UnreadableStep(w: World, step: Step, env: Id, e: Id, side: Side)
    requires Enabled(w, step) && Complete(w, step) && AllStillBefore(w.loaders, env, e, side)
    requires !ReadableSide(w.db, env, side) && (step.ListEnvs? ==> NotBefore(step.refs, env, e))
    ensures AllStillBefore(Do(w, step).loaders, env, e, side) && SameEntry(Do(w, step).cache, w.cache, e)
  {
    hide AllStillBefore, ReadableSide, NotBefore, FlagTable, SegmentTable, After, Sent, IsCopy, FlagsCome, SegmentsCome,
         InstalledCopy;
    if step.Install? {
      InstallElsewhere(w, step.loader, env, e, side);
    } else if step.QueryFlags? || step.QuerySegments? {
      QueryElsewhere(w, step, env, e, side);
    } else if step.ListEnvs? {
      LoaderSteps(w.loaders, step.loader, Ready(step.refs), env, e, side);
    } else if step.Return? {
      NothingBefore(env, e);
      LoaderSteps(w.loaders, step.loader, Idle, env, e, side);
    }
  }

  /** As long as one flag, or one segment, of an environment cannot be decoded, loads leave the cache as it is for
      that environment and for all that are listed after it, whatever else is written there. */
  lemma {:induction false} UnreadableFreezes(w: World, steps: seq<Step>, env: Id, e: Id, side: Side)
    requires CanRun(w, steps) && CompleteRun(w, steps) && StaysUnreadable(w, steps, env, e, side)
    requires AllStillBefore(w.loaders, env, e, side)
    ensures SameEntry(Run(w, steps).cache, w.cache, e)
    decreases |steps|
  {
    if steps != [] {
      hide Enabled, Complete, Do, AllStillBefore, ReadableSide, NotBefore;
      UnreadableStep(w, steps[0], env, e, side);
      UnreadableFreezes(Do(w, steps[0]), steps[1..], env, e, side);
    }
  }
}
