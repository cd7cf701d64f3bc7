/** Putting runs together step by step, to show that a state can be reached. */
module Runs {
  import opened Types
  import opened Versions
  import opened ControlPlane
  import opened RulesetStore
  import opened Propagation
  import opened Schemas
  import opened Streams
  import opened Interleavings

  /** Some run leads from `w` to `v`; if `full`, all its queries come through to the end. */
  ghost predicate Reach(w: World, v: World, full: bool) {
    exists steps :: IsRun(w, steps, v) && (full ==> CompleteRun(w, steps))
  }

  ghost predicate IsRun(w: World, steps: seq<Step>, v: World) {
    CanRun(w, steps) && Run(w, steps) == v
  }

  lemma {:induction false} RunAppend(w: World, steps: seq<Step>, step: Step)
    requires CanRun(w, steps) && Enabled(Run(w, steps), step)
    ensures CanRun(w, steps + [step]) && Run(w, steps + [step]) == Do(Run(w, steps), step)
    ensures CompleteRun(w, steps) && Complete(Run(w, steps), step) ==> CompleteRun(w, steps + [step])
    decreases |steps|
  {
    hide Enabled, Do, Complete;
    if steps == [] {
      assert steps + [step] == [step];
      assert CanRun(Do(w, step), []) && CompleteRun(Do(w, step), []);
    } else {
      assert (steps + [step])[1..] == steps[1..] + [step];
      RunAppend(Do(w, steps[0]), steps[1..], step);
    }
  }

  lemma Go(full: bool, w: World, v: World, step: Step, u: World)
    requires Reach(w, v, full) && Enabled(v, step) && Do(v, step) == u && (full ==> Complete(v, step))
    ensures Reach(w, u, full)
  {
    hide Enabled, Do, CanRun, Run, Complete, CompleteRun;
    var steps :| IsRun(w, steps, v) && (full ==> CompleteRun(w, steps));
    RunAppend(w, steps, step);
    assert IsRun(w, steps + [step], u);
  }

  ghost function Listing(keys: set<string>): (s: seq<string>)
    ensures forall k :: k in s <==> k in keys
    decreases keys
  {
    if keys == {} then [] else var k :| k in keys; [k] + Listing(keys - {k})
  }

  /** What assembling complete reads of two tables gives. */
  ghost function CopyOf(ft: Table<FlagEntry>, st: Table<Segment>): (c: Copy)
    ensures IsCopy(c) && c.flags == ft && c.segments == st
  {
    var client := set k | k in ft && ft[k].content.clientSide;
    Copy(Ruleset(Total(ft) + Total(st), FlagsIn(ft), SegmentsIn(st), Listing(client)), ft, st)
  }

  ghost predicate Readable(db: Db, env: Id) {
    ReadableFlags(db, env) && ReadableSegments(db, env)
  }

  lemma ListsAndReads(v: World, l: nat, env: Id, t: Table<FlagEntry>)
    requires l in v.loaders && v.loaders[l].Idle? && env in v.db.envs && FlagsCome(t, v.db, env)
    ensures Enabled(v, ListEnvs(l, [env]))
    ensures var u := Do(v, ListEnvs(l, [env]));
            && Enabled(u, QueryFlags(l, t))
            && Do(u, QueryFlags(l, t)) == v.(loaders := v.loaders[l := HoldsFlags([env], t)])
  {
    hide FlagTable, After, Sent, InstalledCopy, IsCopy, FlagsCome, SegmentsCome;
    assert v.loaders[l := Ready([env])][l := HoldsFlags([env], t)] == v.loaders[l := HoldsFlags([env], t)];
  }

  lemma ReadsFlags(full: bool, w: World, v: World, l: nat, env: Id, t: Table<FlagEntry>, u: World)
    requires Reach(w, v, full) && l in v.loaders && v.loaders[l].Idle? && env in v.db.envs && FlagsCome(t, v.db, env)
    requires full ==> t == FlagTable(v.db, env)
    requires u == v.(loaders := v.loaders[l := HoldsFlags([env], t)])
    ensures Reach(w, u, full)
  {
    ListsAndReads(v, l, env, t);
    hide FlagTable, Reach, Enabled, Do;
    var mid := Do(v, ListEnvs(l, [env]));
    Go(full, w, v, ListEnvs(l, [env]), mid);
    Go(full, w, mid, QueryFlags(l, t), u);
  }

  lemma AllCome(db: Db, env: Id)
    ensures ReadableFlags(db, env) ==> FlagsCome(FlagTable(db, env), db, env)
    ensures ReadableSegments(db, env) ==> SegmentsCome(SegmentTable(db, env), db, env)
  {
  }

  lemma SomeoneWrites(full: bool, w: World, db: Db, op: Op, loaders: map<nat, Loader>)
    requires Reach(w, World(db, loaders, map[], map[]), full)
    ensures Reach(w, World(After(db, op), loaders, map[], map[]), full)
  {
    hide After, Reach;
    Go(full, w, World(db, loaders, map[], map[]), Write(op), World(After(db, op), loaders, map[], map[]));
  }

  lemma InstallsAndReturns(v: World, l: nat, env: Id)
    requires l in v.loaders && v.loaders[l].Holds? && v.loaders[l].todo == [env]
    ensures Enabled(v, Install(l))
    ensures var u := Do(v, Install(l));
            && Enabled(u, Return(l))
            && Do(u, Return(l)) == v.(loaders := v.loaders[l := Idle],
                                      cache := InstalledCopy(v.cache, env, v.loaders[l].copy))
  {
    hide FlagTable, SegmentTable, After, Sent, InstalledCopy, IsCopy, FlagsCome, SegmentsCome;
    assert v.loaders[l := Ready([env][1..])][l := Idle] == v.loaders[l := Idle];
  }

  lemma InstallsOwnVersion(full: bool, w: World, v: World, l: nat, env: Id, u: World)
    requires Reach(w, v, full) && l in v.loaders && v.loaders[l].Holds? && v.loaders[l].todo == [env]
    requires env in v.cache ==> v.cache[env].rs.version != v.loaders[l].copy.rs.version
    requires u == v.(loaders := v.loaders[l := Idle], cache := v.cache[env := v.loaders[l].copy])
    ensures Reach(w, u, full)
  {
    InstallsAndReturns(v, l, env);
    hide Reach, Enabled, Do;
    var mid := Do(v, Install(l));
    Go(full, w, v, Install(l), mid);
    Go(full, w, mid, Return(l), u);
  }

  lemma StreamOpens(full: bool, w: World, db: Db, loaders: map<nat, Loader>, env: Id, a: Copy)
    requires Reach(w, World(db, loaders, map[env := a], map[]), full)
    ensures Reach(w, World(db, loaders, map[env := a], map[0 := Stream(env, a.rs.version, [a])]), full)
  {
    hide Reach;
    var mid := World(db, loaders, map[env := a], map[0 := Stream(env, -1, [])]);
    Go(full, w, World(db, loaders, map[env := a], map[]), Connect(0, env), mid);
    assert [] + [a] == [a];
    Go(full, w, mid, Tick(0), World(db, loaders, map[env := a], map[0 := Stream(env, a.rs.version, [a])]));
  }

  lemma ReachSelf(full: bool, w: World)
    ensures Reach(w, w, full)
  {
    assert IsRun(w, [], w) && CompleteRun(w, []);
  }

  /** A whole load of the environment, in which `t` came through of the flags. */
  lemma LoadsAnew(full: bool, w: World, v: World, env: Id, t: Table<FlagEntry>, u: World)
    requires Reach(w, v, full) && 0 in v.loaders && v.loaders[0].Idle? && env in v.db.envs
    requires (full ==> t == FlagTable(v.db, env)) && FlagsCome(t, v.db, env) && ReadableSegments(v.db, env)
    requires env in v.cache ==> v.cache[env].rs.version != CopyOf(t, SegmentTable(v.db, env)).rs.version
    requires u == v.(cache := v.cache[env := CopyOf(t, SegmentTable(v.db, env))])
    ensures Reach(w, u, full)
  {
    var c := CopyOf(t, SegmentTable(v.db, env));
    AllCome(v.db, env);
    hide FlagTable, SegmentTable, CopyOf, Reach, FlagsCome, SegmentsCome, ReadableSegments, IsCopy, After, Sent,
         InstalledCopy;
    var read := v.(loaders := v.loaders[0 := HoldsFlags([env], t)]);
    var held := v.(loaders := v.loaders[0 := Holds([env], c)]);
    ReadsFlags(full, w, v, 0, env, t, read);
    assert read.loaders[0 := Holds([env], c)] == held.loaders;
    Go(full, w, read, QuerySegments(0, c), held);
    assert held.loaders[0 := Idle] == v.loaders;
    InstallsOwnVersion(full, w, held, 0, env, u);
  }

  const SOLE: map<nat, Loader> := map[0 := Idle]

  // ---- Small databases that a few requests make ----

  const VARIATIONS: seq<Variation> := [Variation("Off", Bool(false)), Variation("On", Bool(true))]

  const DEFINITION: FlagDef := FlagDef("salt", "boolean", VARIATIONS, true)

  const SMALL: Db := Db(
    {"p"}, {Id("p", "e")},
    map[Id("p", "f") := DEFINITION],
    map[ConfigKey(Id("p", "f"), Id("p", "e")) := SEED],
    {Id("p", "s")}, map[])

  /** Two flags, as they are created. */
  const TWO_FLAGS: Db := Db(
    {"p"}, {Id("p", "e")},
    map[Id("p", "f") := DEFINITION, Id("p", "g") := DEFINITION],
    map[ConfigKey(Id("p", "f"), Id("p", "e")) := SEED, ConfigKey(Id("p", "g"), Id("p", "e")) := SEED],
    {}, map[])

  const ONE_ENV: Db := Db({"p"}, {Id("p", "e")}, map[], map[], {}, map[])

  const ONE_FLAG: Db := ONE_ENV.(flags := SMALL.flags, flagConfigs := SMALL.flagConfigs)

  lemma EnvironmentIsMade()
    ensures After(EMPTY, CreateProject("p")) == EMPTY.(projects := {"p"})
    ensures After(EMPTY.(projects := {"p"}), CreateEnvironment("p", "e")) == ONE_ENV
  {
  }

  lemma FlagIsMade(d: Db, k: string)
    requires d.projects == {"p"} && d.envs == {Id("p", "e")} && Id("p", k) !in d.flags && AcceptsKey(k)
    ensures After(d, CreateFlag("p", k, DEFINITION)) ==
            d.(flags := d.flags[Id("p", k) := DEFINITION],
               flagConfigs := d.flagConfigs[ConfigKey(Id("p", k), Id("p", "e")) := SEED])
  {
    assert StatusOf(d, CreateFlag("p", k, DEFINITION)) == Fine;
    var rows := Seeds(Id("p", k), EnvsOf(d, "p"));
    assert rows == map[ConfigKey(Id("p", k), Id("p", "e")) := SEED];
    hide AcceptsKey;
  }

  lemma OneFlagIsMade(full: bool, w: World, loaders: map<nat, Loader>)
    requires w == World(EMPTY, loaders, map[], map[])
    ensures Reach(w, World(ONE_FLAG, loaders, map[], map[]), full)
  {
    hide Reach, After;
    ReachSelf(full, w);
    EnvironmentIsMade();
    FlagIsMade(ONE_ENV, "f");
    assert map[][Id("p", "f") := DEFINITION] == SMALL.flags;
    assert map[][ConfigKey(Id("p", "f"), Id("p", "e")) := SEED] == SMALL.flagConfigs;
    SomeoneWrites(full, w, EMPTY, CreateProject("p"), loaders);
    SomeoneWrites(full, w, EMPTY.(projects := {"p"}), CreateEnvironment("p", "e"), loaders);
    SomeoneWrites(full, w, ONE_ENV, CreateFlag("p", "f", DEFINITION), loaders);
  }

  /** Four requests make the small database. */
  lemma SmallIsMade(full: bool, w: World, loaders: map<nat, Loader>)
    requires w == World(EMPTY, loaders, map[], map[]) && forall l :: l in loaders ==> loaders[l].Idle?
    ensures Initial(w) && Reach(w, World(SMALL, loaders, map[], map[]), full)
  {
    hide Reach;
    OneFlagIsMade(full, w, loaders);
    assert After(ONE_FLAG, CreateSegment("p", "s")) == SMALL;
    SomeoneWrites(full, w, ONE_FLAG, CreateSegment("p", "s"), loaders);
  }

  lemma TwoFlagsAreMade(full: bool, w: World, loaders: map<nat, Loader>)
    requires w == World(EMPTY, loaders, map[], map[]) && forall l :: l in loaders ==> loaders[l].Idle?
    ensures Initial(w) && Reach(w, World(TWO_FLAGS, loaders, map[], map[]), full)
  {
    hide Reach, After;
    OneFlagIsMade(full, w, loaders);
    FlagIsMade(ONE_FLAG, "g");
    assert ONE_FLAG.flags[Id("p", "g") := DEFINITION] == TWO_FLAGS.flags;
    assert ONE_FLAG.flagConfigs[ConfigKey(Id("p", "g"), Id("p", "e")) := SEED] == TWO_FLAGS.flagConfigs;
    SomeoneWrites(full, w, ONE_FLAG, CreateFlag("p", "g", DEFINITION), loaders);
  }
}
