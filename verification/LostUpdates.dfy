/** PUTs of one flag config that overlap: each reads the row, changes it and writes it back, without locking it
    (control-plane/app/api/flags.py, app/db.py, app/models/flag.py). */
module LostUpdates {
  import opened Wrappers
  import opened Types
  import opened Versions
  import opened JsonBoundary
  import opened Schemas
  import opened ControlPlane
  import opened RulesetStore
  import opened Propagation
  import opened Runs

  // ---- Reading and writing apart ----

  /** The session writes the columns whose values differ from what it read. */
  function Column<T(==)>(read: T, body: T, current: T): T {
    if body == read then current else body
  }

  /** The config that is in the row after a session that read `read` has written `body` over `current`. */
  function Merged(read: Config, body: Config, current: Config): Config {
    Config(Column(read.enabled, body.enabled, current.enabled),
           Column(read.targets, body.targets, current.targets),
           Column(read.rules, body.rules, current.rules),
           Column(read.fallthrough, body.fallthrough, current.fallthrough),
           Column(read.offVariation, body.offVariation, current.offVariation),
           Column(read.prerequisites, body.prerequisites, current.prerequisites))
  }

  /** A column that the body leaves as it was read keeps what is in the row, and one that it changes takes the
      body's value. */
  lemma ColumnsKeepOrTake(read: Config, body: Config, current: Config)
    ensures var m := Merged(read, body, current);
            && (body.enabled == read.enabled ==> m.enabled == current.enabled)
            && (body.enabled != read.enabled ==> m.enabled == body.enabled)
            && (body.targets == read.targets ==> m.targets == current.targets)
            && (body.targets != read.targets ==> m.targets == body.targets)
            && (body.rules == read.rules ==> m.rules == current.rules)
            && (body.rules != read.rules ==> m.rules == body.rules)
            && (body.fallthrough == read.fallthrough ==> m.fallthrough == current.fallthrough)
            && (body.fallthrough != read.fallthrough ==> m.fallthrough == body.fallthrough)
            && (body.offVariation == read.offVariation ==> m.offVariation == current.offVariation)
            && (body.offVariation != read.offVariation ==> m.offVariation == body.offVariation)
            && (body.prerequisites == read.prerequisites ==> m.prerequisites == current.prerequisites)
            && (body.prerequisites != read.prerequisites ==> m.prerequisites == body.prerequisites)
  {
  }

  /** The second half of a PUT; the first half found the row to be `read`. */
  ghost function Commit(db: Db, at: ConfigKey, read: Row<Config>, body: Config): Db
    requires at in db.flagConfigs
  {
    var content := Merged(read.content, body, db.flagConfigs[at].content);
    db.(flagConfigs := db.flagConfigs[at := Row(content, read.version + 1)])
  }

  /** If nobody has written the row in between, the two halves are the PUT. */
  lemma UndisturbedPut(db: Db, p: string, k: string, e: string, body: Config)
    requires StatusOf(db, PutFlagConfig(p, k, e, body)) == Fine
    ensures var at := ConfigKey(Id(p, k), Id(p, e));
            Commit(db, at, db.flagConfigs[at], body) == After(db, PutFlagConfig(p, k, e, body))
  {
    hide AcceptsConfig, IndicesInRange;
  }

  /** Whatever happened in between, the columns of two accepted configs make an accepted config. */
  lemma MergedStaysGood(read: Config, body: Config, current: Config, def: FlagDef)
    requires GoodConfig(read, def) && GoodConfig(body, def) && GoodConfig(current, def)
    ensures GoodConfig(Merged(read, body, current), def)
  {
    hide AcceptsClauses, AcceptsPayload, PayloadInRange;
  }

  lemma CommitStaysOk(db: Db, at: ConfigKey, read: Row<Config>, body: Config)
    requires DbOk(db) && at in db.flagConfigs
    requires GoodConfig(read.content, db.flags[at.owner]) && GoodConfig(body, db.flags[at.owner])
    ensures DbOk(Commit(db, at, read, body))
  {
    hide GoodConfig, Merged;
    MergedStaysGood(read.content, body, db.flagConfigs[at].content, db.flags[at.owner]);
  }

  // ---- What the data plane makes of it ----

  lemma CommitRow(db: Db, env: Id, k: string, read: Row<Config>, body: Config, j: string)
    requires HasFlag(db, env, k)
    ensures var at := ConfigKey(Id(env.project, k), env);
            var d := Commit(db, at, read, body);
            if j == k then
              && HasFlag(d, env, k)
              && var r := FlagRow(db, env, k);
                 var config := RoundedConfig(Merged(read.content, body, db.flagConfigs[at].content));
                 FlagRow(d, env, k) == Row(r.content.(flag := r.content.flag.(config := config)), read.version + 1)
            else SameRow(db, d, env, j)
  {
    hide Merged, RoundedConfig;
  }

  lemma CommitTable(db: Db, env: Id, k: string, read: Row<Config>, body: Config)
    requires HasFlag(db, env, k)
    ensures var at := ConfigKey(Id(env.project, k), env);
            var t, u := FlagTable(db, env), FlagTable(Commit(db, at, read, body), env);
            var config := RoundedConfig(Merged(read.content, body, db.flagConfigs[at].content));
            var flag := t[k].content.flag.(config := config);
            u == t[k := Row(t[k].content.(flag := flag), read.version + 1)]
  {
    var d := Commit(db, ConfigKey(Id(env.project, k), env), read, body);
    hide FlagTable, Commit, SameRow, HasFlag, FlagRow, Merged, RoundedConfig;
    forall j ensures j == k || SameRow(db, d, env, j) {
      CommitRow(db, env, k, read, body, j);
    }
    CommitRow(db, env, k, read, body, k);
    OneRowChanged(db, d, env, k);
  }

  lemma CommitSegments(db: Db, env: Id, at: ConfigKey, read: Row<Config>, body: Config)
    requires at in db.flagConfigs
    ensures SegmentTable(Commit(db, at, read, body), env) == SegmentTable(db, env)
  {
  }

  lemma CommitVersion(db: Db, env: Id, k: string, read: Row<Config>, body: Config)
    requires HasFlag(db, env, k)
    ensures var at := ConfigKey(Id(env.project, k), env);
            DbVersion(Commit(db, at, read, body), env) ==
            DbVersion(db, env) - db.flagConfigs[at].version + read.version + 1
  {
    hide FlagTable, SegmentTable, Commit, Merged, RoundedConfig;
    var at := ConfigKey(Id(env.project, k), env);
    var t, u := FlagTable(db, env), FlagTable(Commit(db, at, read, body), env);
    CommitTable(db, env, k, read, body);
    CommitSegments(db, env, at, read, body);
    TotalReplaced(t, k, u[k]);
  }

  /** A PUT raises the environment's version exactly if the row's version has not grown since the PUT read it;
      if that has grown by one the environment keeps its version, and if by more the version falls. */
  lemma PutRaisesVersionIff(db: Db, env: Id, k: string, read: Row<Config>, body: Config)
    requires HasFlag(db, env, k)
    ensures var at := ConfigKey(Id(env.project, k), env);
            var growth := db.flagConfigs[at].version - read.version;
            var before, after := DbVersion(db, env), DbVersion(Commit(db, at, read, body), env);
            && (before < after <==> growth <= 0)
            && (before == after <==> growth == 1)
            && (before > after <==> growth > 1)
  {
    hide DbVersion, Commit;
    CommitVersion(db, env, k, read, body);
  }

  ghost predicate Hidden(c: Copy, db: Db, env: Id) {
    c.rs.version == DbVersion(db, env) && c.rs.flags != FlagsIn(FlagTable(db, env))
  }

  lemma FlagsDifferIff(t: Table<FlagEntry>, u: Table<FlagEntry>, k: string, config: Config, version: nat)
    requires k in t && u == t[k := Row(t[k].content.(flag := t[k].content.flag.(config := config)), version)]
    ensures FlagsIn(u) == FlagsIn(t) <==> config == t[k].content.flag.config
  {
    assert FlagsIn(u)[k].config == config && FlagsIn(t)[k].config == t[k].content.flag.config;
    assert FlagsIn(u).Keys == FlagsIn(t).Keys;
  }

  /** The cache was equal to the database when the PUT committed.  It now has the database's version and other
      flags exactly if the row's version has grown by one since the PUT read it, as it has when one other PUT
      has committed, and what the two make together is, as the data plane decodes it, another config. */
  lemma UpdateHiddenIff(db: Db, env: Id, k: string, read: Row<Config>, body: Config, c: Copy)
    requires HasFlag(db, env, k) && Current(c, db, env)
    ensures var at := ConfigKey(Id(env.project, k), env);
            var row := db.flagConfigs[at];
            Hidden(c, Commit(db, at, read, body), env) <==>
            && row.version == read.version + 1
            && RoundedConfig(Merged(read.content, body, row.content)) != RoundedConfig(row.content)
  {
    var at := ConfigKey(Id(env.project, k), env);
    var row, d := db.flagConfigs[at], Commit(db, at, read, body);
    var t := FlagTable(db, env);
    assert k in t && t[k].content.flag.config == RoundedConfig(row.content);
    CommitTable(db, env, k, read, body);
    CommitVersion(db, env, k, read, body);
    hide FlagTable, SegmentTable, Commit, Merged, RoundedConfig, HasFlag, FlagRow, FlagsIn;
    FlagsDifferIff(t, FlagTable(d, env), k, RoundedConfig(Merged(read.content, body, row.content)), read.version + 1);
  }

  /** A hidden update stays hidden: complete loads skip it, as long as nothing else is written. */
  lemma LoadsSkipHidden(cache: map<Id, Copy>, db: Db, env: Id, c: Copy)
    requires env in cache && Hidden(cache[env], db, env) && Current(c, db, env)
    ensures InstalledCopy(cache, env, c) == cache
  {
    hide FlagTable, SegmentTable;
  }

  // ---- It can happen ----

  /** Asks for the flag to be on and to serve variation 1. */
  const TURN_ON_ONE: Config := Config(true, [], [], Payload(Some(1), None), 0, [])

  /** Asks for everything as it is created, but for being on with off variation 1. */
  const ON_OFF_ONE: Config := Config(true, [], [], Payload(Some(0), None), 1, [])

  /** Two PUTs read the flag of the small database as it was created.  The first one commits and is loaded; the
      second one commits, and the cache keeps what the first one made.  The row is neither config. */
  lemma SmallHiddenUpdate(c: Copy)
    requires Current(c, After(SMALL, PutFlagConfig("p", "f", "e", TURN_ON_ONE)), Id("p", "e"))
    ensures var d := After(SMALL, PutFlagConfig("p", "f", "e", TURN_ON_ONE));
            var at := ConfigKey(Id("p", "f"), Id("p", "e"));
            && StatusOf(SMALL, PutFlagConfig("p", "f", "e", ON_OFF_ONE)) == Fine
            && at in d.flagConfigs
            && Commit(d, at, SEED, ON_OFF_ONE).flagConfigs[at].content ==
               Config(true, [], [], Payload(Some(1), None), 1, [])
            && Hidden(c, Commit(d, at, SEED, ON_OFF_ONE), Id("p", "e"))
  {
    var at := ConfigKey(Id("p", "f"), Id("p", "e"));
    FirstPut();
    var d := After(SMALL, PutFlagConfig("p", "f", "e", TURN_ON_ONE));
    assert HasFlag(d, Id("p", "e"), "f");
    UpdateHiddenIff(d, Id("p", "e"), "f", SEED, ON_OFF_ONE, c);
    hide Hidden, Current, HasFlag;
  }

  lemma FirstPut()
    ensures StatusOf(SMALL, PutFlagConfig("p", "f", "e", ON_OFF_ONE)) == Fine
    ensures After(SMALL, PutFlagConfig("p", "f", "e", TURN_ON_ONE)) ==
            SMALL.(flagConfigs := map[ConfigKey(Id("p", "f"), Id("p", "e")) := Row(TURN_ON_ONE, 2)])
  {
    assert StatusOf(SMALL, PutFlagConfig("p", "f", "e", TURN_ON_ONE)) == Fine;
  }
}
