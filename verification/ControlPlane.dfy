/** The database and the writes that the admin API offers (control-plane/app/api/projects.py, flags.py,
    segments.py; tables in migrations/0001_init.up.sql).  A request is one transaction. */
module ControlPlane {
  import opened Wrappers
  import opened Types
  import opened Versions
  import opened Prerequisites
  import opened JsonBoundary
  import opened Schemas

  /** Keys are unique within a project, so the pair stands for the row's id. */
  datatype Id = Id(project: string, key: string)

  datatype FlagDef = FlagDef(salt: string, kind: string, variations: seq<Variation>, clientSide: bool)

  datatype SegmentConfig = SegmentConfig(
    contextKind: string,
    included: seq<string>,
    excluded: seq<string>,
    rules: seq<SegmentRule>)

  /** Primary key of a per-environment row. */
  datatype ConfigKey = ConfigKey(owner: Id, env: Id)

  datatype Db = Db(
    projects: set<string>,
    envs: set<Id>,
    flags: map<Id, FlagDef>,
    flagConfigs: map<ConfigKey, Row<Config>>,
    segments: set<Id>,
    segmentConfigs: map<ConfigKey, Row<SegmentConfig>>)

  const EMPTY: Db := Db({}, {}, map[], map[], {}, map[])

  /** The row that `create_flag` seeds: off, variation 0, version 1. */
  const SEED: Row<Config> := Row(Config(false, [], [], Payload(Some(0), None), 0, []), 1)

  datatype Op =
    | CreateProject(project: string)
    | CreateEnvironment(project: string, key: string)
    | CreateFlag(project: string, key: string, def: FlagDef)
    | CreateSegment(project: string, key: string)
    | PutFlagConfig(project: string, key: string, env: string, config: Config)
    | PutSegmentConfig(project: string, key: string, env: string, segment: SegmentConfig)

  datatype Status = Fine | NotFound | Conflict | Unprocessable

  // ---- Specification of the writes ----

  /** The request body passes its schema. */
  predicate Accepts(op: Op) {
    match op
    case CreateProject(k) => AcceptsKey(k)
    case CreateEnvironment(_, k) => AcceptsKey(k)
    case CreateFlag(_, k, def) => AcceptsKey(k) && AcceptsVariations(def.kind, def.variations)
    case CreateSegment(_, k) => AcceptsKey(k)
    case PutFlagConfig(_, _, _, c) => AcceptsConfig(c)
    case PutSegmentConfig(_, _, _, s) => AcceptsSegmentRules(s.rules)
  }

  ghost function StatusOf(db: Db, op: Op): Status {
    if !Accepts(op) then Unprocessable
    else
      match op
      case CreateProject(k) => if k in db.projects then Conflict else Fine
      case CreateEnvironment(p, k) =>
        if p !in db.projects then NotFound else if Id(p, k) in db.envs then Conflict else Fine
      case CreateFlag(p, k, _) =>
        if p !in db.projects then NotFound else if Id(p, k) in db.flags then Conflict else Fine
      case CreateSegment(p, k) =>
        if p !in db.projects then NotFound else if Id(p, k) in db.segments then Conflict else Fine
      case PutFlagConfig(p, k, e, c) =>
        if p !in db.projects || Id(p, k) !in db.flags || Id(p, e) !in db.envs
           || ConfigKey(Id(p, k), Id(p, e)) !in db.flagConfigs then NotFound
        else if !IndicesInRange(c, |db.flags[Id(p, k)].variations|) then Unprocessable else Fine
      case PutSegmentConfig(p, k, e, _) =>
        if p !in db.projects || Id(p, k) !in db.segments || Id(p, e) !in db.envs then NotFound else Fine
  }

  /** The rows of a new flag, one for each of the environments. */
  ghost function Seeds(flag: Id, envs: set<Id>): (rows: map<ConfigKey, Row<Config>>)
    ensures forall at :: at in rows <==> at.owner == flag && at.env in envs
    ensures forall at :: at in rows ==> rows[at] == SEED
  {
    map e | e in envs :: ConfigKey(flag, e) := SEED
  }

  ghost function EnvsOf(db: Db, project: string): set<Id> {
    set e | e in db.envs && e.project == project
  }

  /** The database after the request; a request that is refused changes nothing. */
  ghost function After(db: Db, op: Op): Db {
    if StatusOf(db, op) != Fine then db
    else
      match op
      case CreateProject(k) => db.(projects := db.projects + {k})
      case CreateEnvironment(p, k) => db.(envs := db.envs + {Id(p, k)})
      case CreateFlag(p, k, def) =>
        db.(flags := db.flags[Id(p, k) := def], flagConfigs := db.flagConfigs + Seeds(Id(p, k), EnvsOf(db, p)))
      case CreateSegment(p, k) => db.(segments := db.segments + {Id(p, k)})
      case PutFlagConfig(p, k, e, c) =>
        var at := ConfigKey(Id(p, k), Id(p, e));
        db.(flagConfigs := db.flagConfigs[at := Row(c, db.flagConfigs[at].version + 1)])
      case PutSegmentConfig(p, k, e, s) =>
        var at := ConfigKey(Id(p, k), Id(p, e));
        var version := if at in db.segmentConfigs then db.segmentConfigs[at].version else 0;
        db.(segmentConfigs := db.segmentConfigs[at := Row(s, version + 1)])
  }

  // ---- What every write keeps ----

  ghost predicate GoodConfig(c: Config, def: FlagDef) {
    AcceptsConfig(c) && IndicesInRange(c, |def.variations|)
  }

  ghost predicate DbOk(db: Db) {
    && (forall f :: f in db.flags ==> |db.flags[f].variations| >= 2)
    && (forall at :: at in db.flagConfigs ==>
          && at.owner in db.flags && at.env in db.envs && at.owner.project == at.env.project
          && db.flagConfigs[at].version > 0
          && GoodConfig(db.flagConfigs[at].content, db.flags[at.owner]))
    && forall at :: at in db.segmentConfigs ==>
         at.owner in db.segments && at.owner.project == at.env.project && db.segmentConfigs[at].version > 0
  }

  lemma SeedIsGood(def: FlagDef)
    requires |def.variations| >= 2
    ensures GoodConfig(SEED.content, def)
  {
  }

  lemma CreateFlagKeepsOk(db: Db, op: Op)
    requires DbOk(db) && op.CreateFlag? && StatusOf(db, op) == Fine
    ensures DbOk(After(db, op))
  {
    assert |op.def.variations| >= 2;
    SeedIsGood(op.def);
    var flag, d := Id(op.project, op.key), After(db, op);
    hide GoodConfig, StatusOf, AcceptsVariations, AcceptsKey, Seeds, DbOk;
    assert d.flags == db.flags[flag := op.def] && d.flagConfigs == db.flagConfigs + Seeds(flag, EnvsOf(db, op.project));
    assert d.envs == db.envs && d.segments == db.segments && d.segmentConfigs == db.segmentConfigs && flag !in db.flags;
    hide After, EnvsOf;
    NewFlagIsOk(db, flag, op.def, d);
  }

  lemma NewFlagIsOk(db: Db, flag: Id, def: FlagDef, d: Db)
    requires DbOk(db) && flag !in db.flags && |def.variations| >= 2 && GoodConfig(SEED.content, def)
    requires d.flags == db.flags[flag := def] && d.flagConfigs == db.flagConfigs + Seeds(flag, EnvsOf(db, flag.project))
    requires d.envs == db.envs && d.segments == db.segments && d.segmentConfigs == db.segmentConfigs
    ensures DbOk(d)
  {
    hide GoodConfig;
  }

  lemma WritesKeepOk(db: Db, op: Op)
    requires DbOk(db)
    ensures DbOk(After(db, op))
  {
    if op.CreateFlag? && StatusOf(db, op) == Fine {
      CreateFlagKeepsOk(db, op);
    } else {
      hide AcceptsConfig, IndicesInRange, AcceptsKey, AcceptsVariations, AcceptsSegmentRules, Seeds;
    }
  }

  // ---- The two queries of the data plane ----

  datatype FlagEntry = FlagEntry(flag: Flag, clientSide: bool)

  ghost predicate HasFlag(db: Db, env: Id, k: string) {
    Id(env.project, k) in db.flags && ConfigKey(Id(env.project, k), env) in db.flagConfigs
  }

  /** The row as the data plane decodes it, numbers rounded to float64. */
  ghost function FlagRow(db: Db, env: Id, k: string): Row<FlagEntry>
    requires HasFlag(db, env, k)
  {
    var def, row := db.flags[Id(env.project, k)], db.flagConfigs[ConfigKey(Id(env.project, k), env)];
    var variations := Each(def.variations, RoundedVariation);
    Row(FlagEntry(Flag(k, def.salt, def.kind, variations, RoundedConfig(row.content)), def.clientSide), row.version)
  }

  /** The data plane can decode the flag's row. */
  ghost predicate ReadableFlag(db: Db, env: Id, k: string)
    requires HasFlag(db, env, k)
  {
    && ReadableVariations(db.flags[Id(env.project, k)].variations)
    && ReadableConfig(db.flagConfigs[ConfigKey(Id(env.project, k), env)].content)
  }

  /** Flags of the environment's project joined with their rows for the environment. */
  ghost function FlagTable(db: Db, env: Id): (t: Table<FlagEntry>)
    ensures forall k :: k in t <==> HasFlag(db, env, k)
    ensures forall k :: k in t ==> t[k] == FlagRow(db, env, k)
  {
    var keys := set f | f in db.flags && f.project == env.project && ConfigKey(f, env) in db.flagConfigs :: f.key;
    map k | k in keys :: FlagRow(db, env, k)
  }

  ghost predicate HasSegment(db: Db, env: Id, k: string) {
    Id(env.project, k) in db.segments && ConfigKey(Id(env.project, k), env) in db.segmentConfigs
  }

  ghost function SegmentRow(db: Db, env: Id, k: string): Row<Segment>
    requires HasSegment(db, env, k)
  {
    var row := db.segmentConfigs[ConfigKey(Id(env.project, k), env)];
    var c := row.content;
    Row(Segment(k, c.contextKind, c.included, c.excluded, Each(c.rules, RoundedSegmentRule)), row.version)
  }

  ghost predicate ReadableSegment(db: Db, env: Id, k: string)
    requires HasSegment(db, env, k)
  {
    ReadableSegmentRules(db.segmentConfigs[ConfigKey(Id(env.project, k), env)].content.rules)
  }

  ghost function SegmentTable(db: Db, env: Id): (t: Table<Segment>)
    ensures forall k :: k in t <==> HasSegment(db, env, k)
    ensures forall k :: k in t ==> t[k] == SegmentRow(db, env, k)
  {
    var keys := set s | s in db.segments && s.project == env.project && ConfigKey(s, env) in db.segmentConfigs :: s.key;
    map k | k in keys :: SegmentRow(db, env, k)
  }

  ghost predicate ReadableFlags(db: Db, env: Id) {
    forall k :: HasFlag(db, env, k) ==> ReadableFlag(db, env, k)
  }

  ghost predicate ReadableSegments(db: Db, env: Id) {
    forall k :: HasSegment(db, env, k) ==> ReadableSegment(db, env, k)
  }

  /** The aggregate version of an environment as the database has it. */
  ghost function DbVersion(db: Db, env: Id): nat {
    Total(FlagTable(db, env)) + Total(SegmentTable(db, env))
  }

  lemma TablesPositive(db: Db, env: Id)
    requires DbOk(db)
    ensures Positive(FlagTable(db, env)) && Positive(SegmentTable(db, env))
  {
  }

  lemma RoundedStaysAccepted(c: Config, count: nat)
    requires AcceptsConfig(c) && IndicesInRange(c, count)
    ensures AcceptsConfig(RoundedConfig(c)) && IndicesInRange(RoundedConfig(c), count)
  {
    hide AcceptsPayload, PayloadInRange, Rounded;
  }

  /** Every flag that the data plane can read is safe to evaluate. */
  lemma TableFlagsValid(db: Db, env: Id, k: string)
    requires DbOk(db) && k in FlagTable(db, env)
    ensures ValidFlag(FlagTable(db, env)[k].content.flag) && WholeRollouts(FlagTable(db, env)[k].content.flag)
  {
    var flag, at := FlagTable(db, env)[k].content.flag, ConfigKey(Id(env.project, k), env);
    assert flag.config == RoundedConfig(db.flagConfigs[at].content);
    RoundedStaysAccepted(db.flagConfigs[at].content, |flag.variations|);
    AcceptedIsValid(flag);
    AcceptedIsWhole(flag);
    hide AcceptsConfig, IndicesInRange, ValidFlag, WholeRollouts, GoodConfig;
  }

  ghost predicate SameRow(db: Db, d: Db, env: Id, k: string) {
    HasFlag(db, env, k) == HasFlag(d, env, k) && (HasFlag(db, env, k) ==> FlagRow(d, env, k) == FlagRow(db, env, k))
  }

  lemma OneRowChanged(db: Db, d: Db, env: Id, k: string)
    requires HasFlag(d, env, k) && forall j :: j != k ==> SameRow(db, d, env, j)
    ensures FlagTable(d, env) == FlagTable(db, env)[k := FlagRow(d, env, k)]
  {
    hide FlagTable, HasFlag, FlagRow;
    var t, u := FlagTable(db, env), FlagTable(d, env);
    assert forall j :: j != k ==> SameRow(db, d, env, j) && (j in t <==> j in u);
  }

  lemma NoRowChanged(db: Db, d: Db, env: Id)
    requires forall j :: SameRow(db, d, env, j)
    ensures FlagTable(d, env) == FlagTable(db, env)
  {
    hide FlagTable, HasFlag, FlagRow;
    var t, u := FlagTable(db, env), FlagTable(d, env);
    assert forall j :: SameRow(db, d, env, j) && (j in t <==> j in u);
  }

  /** A new flag as the data plane reads it: off, everything at variation 0, version 1. */
  ghost function SeedRow(k: string, def: FlagDef): Row<FlagEntry> {
    var variations := Each(def.variations, RoundedVariation);
    Row(FlagEntry(Flag(k, def.salt, def.kind, variations, Config(false, [], [], Payload(Some(0), None), 0, [])),
                  def.clientSide), 1)
  }

  lemma CreateFlagRow(db: Db, p: string, k: string, def: FlagDef, env: Id, j: string)
    requires DbOk(db) && StatusOf(db, CreateFlag(p, k, def)) == Fine
    ensures var d := After(db, CreateFlag(p, k, def));
            if env.project == p && env in db.envs && j == k then
              !HasFlag(db, env, j) && HasFlag(d, env, j) && FlagRow(d, env, j) == SeedRow(k, def)
            else SameRow(db, d, env, j)
  {
    hide GoodConfig, Accepts, Seeds;
    assert RoundedConfig(SEED.content) == SEED.content;
    assert db.flagConfigs.Keys !! Seeds(Id(p, k), EnvsOf(db, p)).Keys;
  }

  lemma FlagTableAfterCreate(db: Db, p: string, k: string, def: FlagDef, env: Id)
    requires DbOk(db) && StatusOf(db, CreateFlag(p, k, def)) == Fine
    ensures var t, u := FlagTable(db, env), FlagTable(After(db, CreateFlag(p, k, def)), env);
            if env in db.envs && env.project == p then k !in t && u == t[k := SeedRow(k, def)]
            else u == t
  {
    var d := After(db, CreateFlag(p, k, def));
    hide FlagTable, After, DbOk, StatusOf, SameRow, HasFlag, FlagRow;
    forall j ensures (env in db.envs && env.project == p && j == k) || SameRow(db, d, env, j) {
      CreateFlagRow(db, p, k, def, env, j);
    }
    if env in db.envs && env.project == p {
      CreateFlagRow(db, p, k, def, env, k);
      OneRowChanged(db, d, env, k);
    } else {
      NoRowChanged(db, d, env);
    }
  }

  lemma PutFlagRow(db: Db, p: string, k: string, e: string, c: Config, env: Id, j: string)
    requires DbOk(db) && StatusOf(db, PutFlagConfig(p, k, e, c)) == Fine
    ensures var d := After(db, PutFlagConfig(p, k, e, c));
            if env == Id(p, e) && j == k then
              && HasFlag(db, env, k) && HasFlag(d, env, k)
              && var r := FlagRow(db, env, k);
                 var flag := r.content.flag.(config := RoundedConfig(c));
                 FlagRow(d, env, k) == Row(r.content.(flag := flag), r.version + 1)
            else SameRow(db, d, env, j)
  {
    hide GoodConfig, IndicesInRange, AcceptsConfig, RoundedConfig;
  }

  lemma FlagTableAfterPut(db: Db, p: string, k: string, e: string, c: Config, env: Id)
    requires DbOk(db) && StatusOf(db, PutFlagConfig(p, k, e, c)) == Fine
    ensures var t, u := FlagTable(db, env), FlagTable(After(db, PutFlagConfig(p, k, e, c)), env);
            if env == Id(p, e) then
              && k in t
              && var flag := t[k].content.flag.(config := RoundedConfig(c));
                 u == t[k := Row(t[k].content.(flag := flag), t[k].version + 1)]
            else u == t
  {
    hide FlagTable, After, DbOk, StatusOf, SameRow, HasFlag, FlagRow;
    var d := After(db, PutFlagConfig(p, k, e, c));
    forall j ensures (env == Id(p, e) && j == k) || SameRow(db, d, env, j) {
      PutFlagRow(db, p, k, e, c, env, j);
    }
    if env == Id(p, e) {
      PutFlagRow(db, p, k, e, c, env, k);
      OneRowChanged(db, d, env, k);
    } else {
      NoRowChanged(db, d, env);
    }
  }

  ghost predicate SameSegmentRow(db: Db, d: Db, env: Id, k: string) {
    HasSegment(db, env, k) == HasSegment(d, env, k)
    && (HasSegment(db, env, k) ==> SegmentRow(d, env, k) == SegmentRow(db, env, k))
  }

  lemma PutSegmentRow(db: Db, p: string, k: string, e: string, s: SegmentConfig, env: Id, j: string)
    requires StatusOf(db, PutSegmentConfig(p, k, e, s)) == Fine
    ensures var d := After(db, PutSegmentConfig(p, k, e, s));
            if env == Id(p, e) && j == k then
              && HasSegment(d, env, k)
              && SegmentRow(d, env, k) ==
                 Row(Segment(k, s.contextKind, s.included, s.excluded, Each(s.rules, RoundedSegmentRule)),
                     (if HasSegment(db, env, k) then SegmentRow(db, env, k).version else 0) + 1)
            else SameSegmentRow(db, d, env, j)
  {
    hide AcceptsSegmentRules;
  }

  lemma SegmentTableAfterPut(db: Db, p: string, k: string, e: string, s: SegmentConfig, env: Id)
    requires StatusOf(db, PutSegmentConfig(p, k, e, s)) == Fine
    ensures var t, u := SegmentTable(db, env), SegmentTable(After(db, PutSegmentConfig(p, k, e, s)), env);
            if env == Id(p, e) then
              u == t[k := Row(Segment(k, s.contextKind, s.included, s.excluded, Each(s.rules, RoundedSegmentRule)),
                              (if k in t then t[k].version else 0) + 1)]
            else u == t
  {
    hide SegmentTable, After, StatusOf, HasSegment, SegmentRow, SameSegmentRow;
    var d := After(db, PutSegmentConfig(p, k, e, s));
    forall j ensures (env == Id(p, e) && j == k) || SameSegmentRow(db, d, env, j) {
      PutSegmentRow(db, p, k, e, s, env, j);
    }
    if env == Id(p, e) {
      PutSegmentRow(db, p, k, e, s, env, k);
      OneSegmentChanged(db, d, env, k);
    } else {
      NoSegmentChanged(db, d, env);
    }
  }

  lemma OneSegmentChanged(db: Db, d: Db, env: Id, k: string)
    requires HasSegment(d, env, k) && forall j :: j != k ==> SameSegmentRow(db, d, env, j)
    ensures SegmentTable(d, env) == SegmentTable(db, env)[k := SegmentRow(d, env, k)]
  {
    hide SegmentTable, HasSegment, SegmentRow;
    var t, u := SegmentTable(db, env), SegmentTable(d, env);
    assert forall j :: j != k ==> SameSegmentRow(db, d, env, j) && (j in t <==> j in u);
  }

  lemma NoSegmentChanged(db: Db, d: Db, env: Id)
    requires forall j :: SameSegmentRow(db, d, env, j)
    ensures SegmentTable(d, env) == SegmentTable(db, env)
  {
    hide SegmentTable, HasSegment, SegmentRow;
    var t, u := SegmentTable(db, env), SegmentTable(d, env);
    assert forall j :: SameSegmentRow(db, d, env, j) && (j in t <==> j in u);
  }

  lemma SameFlags(db: Db, d: Db, env: Id)
    requires db.flags == d.flags && db.flagConfigs == d.flagConfigs
    ensures FlagTable(d, env) == FlagTable(db, env)
  {
  }

  lemma SameSegments(db: Db, op: Op, env: Id)
    requires DbOk(db) && !op.PutSegmentConfig?
    ensures SegmentTable(After(db, op), env) == SegmentTable(db, env)
  {
    hide SegmentTable, GoodConfig, Accepts, IndicesInRange;
    var d := After(db, op);
    assert forall k :: HasSegment(db, env, k) <==> HasSegment(d, env, k);
  }

  lemma FlagsAdvance(db: Db, op: Op, env: Id)
    requires DbOk(db) && StatusOf(db, op) == Fine
    ensures Advances(FlagTable(db, env), FlagTable(After(db, op), env))
  {
    var t, u := FlagTable(db, env), FlagTable(After(db, op), env);
    if op.CreateFlag? {
      FlagTableAfterCreate(db, op.project, op.key, op.def, env);
      hide After, FlagTable, DbOk, StatusOf;
      if u != t {
        TotalAdded(t, op.key, u[op.key]);
      }
    } else if op.PutFlagConfig? {
      FlagTableAfterPut(db, op.project, op.key, op.env, op.config, env);
      hide After, FlagTable, DbOk, StatusOf;
      if u != t {
        TotalReplaced(t, op.key, u[op.key]);
      }
    } else {
      SameFlags(db, After(db, op), env);
    }
  }

  lemma SegmentsAdvance(db: Db, op: Op, env: Id)
    requires DbOk(db) && StatusOf(db, op) == Fine
    ensures Advances(SegmentTable(db, env), SegmentTable(After(db, op), env))
  {
    var t, u := SegmentTable(db, env), SegmentTable(After(db, op), env);
    if op.PutSegmentConfig? {
      SegmentTableAfterPut(db, op.project, op.key, op.env, op.segment, env);
      hide After, SegmentTable, DbOk, StatusOf;
      if u != t && op.key in t {
        TotalReplaced(t, op.key, u[op.key]);
      } else if u != t {
        TotalAdded(t, op.key, u[op.key]);
      }
    } else {
      SameSegments(db, op, env);
    }
  }

  /** Each write either leaves an environment's tables as they are or makes their totals grow. */
  lemma WritesAdvance(db: Db, op: Op, env: Id)
    requires DbOk(db)
    ensures Advances(FlagTable(db, env), FlagTable(After(db, op), env))
    ensures Advances(SegmentTable(db, env), SegmentTable(After(db, op), env))
  {
    if StatusOf(db, op) == Fine {
      FlagsAdvance(db, op, env);
      SegmentsAdvance(db, op, env);
    }
  }

  // ---- The request handlers ----

  /** The session's view of the tables, updated in place. */
  class Database {
    var projects: set<string>
    var envs: set<Id>
    var flags: map<Id, FlagDef>
    var flagConfigs: map<ConfigKey, Row<Config>>
    var segments: set<Id>
    var segmentConfigs: map<ConfigKey, Row<SegmentConfig>>

    function Contents(): Db
      reads this
    {
      Db(projects, envs, flags, flagConfigs, segments, segmentConfigs)
    }

    /** Adds a default row for the flag to every environment of its project. */
    method SeedEnvironments(flag: Id)
      modifies this`flagConfigs
      ensures flagConfigs == old(flagConfigs) + Seeds(flag, set e | e in envs && e.project == flag.project)
    {
      var all := set e | e in envs && e.project == flag.project;
      var todo := all;
      hide Seeds;
      while todo != {}
        invariant todo <= all
        invariant flagConfigs == old(flagConfigs) + Seeds(flag, all - todo)
        decreases todo
      {
        var env :| env in todo;
        flagConfigs := flagConfigs[ConfigKey(flag, env) := SEED];
        todo := todo - {env};
      }
      assert all - todo == all;
    }

    method CreateFlagInProject(project: string, key: string, def: FlagDef) returns (status: Status)
      modifies this
      ensures status == StatusOf(old(Contents()), CreateFlag(project, key, def))
      ensures Contents() == After(old(Contents()), CreateFlag(project, key, def))
    {
      hide Seeds;
      if !Accepts(CreateFlag(project, key, def)) {
        return Unprocessable;
      }
      if project !in projects {
        return NotFound;
      }
      var flag := Id(project, key);
      if flag in flags {
        return Conflict;
      }
      flags := flags[flag := def];
      SeedEnvironments(flag);
      status := Fine;
    }

    method UpdateFlagConfig(project: string, key: string, env: string, body: Config) returns (status: Status)
      modifies this
      ensures status == StatusOf(old(Contents()), PutFlagConfig(project, key, env, body))
      ensures Contents() == After(old(Contents()), PutFlagConfig(project, key, env, body))
    {
      if !AcceptsConfig(body) {
        return Unprocessable;
      }
      var flag, at := Id(project, key), ConfigKey(Id(project, key), Id(project, env));
      if project !in projects || flag !in flags || Id(project, env) !in envs || at !in flagConfigs {
        return NotFound;
      }
      var bad := ValidateIndices(body, |flags[flag].variations|);
      if |bad| > 0 {
        return Unprocessable;
      }
      flagConfigs := flagConfigs[at := Row(body, flagConfigs[at].version + 1)];
      status := Fine;
    }

    method UpdateSegmentConfig(project: string, key: string, env: string, body: SegmentConfig)
      returns (status: Status)
      modifies this
      ensures status == StatusOf(old(Contents()), PutSegmentConfig(project, key, env, body))
      ensures Contents() == After(old(Contents()), PutSegmentConfig(project, key, env, body))
    {
      if !AcceptsSegmentRules(body.rules) {
        return Unprocessable;
      }
      var at := ConfigKey(Id(project, key), Id(project, env));
      if project !in projects || Id(project, key) !in segments || Id(project, env) !in envs {
        return NotFound;
      }
      var row := if at in segmentConfigs then segmentConfigs[at] else Row(body, 0);
      segmentConfigs := segmentConfigs[at := Row(body, row.version + 1)];
      status := Fine;
    }
  }
}
